/** Singly linked nodes, and what taking one out of their list leaves. */
module SinglyLinked {
  import opened Common

  class Node<T(!new)> {
    var next: Node?<T>
    var value: T

    constructor (value: T)
      ensures this.value == value && next == null
    {
      next, this.value := null, value;
    }
  }

  ghost function After<T(!new)>(nodes: seq<Node<T>>, i: nat): Node?<T>
    requires i < |nodes|
  {
    if i + 1 < |nodes| then nodes[i + 1] else null
  }

  /** Node i knows the next one, and holds the value that it should. */
  ghost predicate NodeOk<T(!new)>(nodes: seq<Node<T>>, vs: seq<T>, i: nat)
    requires i < |nodes| == |vs|
    reads nodes
  {
    nodes[i].next == After(nodes, i) && nodes[i].value == vs[i]
  }

  ghost predicate Linked<T(!new)>(nodes: seq<Node<T>>, vs: seq<T>)
    reads nodes
  {
    |nodes| == |vs| && forall i :: 0 <= i < |nodes| ==> NodeOk(nodes, vs, i)
  }

  /** Old node i once node k has been linked out. */
  ghost predicate Closed<T(!new)>(ns: seq<Node<T>>, vs: seq<T>, k: nat, i: nat)
    requires i < |ns| == |vs| && k < |ns|
    reads ns
  {
    ns[i].next == (if i + 1 == k then After(ns, k) else After(ns, i)) && ns[i].value == vs[i]
  }

  lemma CutNode<T(!new)>(ns: seq<Node<T>>, vs: seq<T>, k: nat, i: nat)
    requires |ns| == |vs| && k < |ns| && i < |ns| - 1
    requires forall j :: 0 <= j < |ns| && j != k ==> Closed(ns, vs, k, j)
    ensures NodeOk(Cut(ns, k), Cut(vs, k), i)
  {
    var nodes, j := Cut(ns, k), if i < k then i else i + 1;
    assert Closed(ns, vs, k, j) && nodes[i] == ns[j];
  }

  /** The list once node k has been linked out. */
  lemma CutLinked<T(!new)>(ns: seq<Node<T>>, vs: seq<T>, k: nat, repr: set<Node<T>>)
    requires |vs| == |ns| && k < |ns| && NoRepeats(ns) && forall i :: 0 <= i < |ns| ==> ns[i] in repr
    requires forall i :: 0 <= i < |ns| && i != k ==> Closed(ns, vs, k, i)
    ensures NoRepeats(Cut(ns, k)) && Linked(Cut(ns, k), Cut(vs, k))
    ensures forall i :: 0 <= i < |Cut(ns, k)| ==> Cut(ns, k)[i] in repr
  {
    var nodes := Cut(ns, k);
    forall i | 0 <= i < |nodes| ensures NodeOk(nodes, Cut(vs, k), i) { CutNode(ns, vs, k, i); }
    forall i | 0 <= i < |nodes| ensures nodes[i] in repr {
      assert nodes[i] == ns[if i < k then i else i + 1];
    }
  }

  ghost function Members<T(!new)>(nodes: seq<Node<T>>): set<Node<T>> {
    set n | n in nodes
  }

  /** The nodes that stay are all but node k. */
  lemma CutMembers<T(!new)>(ns: seq<Node<T>>, k: nat)
    requires k < |ns| && NoRepeats(ns)
    ensures Members(Cut(ns, k)) == Members(ns) - {ns[k]}
    ensures forall i :: 0 <= i < |Cut(ns, k)| ==> Cut(ns, k)[i] in Members(ns) - {ns[k]}
  {
    var nodes := Cut(ns, k);
    forall i | 0 <= i < |nodes| ensures nodes[i] in Members(ns) - {ns[k]} {
      assert nodes[i] == ns[if i < k then i else i + 1];
    }
    forall n | n in Members(ns) - {ns[k]} ensures n in nodes {
      var i :| 0 <= i < |ns| && ns[i] == n;
      assert nodes[if i < k then i else i - 1] == n;
    }
  }

  /** The list once node p has been put behind the last one. */
  lemma AppendLinked<T(!new)>(ns: seq<Node<T>>, vs: seq<T>, p: Node<T>, repr: set<Node<T>>)
    requires |vs| == |ns| && NoRepeats(ns) && p !in repr && forall i :: 0 <= i < |ns| ==> ns[i] in repr
    requires forall i :: 0 <= i < |ns| ==> ns[i].value == vs[i] && ns[i].next == if i + 1 == |ns| then p else After(ns, i)
    requires p.next == null
    ensures NoRepeats(ns + [p]) && Linked(ns + [p], vs + [p.value])
    ensures forall i :: 0 <= i < |ns + [p]| ==> (ns + [p])[i] in repr + {p}
  {
    var nodes := ns + [p];
    forall i | 0 <= i < |nodes| ensures NodeOk(nodes, vs + [p.value], i) {
      if i < |ns| { assert nodes[i] == ns[i]; }
    }
  }
}
