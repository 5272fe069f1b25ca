/** The reassembly queue as the doubly linked list that it is, and the receive path that puts segments in and takes
    them off its head. */
module ReassemblyList {
  import opened Common
  import opened Reassembly

  class SegInfo {
    var next: SegInfo?
    var prev: SegInfo?
    var startseq: int
    var endseq: int
    var flags: set<nat>

    constructor (startseq: int, endseq: int, flags: set<nat>)
      ensures Value() == Seg(startseq, endseq, flags)
    {
      next, prev := null, null;
      this.startseq, this.endseq, this.flags := startseq, endseq, flags;
    }

    function Value(): Seg
      reads this
    {
      Seg(startseq, endseq, flags)
    }
  }

  ghost function After(nodes: seq<SegInfo>, i: nat): SegInfo?
    requires i < |nodes|
  {
    if i + 1 < |nodes| then nodes[i + 1] else null
  }

  ghost function Before(nodes: seq<SegInfo>, i: nat): SegInfo?
    requires i < |nodes|
  {
    if i > 0 then nodes[i - 1] else null
  }

  /** Node i knows its neighbours, and holds the segment that it should. */
  ghost predicate NodeOk(nodes: seq<SegInfo>, vs: seq<Seg>, i: nat)
    requires i < |nodes| == |vs|
    reads nodes
  {
    nodes[i].next == After(nodes, i) && nodes[i].prev == Before(nodes, i) && nodes[i].Value() == vs[i]
  }

  ghost predicate Linked(nodes: seq<SegInfo>, vs: seq<Seg>)
    reads nodes
  {
    |nodes| == |vs| && forall i :: 0 <= i < |nodes| ==> NodeOk(nodes, vs, i)
  }

  /** Old node i once n has been linked in at place k. */
  ghost predicate MadeRoom(ns: seq<SegInfo>, vs: seq<Seg>, k: nat, n: SegInfo, i: nat)
    requires i < |ns| == |vs|
    reads ns
  {
    && ns[i].next == (if i + 1 == k then n else After(ns, i))
    && ns[i].prev == (if i == k then n else Before(ns, i))
    && ns[i].Value() == vs[i]
  }

  lemma PutNode(ns: seq<SegInfo>, vs: seq<Seg>, k: nat, n: SegInfo, i: nat)
    requires |ns| == |vs| && k <= |ns| && i <= |ns| && forall j :: 0 <= j < |ns| ==> MadeRoom(ns, vs, k, n, j)
    requires n.next == (if k < |ns| then ns[k] else null) && n.prev == if k > 0 then ns[k - 1] else null
    ensures NodeOk(Put(ns, k, n), Put(vs, k, n.Value()), i)
  {
    var nodes := Put(ns, k, n);
    if i < k { assert MadeRoom(ns, vs, k, n, i) && nodes[i] == ns[i]; }
    else if i > k { assert MadeRoom(ns, vs, k, n, i - 1) && nodes[i] == ns[i - 1]; }
  }

  /** Old node i once node k has been linked out. */
  ghost predicate Closed(ns: seq<SegInfo>, vs: seq<Seg>, k: nat, i: nat)
    requires i < |ns| == |vs| && k < |ns|
    reads ns
  {
    && ns[i].next == (if i + 1 == k then After(ns, k) else After(ns, i))
    && ns[i].prev == (if i == k + 1 then Before(ns, k) else Before(ns, i))
    && ns[i].Value() == vs[i]
  }

  lemma CutNode(ns: seq<SegInfo>, vs: seq<Seg>, k: nat, i: nat)
    requires |ns| == |vs| && k < |ns| && i < |ns| - 1
    requires forall j :: 0 <= j < |ns| && j != k ==> Closed(ns, vs, k, j)
    ensures NodeOk(Cut(ns, k), Cut(vs, k), i)
  {
    var nodes, j := Cut(ns, k), if i < k then i else i + 1;
    assert Closed(ns, vs, k, j) && nodes[i] == ns[j];
  }

  /** The list once a node has been linked in at place k. */
  lemma PutLinked(ns: seq<SegInfo>, vs: seq<Seg>, k: nat, n: SegInfo, repr: set<SegInfo>)
    requires |vs| == |ns| && k <= |ns| && NoRepeats(ns)
    requires forall i :: 0 <= i < |ns| ==> ns[i] in repr && ns[i] != n
    requires forall i :: 0 <= i < |ns| ==> MadeRoom(ns, vs, k, n, i)
    requires n.next == (if k < |ns| then ns[k] else null) && n.prev == if k > 0 then ns[k - 1] else null
    ensures NoRepeats(Put(ns, k, n)) && Linked(Put(ns, k, n), Put(vs, k, n.Value()))
    ensures forall i :: 0 <= i < |Put(ns, k, n)| ==> Put(ns, k, n)[i] in repr + {n}
  {
    var nodes := Put(ns, k, n);
    PutNoRepeats(ns, k, n);
    forall i | 0 <= i < |nodes| ensures NodeOk(nodes, Put(vs, k, n.Value()), i) { PutNode(ns, vs, k, n, i); }
    forall i | 0 <= i < |nodes| ensures nodes[i] in repr + {n} {
      if i != k { assert nodes[i] == ns[if i < k then i else i - 1]; }
    }
  }

  /** The list once node k has been linked out. */
  lemma CutLinked(ns: seq<SegInfo>, vs: seq<Seg>, k: nat, repr: set<SegInfo>)
    requires |vs| == |ns| && k < |ns| && NoRepeats(ns) && forall i :: 0 <= i < |ns| ==> ns[i] in repr
    requires forall i :: 0 <= i < |ns| && i != k ==> Closed(ns, vs, k, i)
    ensures NoRepeats(Cut(ns, k)) && Linked(Cut(ns, k), Cut(vs, k))
    ensures forall i :: 0 <= i < |Cut(ns, k)| ==> Cut(ns, k)[i] in repr
  {
    var nodes := Cut(ns, k);
    CutNoRepeats(ns, k);
    forall i | 0 <= i < |nodes| ensures NodeOk(nodes, Cut(vs, k), i) { CutNode(ns, vs, k, i); }
    forall i | 0 <= i < |nodes| ensures nodes[i] in repr {
      assert nodes[i] == ns[if i < k then i else i + 1];
    }
  }

  /** What is left to drain, after some of all has been drained with these flags. */
  ghost predicate Remaining(all: seq<Seg>, c: seq<Seg>, flags: set<nat>) {
    && all != [] && c != [] && Drain(c).nxt == Drain(all).nxt && Drain(c).rest == Drain(all).rest
    && flags + Drain(c).flags == Drain(all).flags
  }

  lemma DrainStep(all: seq<Seg>, c: seq<Seg>, flags: set<nat>)
    requires Remaining(all, c, flags)
    ensures var c' := Cut(c, 0);
            if c' == [] || c[0].endseq < c'[0].startseq then Drain(all) == Drained(c[0].endseq, c', flags + c[0].flags)
            else Remaining(all, c', flags + c[0].flags)
  {
    assert Cut(c, 0) == c[1..];
  }

  /** rcvNxt is the field of the connection that the queue updates through a reference; nodes and contents
      are the list and the segments in it, from head to tail. */
  class Queue {
    var head: SegInfo?
    var tail: SegInfo?
    var rcvNxt: int
    ghost var nodes: seq<SegInfo>
    ghost var contents: seq<Seg>
    ghost var repr: set<SegInfo>

    ghost predicate Valid()
      reads this, repr, nodes
    {
      && (forall i :: 0 <= i < |nodes| ==> nodes[i] in repr)
      && NoRepeats(nodes) && Linked(nodes, contents)
      && head == (if nodes == [] then null else nodes[0])
      && tail == (if nodes == [] then null else nodes[|nodes| - 1])
    }

    lemma NodeFacts(k: nat)
      requires Valid() && k < |nodes|
      ensures NodeOk(nodes, contents, k)
      ensures nodes[k] in repr && (k + 1 < |nodes| ==> nodes[k + 1] in repr) && (k > 0 ==> nodes[k - 1] in repr)
    {
    }

    constructor (rcvNxt: int)
      ensures Valid() && contents == [] && this.rcvNxt == rcvNxt && repr == {}
    {
      head, tail, nodes, contents, repr := null, null, [], [], {};
      this.rcvNxt := rcvNxt;
    }

    /** The search of add() for the segment after the new one. */
    method FindAfter(endseq: int) returns (q: SegInfo?)
      requires Valid()
      ensures var k := FirstFrom(contents, endseq);
              q == if k < |nodes| then nodes[k] else null
    {
      q := head;
      ghost var k := 0;
      while q != null && endseq > q.startseq
        invariant k <= |nodes| && q == if k < |nodes| then nodes[k] else null
        invariant forall i :: 0 <= i < k ==> contents[i].startseq < endseq
        decreases |nodes| - k
      {
        NodeFacts(k);
        q, k := q.next, k + 1;
      }
      if k < |nodes| { NodeFacts(k); }
    }

    /** The pointers that put n before the head. */
    method SetLinksAtHead(n: SegInfo)
      requires Valid() && nodes != [] && n !in repr
      modifies this`head, repr, n
      ensures nodes == old(nodes) && contents == old(contents) && repr == old(repr)
      ensures forall i :: 0 <= i < |nodes| ==> MadeRoom(nodes, contents, 0, n, i)
      ensures n.next == nodes[0] && n.prev == null && n.Value() == old(n.Value()) && head == n
    {
      NodeFacts(0);
      n.next, n.prev := head, null;
      head.prev := n;
      head := n;
      forall i | 0 <= i < |nodes| ensures MadeRoom(nodes, contents, 0, n, i) {
        assert old(NodeOk(nodes, contents, i));
      }
    }

    method LinkAtHead(n: SegInfo)
      requires Valid() && nodes != [] && n !in repr
      modifies this`head, this`nodes, this`contents, this`repr, repr, n
      ensures Valid() && repr == old(repr) + {n} && nodes != []
      ensures contents == Put(old(contents), 0, old(n.Value()))
    {
      ghost var ns, vs := nodes, contents;
      SetLinksAtHead(n);
      PutLinked(ns, vs, 0, n, repr);
      nodes, contents, repr := Put(ns, 0, n), Put(vs, 0, n.Value()), repr + {n};
    }

    /** The pointers that put n behind p, at place at. */
    method SetLinksAfter(p: SegInfo, n: SegInfo, ghost at: nat)
      requires Valid() && 0 < at <= |nodes| && p == nodes[at - 1] && n !in repr
      modifies this`tail, repr, n
      ensures nodes == old(nodes) && contents == old(contents) && repr == old(repr)
      ensures forall i :: 0 <= i < |nodes| ==> MadeRoom(nodes, contents, at, n, i)
      ensures n.next == (if at < |nodes| then nodes[at] else null) && n.prev == nodes[at - 1]
      ensures n.Value() == old(n.Value()) && tail == if at < |nodes| then old(tail) else n
    {
      NodeFacts(at - 1);
      if at < |nodes| { assert nodes[at - 1] != nodes[|nodes| - 1]; }
      n.next := p.next;
      if p.next != null { p.next.prev := n; }
      p.next := n;
      n.prev := p;
      if p == tail { tail := n; }
      forall i | 0 <= i < |nodes| ensures MadeRoom(nodes, contents, at, n, i) {
        assert old(NodeOk(nodes, contents, i));
      }
    }

    method LinkAfter(p: SegInfo, n: SegInfo, ghost at: nat)
      requires Valid() && 0 < at <= |nodes| && p == nodes[at - 1] && n !in repr
      modifies this`tail, this`nodes, this`contents, this`repr, repr, n
      ensures Valid() && repr == old(repr) + {n} && nodes != []
      ensures contents == Put(old(contents), at, old(n.Value()))
    {
      ghost var ns, vs := nodes, contents;
      SetLinksAfter(p, n, at);
      PutLinked(ns, vs, at, n, repr);
      nodes, contents, repr := Put(ns, at, n), Put(vs, at, n.Value()), repr + {n};
    }

    /** The first part of add(). */
    method InsertSegment(startseq: int, endseq: int, flags: set<nat>)
      requires Valid()
      modifies this`head, this`tail, this`nodes, this`contents, this`repr, repr
      ensures Valid() && nodes != [] && fresh(repr - old(repr))
      ensures contents == Insert(old(contents), Seg(startseq, endseq, flags))
    {
      var n := new SegInfo(startseq, endseq, flags);
      if head == null {
        head, tail := n, n;
        n.next, n.prev := null, null;
        nodes, contents, repr := [n], [n.Value()], repr + {n};
        assert NodeOk(nodes, contents, 0);
      } else {
        NodeFacts(|nodes| - 1);
        if tail.endseq <= startseq {
          LinkAfter(tail, n, |nodes|);
        } else {
          InsertBefore(n);
        }
      }
    }

    /** The slow way: the list is searched for the place. */
    method InsertBefore(n: SegInfo)
      requires Valid() && nodes != [] && n !in repr && contents[|contents| - 1].endseq > n.startseq
      modifies this`head, this`tail, this`nodes, this`contents, this`repr, repr, n
      ensures Valid() && nodes != [] && repr == old(repr) + {n}
      ensures contents == Insert(old(contents), old(n.Value()))
    {
      var q := FindAfter(n.endseq);
      ghost var k := FirstFrom(contents, n.endseq);
      assert k == Place(contents, n.Value());
      if k < |nodes| { NodeFacts(k); }
      var p := if q == null then tail else q.prev;
      if p == null { LinkAtHead(n); } else { LinkAfter(p, n, k); }
    }

    /** The pointers that take node k out. */
    method ClearLinks(q: SegInfo, ghost k: nat)
      requires Valid() && k < |nodes| && q == nodes[k]
      modifies this`head, this`tail, repr
      ensures nodes == old(nodes) && contents == old(contents) && repr == old(repr)
      ensures forall i :: 0 <= i < |nodes| && i != k ==> Closed(nodes, contents, k, i)
      ensures q.next == After(nodes, k) && q.Value() == old(q.Value())
      ensures head == (if k == 0 then After(nodes, k) else old(head))
      ensures tail == if k + 1 == |nodes| then Before(nodes, k) else old(tail)
    {
      NodeFacts(k);
      if q.prev != null { q.prev.next := q.next; } else { head := q.next; }
      if q.next != null { q.next.prev := q.prev; } else { tail := q.prev; }
      forall i | 0 <= i < |nodes| && i != k ensures Closed(nodes, contents, k, i) {
        assert old(NodeOk(nodes, contents, i));
      }
    }

    /** Unlinks segment k. */
    method Unlink(q: SegInfo, ghost k: nat)
      requires Valid() && k < |nodes| && q == nodes[k]
      modifies this`head, this`tail, this`nodes, this`contents, repr
      ensures Valid() && contents == Cut(old(contents), k)
      ensures q.Value() == old(q.Value()) && nodes == Cut(old(nodes), k) && q.next == After(old(nodes), k)
    {
      ghost var ns, vs := nodes, contents;
      ClearLinks(q, k);
      CutLinked(ns, vs, k, repr);
      nodes, contents := Cut(ns, k), Cut(vs, k);
    }

    /** The last part of add(): takes segments off the head up to the first hole. */
    method DrainHead() returns (tiflags: set<nat>)
      requires Valid() && nodes != []
      modifies this`head, this`tail, this`nodes, this`contents, this`rcvNxt, repr
      ensures Valid() && Drained(rcvNxt, contents, tiflags) == Drain(old(contents))
    {
      tiflags := {};
      ghost var all := contents;
      var p := head;
      while p != null
        invariant Valid() && p == head
        invariant if p != null then Remaining(all, contents, tiflags) else Drain(all) == Drained(rcvNxt, contents, tiflags)
        decreases |nodes|
      {
        DrainStep(all, contents, tiflags);
        NodeFacts(0);
        rcvNxt := p.endseq;
        tiflags := tiflags + p.flags;
        var q := p;
        Unlink(q, 0);
        if nodes != [] { NodeFacts(0); }
        if q.next != null && q.endseq < q.next.startseq { break; }
        p := p.next;
      }
    }

    /** add(). */
    method AddSegment(startseq: int, endseq: int, flags: set<nat>) returns (tiflags: set<nat>)
      requires Valid()
      modifies this, repr
      ensures Valid() && fresh(repr - old(repr))
      ensures Drained(rcvNxt, contents, tiflags) == Add(old(rcvNxt), old(contents), Seg(startseq, endseq, flags))
    {
      InsertSegment(startseq, endseq, flags);
      NodeFacts(0);
      if head.startseq > rcvNxt { return {}; }
      tiflags := DrainHead();
    }

    /** clear(). */
    method Clear()
      requires Valid()
      modifies this`head, this`tail, this`nodes, this`contents
      ensures Valid() && contents == []
    {
      head, tail := null, null;
      nodes, contents := [], [];
    }

    /** The data part of recv(). */
    method ReceiveData(start: int, datalen: int, size: int, flags: set<nat>)
      requires Valid()
      modifies this, repr
      ensures Valid() && fresh(repr - old(repr))
      ensures Receiver(rcvNxt, contents) == RecvData(old(Receiver(rcvNxt, contents)), start, datalen, size, flags)
    {
      if start == rcvNxt && head == null {
        rcvNxt := rcvNxt + datalen;
      } else {
        var tiflags := AddSegment(start, start + size, flags);
      }
    }

    /** The trimming part of recv(), for a segment without FIN. */
    static method Trim(rcvNxt: int, seqno: int, size: nat) returns (todrop: int)
      ensures todrop == Overlap(rcvNxt, seqno, size)
    {
      todrop := rcvNxt - seqno;
      if todrop > 0 {
        if todrop >= size { todrop := size; }
      } else {
        todrop := 0;
      }
    }

    /** The trimming and data part of recv() for a segment without FIN. */
    method Receive(seqno: int, size: nat, flags: set<nat>)
      requires Valid()
      modifies this, repr
      ensures Valid() && fresh(repr - old(repr))
      ensures Receiver(rcvNxt, contents) == Recv(old(Receiver(rcvNxt, contents)), Seg(seqno, seqno + size, flags))
    {
      ghost var r, s := Receiver(rcvNxt, contents), Seg(seqno, seqno + size, flags);
      var todrop := Trim(rcvNxt, seqno, size);
      assert Recv(r, s) == RecvFrom(r, s, todrop);
      if size - todrop > 0 { ReceiveData(seqno + todrop, size - todrop, size, flags); }
    }
  }
}
