/** The path list of one AOMDV routing-table entry, as the linked list that its methods search and update in place. */
module AomdvRtable {
  import opened Common
  import opened Aomdv
  import L = SinglyLinked

  lemma {:induction false} PurgeSkips(a: seq<Path>, p: Path, b: seq<Path>, now: real)
    requires p.expire < now
    ensures PathPurge(a + [p] + b, now) == PathPurge(a + b, now)
  {
    if a == [] {
      assert [p] + b == a + [p] + b && a + b == b;
      assert ([p] + b)[1..] == b;
    } else {
      PurgeSkips(a[1..], p, b, now);
      assert (a + [p] + b)[1..] == a[1..] + [p] + b && (a + b)[1..] == a[1..] + b;
    }
  }

  lemma {:induction false} PurgeDone(ps: seq<Path>, now: real)
    requires forall k :: 0 <= k < |ps| ==> ps[k].expire >= now
    ensures PathPurge(ps, now) == ps
  {
    if ps != [] { PurgeDone(ps[1..], now); }
  }

  /** The hop count to advertise is that of the longest path. */
  lemma {:induction false} MaxCountAttained(ps: seq<Path>)
    ensures forall k :: 0 <= k < |ps| ==> ps[k].hopcount <= MaxCount(ps)
    ensures MaxCount(ps) != 0 ==> exists k :: 0 <= k < |ps| && ps[k].hopcount == MaxCount(ps)
  {
    if ps != [] {
      MaxCountAttained(ps[1..]);
      if MaxCount(ps) == ps[0].hopcount {
      } else {
        var k :| 0 <= k < |ps[1..]| && ps[1..][k].hopcount == MaxCount(ps[1..]);
        assert ps[k + 1].hopcount == MaxCount(ps);
      }
    }
  }

  /** The length of new paths is compared with that of the shortest one. */
  lemma {:induction false} MinHopcountLeast(ps: seq<Path>)
    ensures MinHopcount(ps).Infinite? <==> ps == []
    ensures forall k :: 0 <= k < |ps| ==> MinHopcount(ps).n <= ps[k].hopcount
    ensures ps != [] ==> exists k :: 0 <= k < |ps| && ps[k].hopcount == MinHopcount(ps).n
  {
    if ps != [] {
      MinHopcountLeast(ps[1..]);
      if ps[1..] != [] {
        var j :| 0 <= j < |ps[1..]| && ps[1..][j].hopcount == MinHopcount(ps[1..]).n;
        assert ps[j + 1].hopcount == MinHopcount(ps[1..]).n;
      }
      forall k | 0 <= k < |ps| ensures MinHopcount(ps).n <= ps[k].hopcount {
        if k > 0 { assert ps[1..][k - 1] == ps[k]; }
      }
    }
  }

  lemma {:induction false} PurgeCut(ps: seq<Path>, k: nat, now: real)
    requires k < |ps| && ps[k].expire < now
    ensures PathPurge(Cut(ps, k), now) == PathPurge(ps, now)
  {
    assert ps == ps[..k] + [ps[k]] + ps[k + 1..];
    PurgeSkips(ps[..k], ps[k], ps[k + 1..], now);
  }

  /** The nodes of the list from head on, and the paths in them. */
  class PathList {
    var head: L.Node?<Path>
    var numPaths: int
    ghost var nodes: seq<L.Node<Path>>
    ghost var paths: seq<Path>
    ghost var repr: set<L.Node<Path>>

    ghost predicate Valid()
      reads this, repr, nodes
    {
      && (forall i :: 0 <= i < |nodes| ==> nodes[i] in repr)
      && NoRepeats(nodes) && L.Linked(nodes, paths)
      && head == (if nodes == [] then null else nodes[0])
      && numPaths == |nodes|
    }

    lemma NodeFacts(k: nat)
      requires Valid() && k < |nodes|
      ensures L.NodeOk(nodes, paths, k) && nodes[k] in repr
    {
    }

    /** The node at place k, or null at the end of the list. */
    ghost function At(k: nat): L.Node?<Path>
      reads this
    {
      if k < |nodes| then nodes[k] else null
    }

    constructor ()
      ensures Valid() && paths == [] && repr == {}
    {
      head, numPaths, nodes, paths, repr := null, 0, [], [], {};
    }

    method Last() returns (p: L.Node<Path>)
      requires Valid() && nodes != []
      ensures p == nodes[|nodes| - 1] && p in repr
    {
      p := head;
      ghost var k := 0;
      NodeFacts(0);
      while p.next != null
        invariant k < |nodes| && p == nodes[k] && L.NodeOk(nodes, paths, k)
        decreases |nodes| - k
      {
        p, k := p.next, k + 1;
        NodeFacts(k);
      }
      NodeFacts(k);
    }

    /** path_insert: the new path goes to the end of the list. */
    method Insert(nexthop: Addr, hopcount: nat, expire: real, lasthop: Addr) returns (path: L.Node<Path>)
      requires Valid()
      modifies this, repr
      ensures Valid() && fresh(path) && repr == old(repr) + {path} && nodes == old(nodes) + [path]
      ensures paths == old(paths) + [Path(nexthop, hopcount, expire, lasthop)]
    {
      path := new L.Node(Path(nexthop, hopcount, expire, lasthop));
      ghost var ns, vs := nodes, paths;
      if head != null {
        var p := Last();
        p.next := path;
      } else {
        head := path;
      }
      forall i | 0 <= i < |ns|
        ensures ns[i].value == vs[i] && ns[i].next == if i + 1 == |ns| then path else L.After(ns, i)
      {
        assert old(L.NodeOk(ns, vs, i));
      }
      L.AppendLinked(ns, vs, path, repr);
      numPaths := numPaths + 1;
      nodes, paths, repr := ns + [path], vs + [path.value], repr + {path};
    }

    /** path_lookup. */
    method Lookup(id: Addr) returns (p: L.Node?<Path>)
      requires Valid()
      ensures p == At(PathLookup(paths, id))
    {
      p := head;
      ghost var k := 0;
      while p != null
        invariant k <= |nodes| && p == At(k) && forall i :: 0 <= i < k ==> paths[i].nexthop != id
        decreases |nodes| - k
      {
        NodeFacts(k);
        if p.value.nexthop == id { return; }
        p, k := p.next, k + 1;
      }
    }

    method LookupLasthop(id: Addr) returns (p: L.Node?<Path>)
      requires Valid()
      ensures p == At(LasthopLookup(paths, id))
    {
      p := head;
      ghost var k := 0;
      while p != null
        invariant k <= |nodes| && p == At(k) && forall i :: 0 <= i < k ==> paths[i].lasthop != id
        decreases |nodes| - k
      {
        NodeFacts(k);
        if p.value.lasthop == id { return; }
        p, k := p.next, k + 1;
      }
    }

    method LookupDisjoint(nexthop: Addr, lasthop: Addr) returns (p: L.Node?<Path>)
      requires Valid()
      ensures p == At(DisjointLookup(paths, nexthop, lasthop))
    {
      p := head;
      ghost var k := 0;
      while p != null
        invariant k <= |nodes| && p == At(k)
        invariant forall i :: 0 <= i < k ==> !(paths[i].nexthop == nexthop && paths[i].lasthop == lasthop)
        decreases |nodes| - k
      {
        NodeFacts(k);
        if p.value.nexthop == nexthop && p.value.lasthop == lasthop { return; }
        p, k := p.next, k + 1;
      }
    }

    /** new_disjoint_path. */
    method IsNewDisjoint(nexthop: Addr, lasthop: Addr) returns (isNew: bool)
      requires Valid()
      ensures isNew == NewDisjoint(paths, nexthop, lasthop)
    {
      var p := head;
      ghost var k := 0;
      while p != null
        invariant k <= |nodes| && p == At(k)
        invariant forall i :: 0 <= i < k ==> paths[i].nexthop != nexthop && paths[i].lasthop != lasthop
        decreases |nodes| - k
      {
        NodeFacts(k);
        if p.value.nexthop == nexthop || p.value.lasthop == lasthop { return false; }
        p, k := p.next, k + 1;
      }
      return true;
    }

    /** LIST_REMOVE, where prev is what points to path. */
    method LinkOut(path: L.Node<Path>, prev: L.Node?<Path>, ghost k: nat)
      requires Valid() && k < |nodes| && path == nodes[k] && prev == if k > 0 then nodes[k - 1] else null
      modifies this`head, repr
      ensures nodes == old(nodes) && paths == old(paths) && repr == old(repr)
      ensures forall i :: 0 <= i < |nodes| && i != k ==> L.Closed(nodes, paths, k, i)
      ensures head == if k > 0 then old(head) else L.After(nodes, 0)
    {
      NodeFacts(k);
      if k > 0 { NodeFacts(k - 1); }
      if prev == null { head := path.next; } else { prev.next := path.next; }
      forall i | 0 <= i < |nodes| && i != k ensures L.Closed(nodes, paths, k, i) {
        assert old(L.NodeOk(nodes, paths, i));
      }
    }

    method Remove(path: L.Node<Path>, prev: L.Node?<Path>, ghost k: nat)
      requires Valid() && k < |nodes| && path == nodes[k] && prev == if k > 0 then nodes[k - 1] else null
      modifies this`head, this`numPaths, this`nodes, this`paths, repr
      ensures Valid() && nodes == Cut(old(nodes), k) && paths == Cut(old(paths), k)
    {
      ghost var ns, vs := nodes, paths;
      LinkOut(path, prev, k);
      L.CutLinked(ns, vs, k, repr);
      nodes, paths := Cut(ns, k), Cut(vs, k);
      numPaths := numPaths - 1;
    }

    /** path_delete(id): the first path through id. */
    method Delete(id: Addr)
      requires Valid()
      modifies this`head, this`numPaths, this`nodes, this`paths, repr
      ensures Valid() && paths == PathDelete(old(paths), id)
    {
      var path, prev: L.Node?<Path> := head, null;
      ghost var k := 0;
      while path != null
        invariant Valid() && nodes == old(nodes) && paths == old(paths) && repr == old(repr)
        invariant k <= |nodes| && path == At(k) && prev == if k > 0 then nodes[k - 1] else null
        invariant forall i :: 0 <= i < k ==> paths[i].nexthop != id
        decreases |nodes| - k
      {
        NodeFacts(k);
        if path.value.nexthop == id {
          assert k == PathLookup(paths, id);
          Remove(path, prev, k);
          return;
        }
        path, prev, k := path.next, path, k + 1;
      }
    }

    /** path_delete(): all paths. */
    method Clear()
      requires Valid()
      modifies this`head, this`numPaths, this`nodes, this`paths, repr
      ensures Valid() && paths == []
    {
      while head != null
        invariant Valid()
        decreases |nodes|
      {
        Remove(head, null, 0);
      }
      numPaths := 0;
    }

    /** path_empty: its assertions hold. */
    method IsEmpty() returns (empty: bool)
      requires Valid()
      ensures empty == (paths == [])
    {
      if head != null {
        assert numPaths > 0;
        return false;
      } else {
        assert numPaths == 0;
        return true;
      }
    }

    method GetMaxHopcount() returns (h: Hops)
      requires Valid()
      ensures h == MaxHopcount(paths)
    {
      var most, p := 0, head;
      ghost var k := 0;
      while p != null
        invariant k <= |nodes| && p == At(k)
        invariant most >= 0 && forall i :: 0 <= i < k ==> paths[i].hopcount <= most
        invariant most == 0 || exists i :: 0 <= i < k && paths[i].hopcount == most
        decreases |nodes| - k
      {
        NodeFacts(k);
        if p.value.hopcount > most { most := p.value.hopcount; }
        p, k := p.next, k + 1;
      }
      MaxCountAttained(paths);
      h := if most == 0 then Infinite else Finite(most);
    }

    method GetMinHopcount() returns (h: Hops)
      requires Valid()
      ensures h == MinHopcount(paths)
    {
      h := Infinite;
      var p := head;
      ghost var k := 0;
      while p != null
        invariant k <= |nodes| && p == At(k) && (h.Infinite? <==> k == 0)
        invariant forall i :: 0 <= i < k ==> h.n <= paths[i].hopcount
        invariant k > 0 ==> exists i :: 0 <= i < k && paths[i].hopcount == h.n
        decreases |nodes| - k
      {
        NodeFacts(k);
        if Fewer(Finite(p.value.hopcount), h) { h := Finite(p.value.hopcount); }
        p, k := p.next, k + 1;
      }
      MinHopcountLeast(paths);
    }

    /** One scan of path_purge: it takes out the first path that has expired, if there is one. */
    method PurgeFirst(now: real) returns (cond: bool)
      requires Valid()
      modifies this`head, this`numPaths, this`nodes, this`paths, repr
      ensures Valid() && PathPurge(paths, now) == PathPurge(old(paths), now)
      ensures if cond then |paths| < |old(paths)| else paths == old(paths)
      ensures !cond ==> forall i :: 0 <= i < |paths| ==> paths[i].expire >= now
    {
      var path, prev: L.Node?<Path> := head, null;
      ghost var k := 0;
      while path != null
        invariant Valid() && nodes == old(nodes) && paths == old(paths) && repr == old(repr)
        invariant k <= |nodes| && path == At(k) && prev == if k > 0 then nodes[k - 1] else null
        invariant forall i :: 0 <= i < k ==> paths[i].expire >= now
        decreases |nodes| - k
      {
        NodeFacts(k);
        if path.value.expire < now {
          PurgeCut(paths, k, now);
          Remove(path, prev, k);
          return true;
        }
        path, prev, k := path.next, path, k + 1;
      }
      return false;
    }

    /** path_purge: after every deletion the scan starts again at the head. */
    method Purge(now: real)
      requires Valid()
      modifies this`head, this`numPaths, this`nodes, this`paths, repr
      ensures Valid() && paths == PathPurge(old(paths), now)
    {
      var cond := PurgeFirst(now);
      while cond
        invariant Valid() && PathPurge(paths, now) == PathPurge(old(paths), now)
        invariant !cond ==> forall i :: 0 <= i < |paths| ==> paths[i].expire >= now
        decreases |paths|, cond
      {
        cond := PurgeFirst(now);
      }
      PurgeDone(paths, now);
    }
  }
}
