/** The loss meter with its holes in the singly linked list that the receiver edits while it scans it and counts what
    was lost. */
module LossMeterList {
  import opened Common
  import opened LossMeter
  import opened SinglyLinked

  lemma {:induction false} RecentWithout(holes: seq<Hole>, k: nat, from: real)
    requires k < |holes| && holes[k].time < from
    ensures Recent(Cut(holes, k), from) == Recent(holes, from)
  {
    if k == 0 {
      assert Cut(holes, 0) == holes[1..];
    } else {
      RecentWithout(holes[1..], k - 1, from);
      assert Cut(holes, k)[0] == holes[0] && Cut(holes, k)[1..] == Cut(holes[1..], k - 1);
    }
  }

  lemma LostAppend(holes: seq<Hole>, k: nat, until: real)
    requires k < |holes|
    ensures Lost(holes[..k + 1], until) == Lost(holes[..k], until) + if holes[k].time < until then Size(holes[k]) else 0
  {
    assert holes[..k + 1][..k] == holes[..k];
  }

  lemma LastRecent(holes: seq<Hole>, from: real)
    requires Chained(holes) && Recent(holes, from) != []
    ensures holes != [] && holes[|holes| - 1].time >= from
  {
    ScanDropsPrefix(holes, from);
    if holes != [] {
      var k := Stale(holes, from);
      assert k < |holes| - 1 ==> holes[k].time <= holes[|holes| - 1].time;
    }
  }

  class Receiver {
    var nextSeq: nat
    var timeMean: real
    var timeVar: real
    var head: Node?<Hole>
    var tail: Node?<Hole>
    ghost var nodes: seq<Node<Hole>>
    ghost var contents: seq<Hole>
    ghost var repr: set<Node<Hole>>
    ghost var clock: real

    ghost function Now(): Meter
      reads this
    {
      Meter(nextSeq, timeMean, timeVar, contents)
    }

    /** The list from head on; the tail may be stale. */
    ghost predicate ListOk()
      reads this, repr, nodes
    {
      && (forall i :: 0 <= i < |nodes| ==> nodes[i] in repr)
      && NoRepeats(nodes) && Linked(nodes, contents)
      && head == if nodes == [] then null else nodes[0]
    }

    /** The tail is the last node, unless the list is empty; then nobody looks at it. */
    ghost predicate Valid()
      reads this, repr, nodes
    {
      ListOk() && MeterOk(Now(), clock) && (nodes != [] ==> tail == nodes[|nodes| - 1])
    }

    lemma NodeFacts(k: nat)
      requires ListOk() && k < |nodes|
      ensures NodeOk(nodes, contents, k) && nodes[k] in repr
    {
    }

    constructor (clock: real)
      ensures Valid() && Now() == NEW_METER && repr == {}
    {
      nextSeq, timeMean, timeVar, head, tail := 0, 0.0, 0.0, null, null;
      nodes, contents, repr, this.clock := [], [], {}, clock;
    }

    method AddHole(hole: Node<Hole>)
      requires ListOk() && hole !in repr && hole.next == null && (nodes != [] ==> tail == nodes[|nodes| - 1])
      modifies this`head, this`tail, this`nodes, this`contents, this`repr, repr
      ensures ListOk() && nodes != [] && tail == nodes[|nodes| - 1] && repr == old(repr) + {hole}
      ensures contents == old(contents) + [hole.value]
    {
      ghost var ns, vs := nodes, contents;
      if nodes != [] { NodeFacts(|nodes| - 1); }
      if head == null {
        head, tail := hole, hole;
      } else {
        tail.next := hole;
        tail := hole;
      }
      forall i | 0 <= i < |ns|
        ensures ns[i].value == vs[i] && ns[i].next == if i + 1 == |ns| then hole else After(ns, i)
      {
        assert old(NodeOk(ns, vs, i));
      }
      AppendLinked(ns, vs, hole, repr);
      nodes, contents, repr := ns + [hole], vs + [hole.value], repr + {hole};
    }

    /** The part of the scan that takes hole k out of the list. */
    method DropHole(cur: Node<Hole>, prev: Node?<Hole>, ghost k: nat) returns (next: Node?<Hole>)
      requires ListOk() && k < |nodes| && cur == nodes[k] && prev == if k > 0 then nodes[k - 1] else null
      modifies this`head, this`nodes, this`contents, repr
      ensures ListOk() && nodes == Cut(old(nodes), k) && contents == Cut(old(contents), k)
      ensures next == if k < |nodes| then nodes[k] else null
    {
      ghost var ns, vs := nodes, contents;
      NodeFacts(k);
      if k > 0 { NodeFacts(k - 1); }
      if prev == null { head := cur.next; } else { prev.next := cur.next; }
      if prev == null { next := head; } else { next := prev.next; }
      forall i | 0 <= i < |ns| && i != k ensures Closed(ns, vs, k, i) { assert old(NodeOk(ns, vs, i)); }
      CutLinked(ns, vs, k, repr);
      nodes, contents := Cut(ns, k), Cut(vs, k);
    }

    /** What the scan has done up to hole k: the rest is still to be looked through. */
    ghost predicate Scanned(all: seq<Hole>, last: Node<Hole>, from: real, until: real, k: nat, lost: int)
      reads this, repr, nodes
      requires all != []
    {
      && ListOk() && k <= |nodes|
      && (forall i :: 0 <= i < k ==> contents[i].time >= from)
      && Recent(contents, from) == Recent(all, from) && lost == Lost(contents[..k], until)
      && (k < |nodes| ==> nodes[|nodes| - 1] == last && contents[|nodes| - 1] == all[|all| - 1])
      && (k == |nodes| && all[|all| - 1].time >= from ==> nodes != [] && nodes[|nodes| - 1] == last)
    }

    lemma KeepScanned(all: seq<Hole>, last: Node<Hole>, from: real, until: real, k: nat, lost: int, lost': int)
      requires all != [] && Scanned(all, last, from, until, k, lost) && k < |nodes| && contents[k].time >= from
      requires lost' == lost + if contents[k].time < until then Size(contents[k]) else 0
      ensures Scanned(all, last, from, until, k + 1, lost')
    {
      LostAppend(contents, k, until);
    }

    lemma ScanDone(all: seq<Hole>, last: Node<Hole>, from: real, until: real, lost: int)
      requires all != [] && Scanned(all, last, from, until, |nodes|, lost)
      ensures contents == Recent(all, from) && lost == Lost(contents, until)
      ensures all[|all| - 1].time >= from ==> nodes != [] && nodes[|nodes| - 1] == last
    {
      AllRecent(contents, from);
      assert contents[..|nodes|] == contents;
    }

    method DropScanned(cur: Node<Hole>, prev: Node?<Hole>, ghost all: seq<Hole>, ghost last: Node<Hole>,
                       from: real, ghost until: real, ghost k: nat, ghost lost: int) returns (next: Node?<Hole>)
      requires all != [] && Scanned(all, last, from, until, k, lost) && k < |nodes| && contents[k].time < from
      requires cur == nodes[k] && prev == if k > 0 then nodes[k - 1] else null
      modifies this`head, this`nodes, this`contents, repr
      ensures Scanned(all, last, from, until, k, lost) && |nodes| == old(|nodes|) - 1 && repr == old(repr)
      ensures next == (if k < |nodes| then nodes[k] else null) && (k > 0 ==> nodes[k - 1] == old(nodes[k - 1]))
    {
      ghost var before := contents;
      RecentWithout(contents, k, from);
      next := DropHole(cur, prev, k);
      assert contents[..k] == before[..k];
    }

    /** The scan of the list: holes older than from are dropped, the packets in those older than until counted. */
    method Scan(from: real, until: real) returns (lost: int)
      requires ListOk() && nodes != []
      modifies this`head, this`nodes, this`contents, repr
      ensures ListOk() && contents == Recent(old(contents), from) && lost == Lost(contents, until)
      ensures old(contents[|contents| - 1]).time >= from ==> nodes != [] && nodes[|nodes| - 1] == old(nodes[|nodes| - 1])
    {
      ghost var all, last := contents, nodes[|nodes| - 1];
      var cur, prev: Node?<Hole> := head, null;
      ghost var k := 0;
      lost := 0;
      while cur != null
        invariant Scanned(all, last, from, until, k, lost)
        invariant cur == (if k < |nodes| then nodes[k] else null) && prev == if k > 0 then nodes[k - 1] else null
        decreases |nodes| - k
      {
        NodeFacts(k);
        if cur.value.time < from {
          cur := DropScanned(cur, prev, all, last, from, until, k, lost);
        } else {
          ghost var before := lost;
          if cur.value.time < until { lost := lost + cur.value.last - cur.value.first + 1; }
          KeepScanned(all, last, from, until, k, before, lost);
          prev, cur, k := cur, cur.next, k + 1;
        }
      }
      ScanDone(all, last, from, until, lost);
    }

    /** The sequence-number part of lossMeter. */
    method NoteSeqno(a: Arrival)
      requires Valid() && InOrder(nextSeq, a) && clock <= a.now
      modifies this, repr
      ensures ListOk() && fresh(repr - old(repr)) && (nodes != [] ==> tail == nodes[|nodes| - 1])
      ensures Now() == Meter(a.seqno + 1, old(timeMean), old(timeVar), old(contents) + NewHole(old(nextSeq), a))
      ensures clock == old(clock)
    {
      if nextSeq == 0 {
        nextSeq := a.seqno + 1;
      } else if a.seqno == nextSeq {
        nextSeq := nextSeq + 1;
      } else {
        assert a.seqno > nextSeq;
        var hole := new Node<Hole>(Hole(nextSeq, a.seqno - 1, a.now));
        AddHole(hole);
        nextSeq := a.seqno + 1;
      }
    }

    /** The running mean and variance of the time differences. */
    static method Smooth(timeMean: real, timeVar: real, timeDiff: real) returns (mean: real, variance: real)
      ensures mean == if timeMean == 0.0 then timeDiff else (7.0 * timeMean + timeDiff) / 8.0
      ensures variance == (7.0 * timeVar + Abs(timeDiff - mean)) / 8.0
    {
      if timeMean == 0.0 { mean := timeDiff; } else { mean := (7.0 * timeMean + timeDiff) / 8.0; }
      var diff := timeDiff - mean;
      if diff < 0.0 { diff := -diff; }
      variance := (7.0 * timeVar + diff) / 8.0;
    }

    static method Threshold(lost: int, a: Arrival) returns (signal: Signal)
      ensures signal == SignalOf(lost, Pps(a))
    {
      var pps := if a.ipg != 0.0 then a.maxrtt / a.ipg else 0.0;
      if pps * LOSSCONGTH as real / 100.0 < 2.0 { pps := (200 / LOSSCONGTH) as real; }
      if lost as real <= LOSSLOADTH as real * pps / 100.0 { signal := Unloaded; }
      else if lost as real <= LOSSCONGTH as real * pps / 100.0 { signal := Loaded; }
      else { signal := Congested; }
    }

    /** The scan keeps the tail right because holes are in the order of time. */
    method ScanOrdered(from: real, until: real) returns (lost: int)
      requires ListOk() && nodes != [] && tail == nodes[|nodes| - 1] && Chained(contents)
      modifies this`head, this`nodes, this`contents, repr
      ensures ListOk() && contents == Recent(old(contents), from) && lost == Lost(contents, until)
      ensures nodes != [] ==> tail == nodes[|nodes| - 1]
    {
      ghost var all := contents;
      lost := Scan(from, until);
      if nodes != [] { LastRecent(all, from); }
    }

    /** The time part of lossMeter. */
    method UpdateTimes(a: Arrival)
      requires ListOk()
      modifies this`timeMean, this`timeVar, this`clock
      ensures ListOk() && clock == a.now
      ensures var m := old(Now());
              Now() == Meter(m.nextSeq, Mean(m, a), Variance(m, a), m.holes)
    {
      timeMean, timeVar := Smooth(timeMean, timeVar, a.timeDiff);
      clock := a.now;
    }

    /** The first part of lossMeter: the hole, if there is one, and the times. */
    method Note(a: Arrival)
      requires Valid() && InOrder(nextSeq, a) && clock <= a.now
      modifies this, repr
      ensures ListOk() && fresh(repr - old(repr)) && (nodes != [] ==> tail == nodes[|nodes| - 1]) && clock == a.now
      ensures var m := old(Now());
              Now() == Meter(a.seqno + 1, Mean(m, a), Variance(m, a), m.holes + NewHole(m.nextSeq, a))
    {
      NoteSeqno(a);
      UpdateTimes(a);
    }

    /** The scan with the window of this arrival. */
    method ScanWindow(a: Arrival, ghost m: Meter) returns (lost: int)
      requires ListOk() && (nodes != [] ==> tail == nodes[|nodes| - 1]) && InOrder(m.nextSeq, a) && Chained(contents)
      requires timeVar == Variance(m, a) && contents == m.holes + NewHole(m.nextSeq, a)
      modifies this`head, this`nodes, this`contents, repr
      ensures ListOk() && (nodes != [] ==> tail == nodes[|nodes| - 1])
      ensures contents == Update(m, a).holes && lost == Lost(contents, ValidEnd(m, a))
    {
      if head == null { return 0; }
      var validEnd := a.now - 2.0 * timeVar;
      var validStart := validEnd - a.maxrtt;
      lost := ScanOrdered(validStart, validEnd);
    }

    /** The last part of lossMeter. */
    method CountLosses(a: Arrival, ghost m: Meter) returns (signal: Signal)
      requires ListOk() && (nodes != [] ==> tail == nodes[|nodes| - 1]) && clock == a.now && InOrder(m.nextSeq, a)
      requires Now() == Meter(a.seqno + 1, Mean(m, a), Variance(m, a), m.holes + NewHole(m.nextSeq, a))
      requires Chained(contents) && MeterOk(Update(m, a), a.now)
      modifies this`head, this`nodes, this`contents, repr
      ensures Valid() && Now() == Update(m, a) && signal == Judge(m, a)
    {
      var empty := head == null;
      var lost := ScanWindow(a, m);
      assert Now() == Update(m, a);
      if empty { signal := Unloaded; } else { signal := Threshold(lost, a); }
    }

    /** lossMeter. */
    method Measure(a: Arrival) returns (signal: Signal)
      requires Valid() && InOrder(nextSeq, a) && clock <= a.now
      modifies this, repr
      ensures Valid() && fresh(repr - old(repr)) && clock == a.now
      ensures Now() == Update(old(Now()), a) && signal == Judge(old(Now()), a)
    {
      ghost var m := Now();
      UpdateOk(m, a, clock);
      AppendChained(contents, nextSeq, a, clock);
      Note(a);
      signal := CountLosses(a, m);
    }
  }
}
