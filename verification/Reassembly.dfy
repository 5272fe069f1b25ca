/** The receive path of the full TCP agent. */
module Reassembly {
  // A linked list of segments waits for the bytes before them.

  import opened Common

  /** The bytes from startseq up to, not including, endseq. */
  datatype Seg = Seg(startseq: int, endseq: int, flags: set<nat>)

  // ---------------------------------------------------------------- the queue as a list of segments

  /** The position of the first segment that starts at or after seq. */
  function FirstFrom(q: seq<Seg>, seqno: int): (i: nat)
    ensures i <= |q|
    ensures i < |q| ==> seqno <= q[i].startseq
    ensures forall k :: 0 <= k < i ==> q[k].startseq < seqno
  {
    if q == [] then 0 else if seqno <= q[0].startseq then 0 else 1 + FirstFrom(q[1..], seqno)
  }

  /** Where add() puts a segment: at the end if it starts there, or before the first one that starts after its end. */
  function Place(q: seq<Seg>, s: Seg): (i: nat)
    ensures i <= |q|
  {
    if q == [] || q[|q| - 1].endseq <= s.startseq then |q| else FirstFrom(q, s.endseq)
  }

  function Insert(q: seq<Seg>, s: Seg): (r: seq<Seg>)
    ensures |r| == |q| + 1
  {
    q[..Place(q, s)] + [s] + q[Place(q, s)..]
  }

  datatype Drained = Drained(nxt: int, rest: seq<Seg>, flags: set<nat>)

  /** Takes segments off the head until one is followed by a hole. */
  function Drain(q: seq<Seg>): Drained
    requires q != []
  {
    if |q| == 1 || q[0].endseq < q[1].startseq then Drained(q[0].endseq, q[1..], q[0].flags)
    else
      var d := Drain(q[1..]);
      Drained(d.nxt, d.rest, q[0].flags + d.flags)
  }

  /** add(): inserts, then drains unless the head still waits. */
  function Add(nxt: int, q: seq<Seg>, s: Seg): Drained {
    var q1 := Insert(q, s);
    if q1[0].startseq > nxt then Drained(nxt, q1, {}) else Drain(q1)
  }

  /** The next byte expected, the queue, and what arrived. */
  datatype Receiver = Receiver(rcvNxt: int, q: seq<Seg>)

  /** How many of the len bytes from start on lie before nxt. */
  function Overlap(nxt: int, start: int, len: int): int {
    if nxt <= start then 0 else if nxt - start >= len then len else nxt - start
  }

  /** The data part of recv: datalen new bytes from start on, in a packet with size bytes of data. */
  function RecvData(r: Receiver, start: int, datalen: int, size: int, flags: set<nat>): Receiver {
    if start == r.rcvNxt && r.q == [] then r.(rcvNxt := r.rcvNxt + datalen)
    else
      var d := Add(r.rcvNxt, r.q, Seg(start, start + size, flags));
      Receiver(d.nxt, d.rest)
  }

  /** A segment less its first todrop bytes; but the queue goes by the size of the whole packet. */
  function RecvFrom(r: Receiver, s: Seg, todrop: int): Receiver {
    var len := s.endseq - s.startseq;
    if len - todrop <= 0 then r else RecvData(r, s.startseq + todrop, len - todrop, len, s.flags)
  }

  /** The trimming and data part of recv, for a segment without FIN: a segment that repeats old bytes loses
      them at the front. */
  function Recv(r: Receiver, s: Seg): Receiver {
    RecvFrom(r, s, Overlap(r.rcvNxt, s.startseq, s.endseq - s.startseq))
  }

  function RecvAll(irs: int, arrived: seq<Seg>): Receiver {
    if arrived == [] then Receiver(irs, []) else Recv(RecvAll(irs, arrived[..|arrived| - 1]), arrived[|arrived| - 1])
  }

  // ---------------------------------------------------------------- segments of one segmentation

  predicate SameBytes(a: Seg, b: Seg) {
    a.startseq == b.startseq && a.endseq == b.endseq
  }

  /** Two segments of one segmentation are the same bytes or share none. */
  predicate Compatible(a: Seg, b: Seg) {
    SameBytes(a, b) || a.endseq <= b.startseq || b.endseq <= a.startseq
  }

  /** Segments with data, from the first byte on, cut in one way. */
  ghost predicate OneCut(irs: int, arrived: seq<Seg>) {
    && (forall a :: a in arrived ==> irs <= a.startseq < a.endseq)
    && (forall a, b :: a in arrived && b in arrived ==> Compatible(a, b))
  }

  predicate Covers(s: Seg, b: int) {
    s.startseq <= b < s.endseq
  }

  ghost predicate Received(arrived: seq<Seg>, b: int) {
    exists a :: a in arrived && Covers(a, b)
  }

  ghost predicate Sorted(q: seq<Seg>) {
    forall i, j :: 0 <= i < j < |q| ==> q[i].startseq <= q[j].startseq
  }

  /** The bytes of s wait in the queue. */
  ghost predicate Waits(q: seq<Seg>, s: Seg) {
    exists a :: a in q && SameBytes(a, s)
  }

  /** The queue holds, in order, arrived segments that are not passed, and perhaps repeats of the last one passed;
      nothing before nxt is missing, and what has arrived is passed or waits. */
  ghost predicate Tracks(irs: int, arrived: seq<Seg>, nxt: int, q: seq<Seg>) {
    && irs <= nxt && Sorted(q)
    && (forall a :: a in q ==> a in arrived && (a.startseq >= nxt || a.endseq == nxt))
    && (forall a {:trigger Waits(q, a)} :: a in arrived ==> a.endseq <= nxt || Waits(q, a))
    && (forall b :: irs <= b < nxt ==> Received(arrived, b))
  }

  /** Between segments, the head of the queue lies beyond the next byte expected. */
  ghost predicate Inv(irs: int, arrived: seq<Seg>, r: Receiver) {
    Tracks(irs, arrived, r.rcvNxt, r.q) && (r.q != [] ==> r.q[0].startseq > r.rcvNxt)
  }

  // ---------------------------------------------------------------- insertion

  lemma InsertParts(q: seq<Seg>, s: Seg)
    ensures Insert(q, s) == q[..Place(q, s)] + [s] + q[Place(q, s)..]
    ensures forall a :: a in Insert(q, s) <==> a == s || a in q
  {
    assert q == q[..Place(q, s)] + q[Place(q, s)..];
  }

  /** A segment goes between those that do not start after it and those that do not start before it. */
  lemma PlaceParts(q: seq<Seg>, s: Seg)
    requires Sorted(q) && s.startseq < s.endseq
    requires forall a :: a in q ==> a.startseq < a.endseq && Compatible(a, s)
    ensures forall k :: 0 <= k < Place(q, s) ==> q[k].startseq <= s.startseq
    ensures forall k :: Place(q, s) <= k < |q| ==> s.startseq <= q[k].startseq
  {
    var p := Place(q, s);
    forall k | 0 <= k < p ensures q[k].startseq <= s.startseq {
      var a := q[k];
      assert a in q;
      if q[|q| - 1].endseq <= s.startseq {
        var z := q[|q| - 1];
        assert z in q && a.startseq <= z.startseq;
      }
    }
    forall k | p <= k < |q| ensures s.startseq <= q[k].startseq {
      assert q[p].startseq <= q[k].startseq;
    }
  }

  lemma JoinSorted(a: seq<Seg>, s: Seg, b: seq<Seg>)
    requires Sorted(a + b)
    requires forall k :: 0 <= k < |a| ==> a[k].startseq <= s.startseq
    requires forall k :: 0 <= k < |b| ==> s.startseq <= b[k].startseq
    ensures Sorted(a + [s] + b)
  {
    var c, d := a + [s] + b, a + b;
    forall i, j | 0 <= i < j < |c| ensures c[i].startseq <= c[j].startseq {
      if i != |a| && j != |a| {
        var i', j' := if i < |a| then i else i - 1, if j < |a| then j else j - 1;
        assert d[i'] == c[i] && d[j'] == c[j];
      }
    }
  }

  lemma InsertSorted(q: seq<Seg>, s: Seg)
    requires Sorted(q) && s.startseq < s.endseq
    requires forall a :: a in q ==> a.startseq < a.endseq && Compatible(a, s)
    ensures Sorted(Insert(q, s))
  {
    var p := Place(q, s);
    PlaceParts(q, s);
    assert q[..p] + q[p..] == q;
    JoinSorted(q[..p], s, q[p..]);
  }

  lemma PrefixCut(irs: int, arrived: seq<Seg>, s: Seg)
    requires OneCut(irs, arrived + [s])
    ensures OneCut(irs, arrived) && irs <= s.startseq < s.endseq
    ensures forall a :: a in arrived ==> Compatible(a, s)
  {
    var a1 := arrived + [s];
    assert s in a1;
    assert forall a :: a in arrived ==> a in a1;
  }

  lemma MoreReceived(arrived: seq<Seg>, s: Seg, b: int)
    requires Received(arrived, b)
    ensures Received(arrived + [s], b)
  {
    var a :| a in arrived && Covers(a, b);
    assert a in arrived + [s];
  }

  /** A segment that has been seen, or one that just moves the next byte on, changes nothing in the queue. */
  lemma ArrivalTracks(irs: int, arrived: seq<Seg>, nxt: int, q: seq<Seg>, s: Seg)
    requires Tracks(irs, arrived, nxt, q) && (s.endseq <= nxt || Waits(q, s))
    ensures Tracks(irs, arrived + [s], nxt, q)
  {
    var a1 := arrived + [s];
    forall b | irs <= b < nxt ensures Received(a1, b) { MoreReceived(arrived, s, b); }
    assert forall a :: a in arrived ==> a in a1;
  }

  lemma InsertTracks(irs: int, arrived: seq<Seg>, nxt: int, q: seq<Seg>, s: Seg)
    requires OneCut(irs, arrived + [s]) && Tracks(irs, arrived, nxt, q) && s.startseq >= nxt
    ensures Tracks(irs, arrived + [s], nxt, Insert(q, s))
  {
    PrefixCut(irs, arrived, s);
    InsertSorted(q, s);
    InsertParts(q, s);
    var a1, q1 := arrived + [s], Insert(q, s);
    forall b | irs <= b < nxt ensures Received(a1, b) { MoreReceived(arrived, s, b); }
    forall a | a in a1 && a.endseq > nxt ensures Waits(q1, a) {
      if a in arrived {
        assert Waits(q, a);
        var w :| w in q && SameBytes(w, a);
        assert w in q1;
      } else {
        assert s in q1 && SameBytes(s, a);
      }
    }
  }

  // ---------------------------------------------------------------- draining

  lemma SortedHead(q: seq<Seg>, a: Seg)
    requires Sorted(q) && a in q
    ensures q[0].startseq <= a.startseq
  {
    var i :| 0 <= i < |q| && q[i] == a;
    if i > 0 { assert q[0].startseq <= q[i].startseq; }
  }

  /** What follows the head repeats it or lies beyond it. */
  lemma BehindHead(irs: int, arrived: seq<Seg>, nxt: int, q: seq<Seg>, a: Seg)
    requires OneCut(irs, arrived) && Tracks(irs, arrived, nxt, q) && q != [] && a in q
    ensures a.startseq >= q[0].endseq || SameBytes(a, q[0])
  {
    var h := q[0];
    assert h in q;
    SortedHead(q, a);
    assert h in arrived && a in arrived;
    assert Compatible(h, a);
  }

  /** One segment taken off the head. */
  lemma TakeTracks(irs: int, arrived: seq<Seg>, nxt: int, q: seq<Seg>)
    requires OneCut(irs, arrived) && Tracks(irs, arrived, nxt, q) && q != [] && q[0].startseq <= nxt
    ensures Tracks(irs, arrived, q[0].endseq, q[1..]) && q[0].endseq >= nxt
  {
    var e, q1 := q[0].endseq, q[1..];
    assert q[0] in q;
    forall a | a in q1 ensures a in arrived && (a.startseq >= e || a.endseq == e) {
      assert a in q;
      BehindHead(irs, arrived, nxt, q, a);
    }
    forall b | irs <= b < e ensures Received(arrived, b) {
      if b >= nxt { assert Covers(q[0], b); }
    }
    forall a | a in arrived && a.endseq > e ensures Waits(q1, a) {
      assert Waits(q, a);
      var w :| w in q && SameBytes(w, a);
      assert w in q1;
    }
  }

  /** Draining stops at the first hole, with nothing missing before it. */
  lemma {:induction false} DrainTracks(irs: int, arrived: seq<Seg>, nxt: int, q: seq<Seg>)
    requires OneCut(irs, arrived) && Tracks(irs, arrived, nxt, q) && q != [] && q[0].startseq <= nxt
    ensures Inv(irs, arrived, Receiver(Drain(q).nxt, Drain(q).rest)) && Drain(q).nxt >= nxt
    decreases |q|
  {
    TakeTracks(irs, arrived, nxt, q);
    if |q| > 1 && q[0].endseq >= q[1].startseq {
      DrainTracks(irs, arrived, q[0].endseq, q[1..]);
    }
  }

  // ---------------------------------------------------------------- runs

  /** No segment of the segmentation has the next byte expected inside. */
  lemma OnCut(irs: int, arrived: seq<Seg>, r: Receiver, s: Seg)
    requires OneCut(irs, arrived + [s]) && Inv(irs, arrived, r)
    ensures s.endseq <= r.rcvNxt || s.startseq >= r.rcvNxt
  {
    PrefixCut(irs, arrived, s);
    if s.startseq < r.rcvNxt < s.endseq {
      LastByte(irs, arrived, r, s);
    }
  }

  lemma WaitsBeyond(irs: int, arrived: seq<Seg>, r: Receiver, a: Seg)
    requires Inv(irs, arrived, r) && Waits(r.q, a)
    ensures a.startseq > r.rcvNxt
  {
    var w :| w in r.q && SameBytes(w, a);
    SortedHead(r.q, w);
  }

  lemma LastByte(irs: int, arrived: seq<Seg>, r: Receiver, s: Seg)
    requires OneCut(irs, arrived) && Inv(irs, arrived, r) && irs <= s.startseq < r.rcvNxt
    requires forall a :: a in arrived ==> Compatible(a, s)
    ensures s.endseq <= r.rcvNxt
  {
    assert Received(arrived, r.rcvNxt - 1);
    var a :| a in arrived && Covers(a, r.rcvNxt - 1);
    if a.endseq > r.rcvNxt { WaitsBeyond(irs, arrived, r, a); }
  }

  /** The short way past an empty queue comes to the same as adding to it. */
  lemma DataAdds(r: Receiver, s: Seg)
    requires s.startseq < s.endseq
    ensures var d, len := Add(r.rcvNxt, r.q, s), s.endseq - s.startseq;
            RecvData(r, s.startseq, len, len, s.flags) == Receiver(d.nxt, d.rest)
  {
    assert Seg(s.startseq, s.startseq + (s.endseq - s.startseq), s.flags) == s;
    if s.startseq == r.rcvNxt && r.q == [] {
      assert Insert([], s) == [s] && [s][1..] == [];
      assert Drain([s]) == Drained(s.endseq, [], s.flags);
    }
  }

  /** A segment from the next byte expected on is added. */
  lemma RecvAdds(r: Receiver, s: Seg)
    requires r.rcvNxt <= s.startseq < s.endseq
    ensures var d := Add(r.rcvNxt, r.q, s); Recv(r, s) == Receiver(d.nxt, d.rest)
  {
    var len, d, r' := s.endseq - s.startseq, Add(r.rcvNxt, r.q, s), Recv(r, s);
    assert r' == RecvFrom(r, s, 0);
    assert r' == RecvData(r, s.startseq, len, len, s.flags);
    DataAdds(r, s);
    assert r' == Receiver(d.nxt, d.rest);
  }

  lemma AddInv(irs: int, arrived: seq<Seg>, r: Receiver, s: Seg)
    requires OneCut(irs, arrived + [s]) && Inv(irs, arrived, r) && r.rcvNxt <= s.startseq
    ensures var d := Add(r.rcvNxt, r.q, s);
            Inv(irs, arrived + [s], Receiver(d.nxt, d.rest)) && d.nxt >= r.rcvNxt
  {
    InsertTracks(irs, arrived, r.rcvNxt, r.q, s);
    var q1 := Insert(r.q, s);
    var d := Add(r.rcvNxt, r.q, s);
    if q1[0].startseq <= r.rcvNxt {
      DrainTracks(irs, arrived + [s], r.rcvNxt, q1);
      assert d == Drain(q1);
    } else {
      assert d == Drained(r.rcvNxt, q1, {});
    }
  }

  lemma RecvInv(irs: int, arrived: seq<Seg>, r: Receiver, s: Seg)
    requires OneCut(irs, arrived + [s]) && Inv(irs, arrived, r)
    ensures Inv(irs, arrived + [s], Recv(r, s)) && Recv(r, s).rcvNxt >= r.rcvNxt
  {
    PrefixCut(irs, arrived, s);
    OnCut(irs, arrived, r, s);
    var r' := Recv(r, s);
    if s.endseq <= r.rcvNxt {
      ArrivalTracks(irs, arrived, r.rcvNxt, r.q, s);
      assert r' == r;
    } else {
      RecvAdds(r, s);
      AddInv(irs, arrived, r, s);
      var d := Add(r.rcvNxt, r.q, s);
      assert r' == Receiver(d.nxt, d.rest);
    }
  }

  lemma {:induction false} RunInv(irs: int, arrived: seq<Seg>)
    requires OneCut(irs, arrived)
    ensures Inv(irs, arrived, RecvAll(irs, arrived))
    decreases |arrived|
  {
    if arrived != [] {
      var before, s := arrived[..|arrived| - 1], arrived[|arrived| - 1];
      assert arrived == before + [s];
      PrefixCut(irs, before, s);
      RunInv(irs, before);
      RecvInv(irs, before, RecvAll(irs, before), s);
    }
  }

  /** However the segments are repeated and reordered, the next byte expected is the first one that has not arrived,
      and the queue holds, in order and beyond it, exactly what has arrived from there on. */
  lemma NextIsFirstMissing(irs: int, arrived: seq<Seg>)
    requires OneCut(irs, arrived)
    ensures var r := RecvAll(irs, arrived);
            && (forall b :: irs <= b < r.rcvNxt ==> Received(arrived, b)) && !Received(arrived, r.rcvNxt)
            && Sorted(r.q) && (forall a :: a in r.q ==> a.startseq > r.rcvNxt && a in arrived)
            && (forall a :: a in arrived ==> a.endseq <= r.rcvNxt || Waits(r.q, a))
  {
    RunInv(irs, arrived);
    var r := RecvAll(irs, arrived);
    forall a | a in r.q ensures a.startseq > r.rcvNxt { SortedHead(r.q, a); }
    forall a | a in arrived && a.endseq > r.rcvNxt ensures !Covers(a, r.rcvNxt) { WaitsBeyond(irs, arrived, r, a); }
  }

  /** The next byte expected never moves back. */
  lemma {:induction false} NeverMovesBack(irs: int, arrived: seq<Seg>, more: seq<Seg>)
    requires OneCut(irs, arrived + more)
    ensures RecvAll(irs, arrived + more).rcvNxt >= RecvAll(irs, arrived).rcvNxt
    decreases |more|
  {
    if more == [] {
      assert arrived + more == arrived;
    } else {
      var before, s := arrived + more[..|more| - 1], more[|more| - 1];
      assert arrived + more == before + [s];
      PrefixCut(irs, before, s);
      NeverMovesBack(irs, arrived, more[..|more| - 1]);
      RunInv(irs, before);
      RecvInv(irs, before, RecvAll(irs, before), s);
      assert (before + [s])[..|before|] == before;
    }
  }

  // ---------------------------------------------------------------- the flags that add() returns

  lemma {:induction false} DrainFlags(q: seq<Seg>)
    requires q != []
    ensures var k := |q| - |Drain(q).rest|;
            && 0 < k <= |q| && Drain(q).rest == q[k..]
            && forall f :: f in Drain(q).flags <==> exists i :: 0 <= i < k && f in q[i].flags
  {
    if !(|q| == 1 || q[0].endseq < q[1].startseq) {
      DrainFlags(q[1..]);
      var k, d := |q| - |Drain(q).rest|, Drain(q[1..]);
      forall f ensures f in Drain(q).flags <==> exists i :: 0 <= i < k && f in q[i].flags {
        if f in d.flags {
          var i :| 0 <= i < k - 1 && f in q[1..][i].flags;
          assert f in q[i + 1].flags;
        }
        if i :| 0 < i < k && f in q[i].flags { assert q[1..][i - 1] == q[i]; }
      }
    }
  }

  /** What add() leaves in the queue is the rest of the list with the new segment in it, and a flag is returned exactly
      when a segment that this call takes off carries it: none while the head still waits. */
  lemma AddFlags(nxt: int, q: seq<Seg>, s: Seg)
    ensures var d, all := Add(nxt, q, s), Insert(q, s);
            var k := |all| - |d.rest|;
            && multiset(all) == multiset(q) + multiset{s}
            && 0 <= k <= |all| && d.rest == all[k..]
            && (k == 0 <==> all[0].startseq > nxt)
            && forall f :: f in d.flags <==> exists i :: 0 <= i < k && f in all[i].flags
  {
    var all := Insert(q, s);
    assert q == q[..Place(q, s)] + q[Place(q, s)..];
    if all[0].startseq <= nxt { DrainFlags(all); }
  }
}
