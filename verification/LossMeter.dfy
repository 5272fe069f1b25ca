/** The loss meter of the IVS receiver. */
module LossMeter {
  // Gaps in the sequence numbers are kept as holes, and the packets lost in a window of time are counted from them.

  import opened Common

  /** The packets from first to last were missing when a later one arrived at this time. */
  datatype Hole = Hole(first: int, last: int, time: real)

  datatype Signal = Unloaded | Loaded | Congested

  datatype Meter = Meter(nextSeq: nat, timeMean: real, timeVar: real, holes: seq<Hole>)

  /** A packet, when it arrives, with the current estimate of the time between packets. */
  datatype Arrival = Arrival(now: real, timeDiff: real, seqno: nat, maxrtt: real, ipg: real)

  const NEW_METER := Meter(0, 0.0, 0.0, [])
  const LOSSCONGTH := 15
  const LOSSLOADTH := 5

  function Size(h: Hole): int {
    h.last - h.first + 1
  }

  function TotalSize(holes: seq<Hole>): int {
    if holes == [] then 0 else TotalSize(holes[..|holes| - 1]) + Size(holes[|holes| - 1])
  }

  /** The hole that an arrival shows, if any. */
  function NewHole(nextSeq: nat, a: Arrival): seq<Hole> {
    if nextSeq != 0 && a.seqno > nextSeq then [Hole(nextSeq, a.seqno - 1, a.now)] else []
  }

  /** Sequence numbers must not go backward; the program aborts when they do. */
  predicate InOrder(nextSeq: nat, a: Arrival) {
    nextSeq == 0 || a.seqno >= nextSeq
  }

  function Abs(x: real): real {
    if x < 0.0 then -x else x
  }

  function Mean(m: Meter, a: Arrival): real {
    if m.timeMean == 0.0 then a.timeDiff else (7.0 * m.timeMean + a.timeDiff) / 8.0
  }

  function Variance(m: Meter, a: Arrival): real {
    (7.0 * m.timeVar + Abs(a.timeDiff - Mean(m, a))) / 8.0
  }

  function ValidEnd(m: Meter, a: Arrival): real {
    a.now - 2.0 * Variance(m, a)
  }

  function ValidStart(m: Meter, a: Arrival): real {
    ValidEnd(m, a) - a.maxrtt
  }

  /** The holes that are not older than from, in their old order. */
  function Recent(holes: seq<Hole>, from: real): (r: seq<Hole>)
    ensures |r| <= |holes|
  {
    if holes == [] then []
    else if holes[0].time < from then Recent(holes[1..], from)
    else [holes[0]] + Recent(holes[1..], from)
  }

  /** The packets in holes older than until. */
  function Lost(holes: seq<Hole>, until: real): int {
    if holes == [] then 0
    else Lost(holes[..|holes| - 1], until) + if holes[|holes| - 1].time < until then Size(holes[|holes| - 1]) else 0
  }

  /** The packets per round trip that the thresholds are taken from; 200 / 15 is an integer division. */
  function Pps(a: Arrival): real {
    var pps := if a.ipg != 0.0 then a.maxrtt / a.ipg else 0.0;
    if pps * LOSSCONGTH as real / 100.0 < 2.0 then (200 / LOSSCONGTH) as real else pps
  }

  function SignalOf(lost: int, pps: real): Signal {
    if lost as real <= LOSSLOADTH as real * pps / 100.0 then Unloaded
    else if lost as real <= LOSSCONGTH as real * pps / 100.0 then Loaded
    else Congested
  }

  /** The meter after an arrival, and the signal that it gives. */
  function Update(m: Meter, a: Arrival): Meter
    requires InOrder(m.nextSeq, a)
  {
    Meter(a.seqno + 1, Mean(m, a), Variance(m, a), Recent(m.holes + NewHole(m.nextSeq, a), ValidStart(m, a)))
  }

  function Judge(m: Meter, a: Arrival): Signal
    requires InOrder(m.nextSeq, a)
  {
    if m.holes + NewHole(m.nextSeq, a) == [] then Unloaded
    else SignalOf(Lost(Update(m, a).holes, ValidEnd(m, a)), Pps(a))
  }

  // ---------------------------------------------------------------- runs

  ghost predicate Run(run: seq<Meter>, arrivals: seq<Arrival>) {
    && |run| == |arrivals| + 1 && run[0] == NEW_METER
    && (forall i :: 0 <= i < |arrivals| ==>
          InOrder(run[i].nextSeq, arrivals[i]) && run[i + 1] == Update(run[i], arrivals[i]))
    && (forall i, j :: 0 <= i < j < |arrivals| ==> arrivals[i].now <= arrivals[j].now)
  }

  /** All holes that have shown so far. */
  function Created(run: seq<Meter>, arrivals: seq<Arrival>, i: nat): seq<Hole>
    requires i <= |arrivals| < |run|
  {
    if i == 0 then [] else Created(run, arrivals, i - 1) + NewHole(run[i - 1].nextSeq, arrivals[i - 1])
  }

  /** Holes do not overlap, and later ones have later numbers and times. */
  ghost predicate Chained(holes: seq<Hole>) {
    && (forall i :: 0 <= i < |holes| ==> holes[i].first <= holes[i].last)
    && (forall i, j :: 0 <= i < j < |holes| ==> holes[i].last < holes[j].first && holes[i].time <= holes[j].time)
  }

  ghost predicate Before(holes: seq<Hole>, nextSeq: nat, now: real) {
    forall i :: 0 <= i < |holes| ==> holes[i].last < nextSeq && holes[i].time <= now
  }

  /** How many holes at the head are older than from. */
  function Stale(holes: seq<Hole>, from: real): (k: nat)
    ensures k <= |holes|
    ensures forall i :: 0 <= i < k ==> holes[i].time < from
    ensures k < |holes| ==> holes[k].time >= from
  {
    if holes == [] || holes[0].time >= from then 0 else 1 + Stale(holes[1..], from)
  }

  lemma {:induction false} AllRecent(holes: seq<Hole>, from: real)
    requires forall i :: 0 <= i < |holes| ==> holes[i].time >= from
    ensures Recent(holes, from) == holes
  {
    if holes != [] { AllRecent(holes[1..], from); }
  }

  lemma ChainedRest(holes: seq<Hole>, k: nat)
    requires Chained(holes) && k <= |holes|
    ensures Chained(holes[k..])
  {
    var rest := holes[k..];
    forall i, j | 0 <= i < j < |rest| ensures rest[i].last < rest[j].first && rest[i].time <= rest[j].time {
      assert rest[i] == holes[k + i] && rest[j] == holes[k + j];
    }
  }

  /** Each scan drops a prefix of the list and nothing else. */
  lemma {:induction false} ScanDropsPrefix(holes: seq<Hole>, from: real)
    requires Chained(holes)
    ensures Recent(holes, from) == holes[Stale(holes, from)..]
  {
    if holes != [] {
      ChainedRest(holes, 1);
      ScanDropsPrefix(holes[1..], from);
      if holes[0].time >= from {
        forall i | 0 <= i < |holes| ensures holes[i].time >= from { assert i > 0 ==> holes[0].time <= holes[i].time; }
        AllRecent(holes, from);
        assert holes[0..] == holes;
      } else {
        assert holes[1 + Stale(holes[1..], from)..] == holes[1..][Stale(holes[1..], from)..];
      }
    }
  }

  ghost predicate MeterOk(m: Meter, now: real) {
    Chained(m.holes) && Before(m.holes, m.nextSeq, now) && (m.nextSeq == 0 ==> m.holes == [])
  }

  lemma AppendChained(holes: seq<Hole>, nextSeq: nat, a: Arrival, now: real)
    requires Chained(holes) && Before(holes, nextSeq, now) && now <= a.now && InOrder(nextSeq, a)
    requires nextSeq == 0 ==> holes == []
    ensures Chained(holes + NewHole(nextSeq, a)) && Before(holes + NewHole(nextSeq, a), a.seqno + 1, a.now)
  {
  }

  lemma UpdateOk(m: Meter, a: Arrival, now: real)
    requires MeterOk(m, now) && now <= a.now && InOrder(m.nextSeq, a)
    ensures MeterOk(Update(m, a), a.now)
  {
    var holes := m.holes + NewHole(m.nextSeq, a);
    AppendChained(m.holes, m.nextSeq, a, now);
    ScanDropsPrefix(holes, ValidStart(m, a));
    ChainedRest(holes, Stale(holes, ValidStart(m, a)));
  }

  /** In every run the holes stay disjoint, in the order of numbers and of times, and behind the next number. */
  lemma {:induction false} HolesInOrder(run: seq<Meter>, arrivals: seq<Arrival>, i: nat)
    requires Run(run, arrivals) && 0 < i <= |arrivals|
    ensures MeterOk(run[i], arrivals[i - 1].now)
  {
    assert run[i - 1 + 1] == Update(run[i - 1], arrivals[i - 1]);
    if i == 1 {
      UpdateOk(run[0], arrivals[0], arrivals[0].now);
    } else {
      HolesInOrder(run, arrivals, i - 1);
      UpdateOk(run[i - 1], arrivals[i - 1], arrivals[i - 2].now);
    }
  }

  lemma TotalAppend(holes: seq<Hole>, more: seq<Hole>)
    requires |more| <= 1
    ensures TotalSize(holes + more) == TotalSize(holes) + if more == [] then 0 else Size(more[0])
  {
    if more == [] { assert holes + more == holes; } else { assert (holes + more)[..|holes|] == holes; }
  }

  /** Every number from the first one on has either arrived or is in a hole. */
  lemma {:induction false} NothingUncounted(run: seq<Meter>, arrivals: seq<Arrival>, i: nat)
    requires Run(run, arrivals) && 0 < i <= |arrivals|
    ensures TotalSize(Created(run, arrivals, i)) + i == run[i].nextSeq - arrivals[0].seqno
    ensures run[i].nextSeq > 0
  {
    assert run[i - 1 + 1] == Update(run[i - 1], arrivals[i - 1]);
    TotalAppend(Created(run, arrivals, i - 1), NewHole(run[i - 1].nextSeq, arrivals[i - 1]));
    if i > 1 { NothingUncounted(run, arrivals, i - 1); }
  }

  ghost predicate Arrived(arrivals: seq<Arrival>, i: nat, n: int) {
    exists j :: 0 <= j < i <= |arrivals| && arrivals[j].seqno == n
  }

  ghost predicate InHole(holes: seq<Hole>, n: int) {
    exists k :: 0 <= k < |holes| && holes[k].first <= n <= holes[k].last
  }

  lemma {:induction false} CreatedChained(run: seq<Meter>, arrivals: seq<Arrival>, i: nat)
    requires Run(run, arrivals) && i <= |arrivals|
    ensures Chained(Created(run, arrivals, i)) && (run[i].nextSeq == 0 ==> Created(run, arrivals, i) == [])
    ensures i > 0 ==> Before(Created(run, arrivals, i), run[i].nextSeq, arrivals[i - 1].now)
  {
    if i > 0 {
      assert run[i - 1 + 1] == Update(run[i - 1], arrivals[i - 1]);
      CreatedChained(run, arrivals, i - 1);
      var now := if i > 1 then arrivals[i - 2].now else arrivals[0].now;
      AppendChained(Created(run, arrivals, i - 1), run[i - 1].nextSeq, arrivals[i - 1], now);
    }
  }

  /** A number behind the next one is in the same holes as before; a number that an arrival skips is in the new one. */
  lemma InHoleAppend(holes: seq<Hole>, nextSeq: nat, a: Arrival, n: int)
    ensures InHole(holes + NewHole(nextSeq, a), n) <==>
              InHole(holes, n) || (nextSeq != 0 && nextSeq <= n < a.seqno)
  {
    var more := NewHole(nextSeq, a);
    var all := holes + more;
    if k :| 0 <= k < |holes| && holes[k].first <= n <= holes[k].last { assert all[k] == holes[k]; }
    if more != [] { assert all[|holes|] == more[0]; }
  }

  lemma ArrivedOneMore(arrivals: seq<Arrival>, i: nat, n: int)
    requires 0 < i <= |arrivals|
    ensures Arrived(arrivals, i, n) <==> Arrived(arrivals, i - 1, n) || arrivals[i - 1].seqno == n
  {
  }

  /** Each number from the first one up to the next has either arrived or lies in a hole, never both; and no two
      holes share a number. */
  lemma {:induction false} EachAccounted(run: seq<Meter>, arrivals: seq<Arrival>, i: nat, n: int)
    requires Run(run, arrivals) && 0 < i <= |arrivals| && arrivals[0].seqno <= n < run[i].nextSeq
    ensures Arrived(arrivals, i, n) <==> !InHole(Created(run, arrivals, i), n)
    ensures Chained(Created(run, arrivals, i))
  {
    var m, a := run[i - 1], arrivals[i - 1];
    assert run[i - 1 + 1] == Update(m, a);
    CreatedChained(run, arrivals, i);
    CreatedChained(run, arrivals, i - 1);
    InHoleAppend(Created(run, arrivals, i - 1), m.nextSeq, a, n);
    ArrivedOneMore(arrivals, i, n);
    if i > 1 {
      NothingUncounted(run, arrivals, i - 1);
      if n < m.nextSeq {
        EachAccounted(run, arrivals, i - 1, n);
      } else {
        NoneArrived(run, arrivals, i - 1, n);
      }
    }
  }

  /** Numbers from the next one on have not arrived. */
  lemma {:induction false} NoneArrived(run: seq<Meter>, arrivals: seq<Arrival>, i: nat, n: int)
    requires Run(run, arrivals) && i <= |arrivals| && n >= run[i].nextSeq
    ensures !Arrived(arrivals, i, n)
  {
    if i > 0 {
      assert run[i - 1 + 1] == Update(run[i - 1], arrivals[i - 1]);
      ArrivedOneMore(arrivals, i, n);
      NoneArrived(run, arrivals, i - 1, n);
    }
  }

  // ---------------------------------------------------------------- the window

  /** The latest start that the window has had in the first i arrivals. */
  function MaxStart(run: seq<Meter>, arrivals: seq<Arrival>, i: nat): real
    requires 0 < i <= |arrivals| < |run|
  {
    var from := ValidStart(run[i - 1], arrivals[i - 1]);
    if i == 1 || MaxStart(run, arrivals, i - 1) <= from then from else MaxStart(run, arrivals, i - 1)
  }

  ghost predicate RoundTrips(arrivals: seq<Arrival>) {
    forall i :: 0 <= i < |arrivals| ==> arrivals[i].maxrtt >= 0.0
  }

  lemma {:induction false} VarianceNonNegative(run: seq<Meter>, arrivals: seq<Arrival>, i: nat)
    requires Run(run, arrivals) && i <= |arrivals|
    ensures run[i].timeVar >= 0.0
  {
    if i > 0 {
      assert run[i - 1 + 1] == Update(run[i - 1], arrivals[i - 1]);
      VarianceNonNegative(run, arrivals, i - 1);
    }
  }

  /** The window never starts in the future. */
  lemma {:induction false} StartsInPast(run: seq<Meter>, arrivals: seq<Arrival>, i: nat)
    requires Run(run, arrivals) && RoundTrips(arrivals) && 0 < i <= |arrivals|
    ensures MaxStart(run, arrivals, i) <= arrivals[i - 1].now
  {
    VarianceNonNegative(run, arrivals, i - 1);
    assert arrivals[i - 1].maxrtt >= 0.0;
    if i > 1 { StartsInPast(run, arrivals, i - 1); }
  }

  function Later(x: real, y: real): real {
    if x <= y then y else x
  }

  /** Dropping what is older than one bound and then what is older than another. */
  lemma {:induction false} RecentTwice(holes: seq<Hole>, more: seq<Hole>, from: real, next: real)
    requires forall k :: 0 <= k < |more| ==> more[k].time >= from
    ensures Recent(Recent(holes, from) + more, next) == Recent(holes + more, Later(from, next))
  {
    if holes == [] {
      assert Recent(holes, from) + more == more && holes + more == more;
      RecentBoth(more, from, next);
    } else {
      RecentTwice(holes[1..], more, from, next);
      assert (holes + more)[1..] == holes[1..] + more;
      if holes[0].time >= from {
        assert (Recent(holes, from) + more)[1..] == Recent(holes[1..], from) + more;
      }
    }
  }

  lemma {:induction false} RecentBoth(holes: seq<Hole>, from: real, next: real)
    requires forall k :: 0 <= k < |holes| ==> holes[k].time >= from
    ensures Recent(holes, next) == Recent(holes, Later(from, next))
  {
    if holes != [] { RecentBoth(holes[1..], from, next); }
  }

  /** Among all holes ever seen the list holds exactly those from the latest start of the window on. */
  lemma {:induction false} ListHolds(run: seq<Meter>, arrivals: seq<Arrival>, i: nat)
    requires Run(run, arrivals) && RoundTrips(arrivals) && 0 < i <= |arrivals|
    ensures run[i].holes == Recent(Created(run, arrivals, i), MaxStart(run, arrivals, i))
  {
    var m, a := run[i - 1], arrivals[i - 1];
    assert run[i - 1 + 1] == Update(m, a);
    var h := NewHole(m.nextSeq, a);
    if i > 1 {
      ListHolds(run, arrivals, i - 1);
      StartsInPast(run, arrivals, i - 1);
      assert arrivals[i - 2].now <= a.now;
      RecentTwice(Created(run, arrivals, i - 1), h, MaxStart(run, arrivals, i - 1), ValidStart(m, a));
    } else {
      assert m.holes + h == Created(run, arrivals, 0) + h;
    }
  }

  ghost predicate NoneWithin(holes: seq<Hole>, from: real, until: real) {
    forall h :: h in holes ==> !(from <= h.time < until)
  }

  lemma {:induction false} RecentMember(holes: seq<Hole>, from: real, h: Hole)
    ensures h in Recent(holes, from) <==> h in holes && h.time >= from
  {
    if holes != [] { RecentMember(holes[1..], from, h); }
  }

  lemma {:induction false} RecentSame(holes: seq<Hole>, from: real, next: real)
    requires from <= next && NoneWithin(holes, from, next)
    ensures Recent(holes, from) == Recent(holes, next)
  {
    if holes != [] {
      assert holes[0] in holes;
      RecentSame(holes[1..], from, next);
    }
  }

  /** The list holds all holes of the current window exactly when no hole lies between the start of the window and
      the latest start that it has had: what the window left behind is forgotten when it moves back. */
  lemma CountsAllLosses(run: seq<Meter>, arrivals: seq<Arrival>, i: nat)
    requires Run(run, arrivals) && RoundTrips(arrivals) && 0 < i <= |arrivals|
    ensures var from := ValidStart(run[i - 1], arrivals[i - 1]);
            var created := Created(run, arrivals, i);
            run[i].holes == Recent(created, from) <==> NoneWithin(created, from, MaxStart(run, arrivals, i))
  {
    ListHolds(run, arrivals, i);
    var from, created := ValidStart(run[i - 1], arrivals[i - 1]), Created(run, arrivals, i);
    var latest := MaxStart(run, arrivals, i);
    if NoneWithin(created, from, latest) {
      RecentSame(created, from, latest);
    } else {
      var h :| h in created && from <= h.time < latest;
      RecentMember(created, from, h);
      RecentMember(created, latest, h);
    }
  }

  // ---------------------------------------------------------------- the count

  /** The packets in holes from one time up to another. */
  function LostWithin(holes: seq<Hole>, from: real, until: real): int {
    if holes == [] then 0
    else (if from <= holes[0].time < until then Size(holes[0]) else 0) + LostWithin(holes[1..], from, until)
  }

  lemma {:induction false} LostFirst(holes: seq<Hole>, until: real)
    requires holes != []
    ensures Lost(holes, until) == (if holes[0].time < until then Size(holes[0]) else 0) + Lost(holes[1..], until)
  {
    if |holes| == 1 {
      assert holes[..0] == [] && holes[1..] == [];
    } else {
      LostFirst(holes[..|holes| - 1], until);
      assert holes[..|holes| - 1][1..] == holes[1..][..|holes| - 2];
    }
  }

  lemma {:induction false} LostRecent(holes: seq<Hole>, from: real, until: real)
    ensures Lost(Recent(holes, from), until) == LostWithin(holes, from, until)
  {
    if holes != [] {
      LostRecent(holes[1..], from, until);
      if holes[0].time >= from {
        LostFirst(Recent(holes, from), until);
        assert Recent(holes, from)[1..] == Recent(holes[1..], from);
      }
    }
  }

  function Sooner(x: real, y: real): real {
    if x <= y then x else y
  }

  lemma {:induction false} LostApart(holes: seq<Hole>, from: real, next: real, until: real)
    requires from <= next && forall k :: 0 <= k < |holes| ==> holes[k].first <= holes[k].last
    ensures LostWithin(holes, from, until)
         == LostWithin(holes, next, until) + LostWithin(holes, from, Sooner(next, until))
    ensures LostWithin(holes, from, Sooner(next, until)) >= 0
    ensures LostWithin(holes, from, Sooner(next, until)) == 0 <==> NoneWithin(holes, from, Sooner(next, until))
  {
    if holes != [] {
      LostApart(holes[1..], from, next, until);
      assert holes == [holes[0]] + holes[1..];
    }
  }

  /** The packets counted are all those lost within the window exactly when no hole of the window lies before the
      latest start that it has had; otherwise too few are counted. */
  lemma CountRight(run: seq<Meter>, arrivals: seq<Arrival>, i: nat)
    requires Run(run, arrivals) && RoundTrips(arrivals) && 0 < i <= |arrivals|
    ensures var m, a := run[i - 1], arrivals[i - 1];
            var from, until := ValidStart(m, a), ValidEnd(m, a);
            var created := Created(run, arrivals, i);
            && Lost(run[i].holes, until) <= LostWithin(created, from, until)
            && (Lost(run[i].holes, until) == LostWithin(created, from, until) <==>
                  NoneWithin(created, from, Sooner(MaxStart(run, arrivals, i), until)))
  {
    var m, a := run[i - 1], arrivals[i - 1];
    var created, latest := Created(run, arrivals, i), MaxStart(run, arrivals, i);
    ListHolds(run, arrivals, i);
    CreatedChained(run, arrivals, i);
    LostRecent(created, latest, ValidEnd(m, a));
    LostApart(created, ValidStart(m, a), latest, ValidEnd(m, a));
  }

  /** Four packets, the second of which shows a hole; the third comes with a short round trip, the fourth with a long
      one. */
  const LONGER_AGAIN := [
    Arrival(0.0, 0.0, 0, 1.0, 0.0), Arrival(1.0, 0.0, 2, 1.0, 0.0),
    Arrival(3.0, 0.0, 3, 1.0, 0.0), Arrival(3.0, 0.0, 4, 3.0, 0.0)]

  const FORGETFUL := [
    NEW_METER, Meter(1, 0.0, 0.0, []), Meter(3, 0.0, 0.0, [Hole(1, 1, 1.0)]), Meter(4, 0.0, 0.0, []),
    Meter(5, 0.0, 0.0, [])]

  /** The window moves back over a hole that it has left: one packet was lost within it, none is counted. */
  lemma WindowMovesBack()
    ensures Run(FORGETFUL, LONGER_AGAIN) && RoundTrips(LONGER_AGAIN)
    ensures ValidStart(FORGETFUL[3], LONGER_AGAIN[3]) == 0.0 && ValidEnd(FORGETFUL[3], LONGER_AGAIN[3]) == 3.0
    ensures LostWithin(Created(FORGETFUL, LONGER_AGAIN, 4), 0.0, 3.0) == 1 && Lost(FORGETFUL[4].holes, 3.0) == 0
  {
    var run, arrivals := FORGETFUL, LONGER_AGAIN;
    assert run[1] == Update(run[0], arrivals[0]);
    assert run[2] == Update(run[1], arrivals[1]);
    assert run[3] == Update(run[2], arrivals[2]);
    assert run[4] == Update(run[3], arrivals[3]);
    assert Created(run, arrivals, 1) == [];
    assert Created(run, arrivals, 2) == [Hole(1, 1, 1.0)];
    assert Created(run, arrivals, 3) == [Hole(1, 1, 1.0)];
    assert Created(run, arrivals, 4) == [Hole(1, 1, 1.0)];
  }

  /** A slow flow is unloaded without a loss, loaded with one, and congested with more. */
  lemma SlowFlowThresholds(lost: nat, a: Arrival)
    requires (if a.ipg != 0.0 then a.maxrtt / a.ipg else 0.0) * LOSSCONGTH as real / 100.0 < 2.0
    ensures SignalOf(lost, Pps(a)) == if lost == 0 then Unloaded else if lost == 1 then Loaded else Congested
  {
  }

  /** A flow with enough packets per round trip is loaded with more than five, and congested with more than fifteen
      lost packets in a hundred. */
  lemma FastFlowThresholds(lost: nat, a: Arrival)
    requires a.ipg != 0.0 && 15.0 * (a.maxrtt / a.ipg) >= 200.0
    ensures var inHundred := 100.0 * lost as real;
            SignalOf(lost, Pps(a)) == if inHundred <= 5.0 * (a.maxrtt / a.ipg) then Unloaded
                                      else if inHundred <= 15.0 * (a.maxrtt / a.ipg) then Loaded else Congested
  {
  }

  /** A sample moves the mean an eighth of the way towards itself, what is left of the way adds to the variance, and the
      window ends twice the variance ago. */
  lemma MeanMoves(m: Meter, a: Arrival)
    requires m.timeMean != 0.0
    ensures 8.0 * (a.timeDiff - Mean(m, a)) == 7.0 * (a.timeDiff - m.timeMean)
    ensures 64.0 * Variance(m, a) == 56.0 * m.timeVar + 7.0 * Abs(a.timeDiff - m.timeMean)
    ensures 32.0 * (a.now - ValidEnd(m, a)) == 56.0 * m.timeVar + 7.0 * Abs(a.timeDiff - m.timeMean)
  {
  }

  /** While all packets come equally far apart, that distance is the mean, nothing varies, and the window in which
      losses are counted ends now and is one round trip long. */
  lemma {:induction false} SteadyFlow(run: seq<Meter>, arrivals: seq<Arrival>, i: nat, d: real)
    requires Run(run, arrivals) && 0 < i <= |arrivals| && d != 0.0
    requires forall k :: 0 <= k < i ==> arrivals[k].timeDiff == d
    ensures run[i].timeMean == d && run[i].timeVar == 0.0
    ensures ValidEnd(run[i - 1], arrivals[i - 1]) == arrivals[i - 1].now
    ensures ValidStart(run[i - 1], arrivals[i - 1]) == arrivals[i - 1].now - arrivals[i - 1].maxrtt
  {
    var m, a := run[i - 1], arrivals[i - 1];
    assert run[i - 1 + 1] == Update(m, a);
    if i > 1 {
      SteadyFlow(run, arrivals, i - 1, d);
      MeanMoves(m, a);
    }
  }
}
