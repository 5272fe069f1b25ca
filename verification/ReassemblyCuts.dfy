/** The receive path for segments cut in any way. */
module ReassemblyCuts {
  // Segments that overlap others can leave rcv_nxt_ wrong; here is when they do.

  import opened Common
  import opened Reassembly

  ghost predicate WithData(segs: seq<Seg>) {
    forall a :: a in segs ==> a.startseq < a.endseq
  }

  /** What draining takes is a prefix of the queue, and the end of its last segment is expected next. */
  lemma {:induction false} DrainPrefix(q: seq<Seg>)
    requires q != []
    ensures var k := |q| - |Drain(q).rest|;
            && 0 < k && Drain(q).rest == q[k..] && Drain(q).nxt == q[k - 1].endseq
            && (k < |q| ==> Drain(q).nxt < q[k].startseq)
  {
    if !(|q| == 1 || q[0].endseq < q[1].startseq) { DrainPrefix(q[1..]); }
  }

  /** What is expected next is the first byte that has not arrived. */
  ghost predicate Exact(irs: int, arrived: seq<Seg>, nxt: int) {
    irs <= nxt && !Received(arrived, nxt) && forall b :: irs <= b < nxt ==> Received(arrived, b)
  }

  /** Each segment of the queue starts before the end of those behind it. */
  ghost predicate Staggered(q: seq<Seg>) {
    forall i, j :: 0 <= i < j < |q| ==> q[i].startseq < q[j].endseq
  }

  /** What has arrived is passed or waits. */
  ghost predicate Accounted(arrived: seq<Seg>, nxt: int, q: seq<Seg>) {
    && (forall a :: a in q ==> a in arrived)
    && (forall a {:trigger Waits(q, a)} :: a in arrived ==> a.endseq <= nxt || Waits(q, a))
  }

  /** A receiver that has made no mistake so far; its queue need not be sorted. */
  ghost predicate InStep(irs: int, arrived: seq<Seg>, r: Receiver) {
    && Exact(irs, arrived, r.rcvNxt) && WithData(arrived) && Accounted(arrived, r.rcvNxt, r.q) && Staggered(r.q)
    && (r.q != [] ==> r.q[0].startseq > r.rcvNxt)
  }

  /** The segment as add() sees it: from the next byte expected on, but with its full size. */
  function Counted(nxt: int, s: Seg): Seg {
    Seg(nxt, nxt + (s.endseq - s.startseq), s.flags)
  }

  /** When a receiver in step stays right: the segment is old, or starts beyond the next byte expected, or nothing
      waits; or, counted by its full size, it does not reach into the head of the queue, the bytes that were trimmed
      from it are waiting behind its end, and no segment spans the end of the last one that draining takes off. */
  ghost predicate StepRight(r: Receiver, s: Seg) {
    || s.endseq <= r.rcvNxt || s.startseq > r.rcvNxt || r.q == []
    || (var t := Counted(r.rcvNxt, s);
        && t.endseq <= r.q[0].startseq
        && (forall b :: s.endseq <= b < t.endseq ==> Received(r.q, b))
        && !Received([s] + r.q, Drain([t] + r.q).nxt))
  }

  // ---------------------------------------------------------------- one step

  lemma ReceivedOneMore(arrived: seq<Seg>, s: Seg, b: int)
    ensures Received(arrived + [s], b) <==> Received(arrived, b) || Covers(s, b)
    ensures Received([s] + arrived, b) <==> Received(arrived, b) || Covers(s, b)
  {
    assert s in arrived + [s] && s in [s] + arrived;
    if a :| a in arrived && Covers(a, b) { assert a in arrived + [s] && a in [s] + arrived; }
  }

  /** From the next byte expected on, what has arrived is what waits. */
  lemma WaitingReceived(arrived: seq<Seg>, nxt: int, q: seq<Seg>, b: int)
    requires Accounted(arrived, nxt, q) && b >= nxt
    ensures Received(arrived, b) <==> Received(q, b)
  {
    if a :| a in arrived && Covers(a, b) {
      assert Waits(q, a);
      var w :| w in q && SameBytes(w, a);
      assert Covers(w, b);
    }
  }

  /** All that waits lies beyond the next byte expected, and ends beyond the start of the head. */
  lemma QueueBeyond(irs: int, arrived: seq<Seg>, r: Receiver, w: Seg)
    requires InStep(irs, arrived, r) && w in r.q
    ensures r.rcvNxt < w.startseq < w.endseq && r.q[0].startseq < w.endseq
  {
    var i :| 0 <= i < |r.q| && r.q[i] == w;
    assert w in arrived;
    if i > 0 { assert r.q[0].startseq < r.q[i].endseq; }
    assert !Covers(w, r.rcvNxt);
  }

  lemma InsertStaggered(q: seq<Seg>, s: Seg)
    requires Staggered(q) && WithData(q) && s.startseq < s.endseq
    ensures Staggered(Insert(q, s))
  {
    var k := Place(q, s);
    var q1 := q[..k] + [s] + q[k..];
    assert q1 == Insert(q, s);
    forall i | 0 <= i < k ensures q[i].startseq < s.endseq { PlacedBehind(q, s, i); }
    forall j | k <= j < |q| ensures s.startseq < q[j].endseq { PlacedBefore(q, s, j); }
    JoinStaggered(q, s, k);
  }

  lemma JoinStaggered(q: seq<Seg>, s: Seg, k: nat)
    requires Staggered(q) && k <= |q|
    requires forall i :: 0 <= i < k ==> q[i].startseq < s.endseq
    requires forall j :: k <= j < |q| ==> s.startseq < q[j].endseq
    ensures Staggered(q[..k] + [s] + q[k..])
  {
    var q1 := q[..k] + [s] + q[k..];
    forall i, j | 0 <= i < j < |q1| ensures q1[i].startseq < q1[j].endseq {
      if i < k { assert q1[i] == q[i]; } else if i > k { assert q1[i] == q[i - 1]; }
      if j < k { assert q1[j] == q[j]; } else if j > k { assert q1[j] == q[j - 1]; }
    }
  }

  lemma PlacedBehind(q: seq<Seg>, s: Seg, i: nat)
    requires Staggered(q) && WithData(q) && s.startseq < s.endseq && i < Place(q, s)
    ensures q[i].startseq < s.endseq
  {
    var last := q[|q| - 1];
    assert last in q;
    if last.endseq <= s.startseq && i < |q| - 1 { assert q[i].startseq < q[|q| - 1].endseq; }
  }

  lemma PlacedBefore(q: seq<Seg>, s: Seg, j: nat)
    requires Staggered(q) && WithData(q) && s.startseq < s.endseq && Place(q, s) <= j < |q|
    ensures s.startseq < q[j].endseq
  {
    var k := Place(q, s);
    assert q[j] in q && s.endseq <= q[k].startseq;
    if k < j { assert q[k].startseq < q[j].endseq; }
  }

  lemma InsertAccounted(arrived: seq<Seg>, nxt: int, q: seq<Seg>, s: Seg)
    requires Accounted(arrived, nxt, q)
    ensures Accounted(arrived + [s], nxt, Insert(q, s))
  {
    InsertParts(q, s);
    var a1, q1 := arrived + [s], Insert(q, s);
    forall a | a in a1 && a.endseq > nxt ensures Waits(q1, a) {
      if a in arrived {
        assert Waits(q, a);
        var w :| w in q && SameBytes(w, a);
        assert w in q1;
      } else {
        assert s in q1 && SameBytes(s, a);
      }
    }
  }

  lemma ExactOneMore(irs: int, arrived: seq<Seg>, s: Seg, nxt: int)
    requires Exact(irs, arrived, nxt) && !Covers(s, nxt)
    ensures Exact(irs, arrived + [s], nxt)
  {
    forall b | irs <= b < nxt ensures Received(arrived + [s], b) { ReceivedOneMore(arrived, s, b); }
    ReceivedOneMore(arrived, s, nxt);
  }

  lemma OldRecv(r: Receiver, s: Seg)
    requires s.startseq < s.endseq <= r.rcvNxt
    ensures Recv(r, s) == r
  {
  }

  /** A segment all of whose bytes were expected before leaves everything as it is. */
  lemma OldStep(irs: int, arrived: seq<Seg>, r: Receiver, s: Seg)
    requires InStep(irs, arrived, r) && s.startseq < s.endseq <= r.rcvNxt
    ensures Recv(r, s) == r && InStep(irs, arrived + [s], r)
  {
    OldRecv(r, s);
    ExactOneMore(irs, arrived, s, r.rcvNxt);
  }

  lemma LateRecv(r: Receiver, s: Seg)
    requires r.rcvNxt < s.startseq < s.endseq && (r.q != [] ==> r.q[0].startseq > r.rcvNxt)
    ensures Recv(r, s) == Receiver(r.rcvNxt, Insert(r.q, s)) && Insert(r.q, s)[0].startseq > r.rcvNxt
  {
    RecvAdds(r, s);
    assert Insert(r.q, s)[0] == (if Place(r.q, s) == 0 then s else r.q[0]);
  }

  /** A segment beyond the next byte expected waits. */
  lemma LateStep(irs: int, arrived: seq<Seg>, r: Receiver, s: Seg)
    requires InStep(irs, arrived, r) && r.rcvNxt < s.startseq < s.endseq
    ensures Recv(r, s) == Receiver(r.rcvNxt, Insert(r.q, s)) && InStep(irs, arrived + [s], Recv(r, s))
  {
    LateRecv(r, s);
    assert WithData(r.q);
    InsertStaggered(r.q, s);
    InsertAccounted(arrived, r.rcvNxt, r.q, s);
    ExactOneMore(irs, arrived, s, r.rcvNxt);
  }

  /** With nothing waiting a segment with the next byte is taken at once. */
  lemma AtOnceStep(irs: int, arrived: seq<Seg>, r: Receiver, s: Seg)
    requires InStep(irs, arrived, r) && r.q == [] && s.startseq <= r.rcvNxt < s.endseq && irs <= s.startseq
    ensures Recv(r, s) == Receiver(s.endseq, []) && InStep(irs, arrived + [s], Recv(r, s))
  {
    assert Recv(r, s) == RecvData(r, r.rcvNxt, s.endseq - r.rcvNxt, s.endseq - s.startseq, s.flags);
    forall b | irs <= b < s.endseq ensures Received(arrived + [s], b) { ReceivedOneMore(arrived, s, b); }
    forall a | a in arrived + [s] ensures a.endseq <= s.endseq {
      if a in arrived { assert !Waits(r.q, a); }
    }
  }

  lemma RecvTrimmed(r: Receiver, s: Seg)
    requires r.q != [] && s.startseq <= r.rcvNxt < s.endseq
    ensures var d := Add(r.rcvNxt, r.q, Seg(r.rcvNxt, r.rcvNxt + (s.endseq - s.startseq), s.flags));
            Recv(r, s) == Receiver(d.nxt, d.rest)
  {
  }

  /** Where a segment with the next byte goes: to the head, or behind it. */
  lemma AddsAtHead(nxt: int, q: seq<Seg>, t: Seg)
    requires q != [] && nxt == t.startseq < t.endseq && q[0].startseq > nxt && q[|q| - 1].endseq > nxt
    ensures t.endseq <= q[0].startseq ==> Add(nxt, q, t) == Drain([t] + q)
    ensures t.endseq > q[0].startseq ==> Add(nxt, q, t).nxt == nxt
  {
    if t.endseq <= q[0].startseq {
      assert Place(q, t) == 0;
      assert q[..0] == [] && q[0..] == q;
      assert Insert(q, t) == [t] + q;
    } else {
      assert Place(q, t) > 0;
      assert Insert(q, t)[0] == q[0];
    }
  }

  /** A segment that reaches into the head of the queue is put behind it: the next byte has arrived, but nothing
      moves on. Any other goes to the head, and draining begins. */
  lemma HeadRecv(r: Receiver, s: Seg)
    requires r.q != [] && s.startseq <= r.rcvNxt < s.endseq
    requires r.q[0].startseq > r.rcvNxt && r.q[|r.q| - 1].endseq > r.rcvNxt
    ensures var t := Counted(r.rcvNxt, s);
            if t.endseq > r.q[0].startseq then Recv(r, s).rcvNxt == r.rcvNxt
            else Recv(r, s) == Receiver(Drain([t] + r.q).nxt, Drain([t] + r.q).rest)
  {
    RecvTrimmed(r, s);
    AddsAtHead(r.rcvNxt, r.q, Counted(r.rcvNxt, s));
  }

  lemma HeadStep(irs: int, arrived: seq<Seg>, r: Receiver, s: Seg)
    requires InStep(irs, arrived, r) && r.q != [] && s.startseq <= r.rcvNxt < s.endseq
    ensures var t := Counted(r.rcvNxt, s);
            if t.endseq > r.q[0].startseq then Recv(r, s).rcvNxt == r.rcvNxt
            else Recv(r, s) == Receiver(Drain([t] + r.q).nxt, Drain([t] + r.q).rest)
  {
    QueueBeyond(irs, arrived, r, r.q[|r.q| - 1]);
    HeadRecv(r, s);
  }

  /** What draining takes off leaves no byte out. */
  lemma {:induction false} DrainCovers(q: seq<Seg>, i: nat, b: int)
    requires q != [] && i < |q| - |Drain(q).rest| && q[0].startseq <= b < q[i].endseq
    ensures Received(q, b)
  {
    DrainPrefix(q);
    if b < q[0].endseq {
      assert q[0] in q && Covers(q[0], b);
    } else {
      assert i > 0;
      DrainCovers(q[1..], i - 1, b);
      var a :| a in q[1..] && Covers(a, b);
      assert a in q;
    }
  }

  lemma DrainBeyond(t: Seg, q: seq<Seg>)
    requires q != [] && t.endseq <= q[0].startseq && forall w :: w in q ==> q[0].startseq < w.endseq
    ensures Drain([t] + q).nxt >= t.endseq
  {
    var all := [t] + q;
    DrainPrefix(all);
    var k := |all| - |Drain(all).rest|;
    if k > 1 { assert all[k - 1] == q[k - 2] && q[k - 2] in q; }
  }

  /** From the next byte expected on, what has arrived after the segment is what waits and the segment. */
  lemma ReceivedNow(arrived: seq<Seg>, nxt: int, q: seq<Seg>, s: Seg, b: int)
    requires Accounted(arrived, nxt, q) && b >= nxt
    ensures Received(arrived + [s], b) <==> Received(q, b) || Covers(s, b)
  {
    ReceivedOneMore(arrived, s, b);
    WaitingReceived(arrived, nxt, q, b);
  }

  /** A byte before the end of what draining takes off is received, if the trimmed bytes wait behind the segment. */
  lemma DrainedReceived(q: seq<Seg>, s: Seg, t: Seg, b: int)
    requires t.startseq <= b < Drain([t] + q).nxt && s.startseq <= t.startseq
    requires forall b :: s.endseq <= b < t.endseq ==> Received(q, b)
    ensures Received(q, b) || Covers(s, b)
  {
    var all := [t] + q;
    DrainPrefix(all);
    DrainCovers(all, |all| - |Drain(all).rest| - 1, b);
    ReceivedOneMore(q, t, b);
  }

  lemma FilledExact(irs: int, arrived: seq<Seg>, r: Receiver, s: Seg)
    requires InStep(irs, arrived, r) && r.q != [] && irs <= s.startseq <= r.rcvNxt < s.endseq
    requires Counted(r.rcvNxt, s).endseq <= r.q[0].startseq
    ensures Exact(irs, arrived + [s], Drain([Counted(r.rcvNxt, s)] + r.q).nxt) <==> StepRight(r, s)
  {
    var t, a1 := Counted(r.rcvNxt, s), arrived + [s];
    var nxt := Drain([t] + r.q).nxt;
    forall w | w in r.q ensures r.q[0].startseq < w.endseq { QueueBeyond(irs, arrived, r, w); }
    DrainBeyond(t, r.q);
    ReceivedNow(arrived, r.rcvNxt, r.q, s, nxt);
    ReceivedOneMore(r.q, s, nxt);
    if StepRight(r, s) {
      forall b | irs <= b < nxt ensures Received(a1, b) {
        if b < r.rcvNxt {
          ReceivedOneMore(arrived, s, b);
        } else {
          DrainedReceived(r.q, s, t, b);
          ReceivedNow(arrived, r.rcvNxt, r.q, s, b);
        }
      }
    } else if Exact(irs, a1, nxt) {
      forall b | s.endseq <= b < t.endseq ensures Received(r.q, b) {
        ReceivedNow(arrived, r.rcvNxt, r.q, s, b);
      }
    }
  }

  /** When the end of what draining takes off is missing, everything taken off ends there or before. */
  lemma DrainedPassed(q: seq<Seg>, t: Seg, i: nat)
    requires i < |[t] + q| - |Drain([t] + q).rest| && t.startseq < t.endseq <= Drain([t] + q).nxt
    requires !Received(q, Drain([t] + q).nxt)
    ensures ([t] + q)[i].endseq <= Drain([t] + q).nxt
  {
    var all, nxt := [t] + q, Drain([t] + q).nxt;
    if all[i].endseq > nxt {
      DrainCovers(all, i, nxt);
      ReceivedOneMore(q, t, nxt);
    }
  }

  /** What draining leaves behind, and that what it took off is passed. */
  lemma DrainedParts(q: seq<Seg>, t: Seg) returns (k: nat)
    requires t.startseq < t.endseq <= Drain([t] + q).nxt && !Received(q, Drain([t] + q).nxt)
    ensures k <= |q| && Drain([t] + q).rest == q[k..]
    ensures k < |q| ==> Drain([t] + q).nxt < q[k].startseq
    ensures forall i :: 0 <= i < k ==> q[i].endseq <= Drain([t] + q).nxt
  {
    var all := [t] + q;
    DrainPrefix(all);
    k := |q| - |Drain(all).rest|;
    forall i | 0 <= i < k ensures q[i].endseq <= Drain(all).nxt {
      DrainedPassed(q, t, i + 1);
      assert all[i + 1] == q[i];
    }
    assert all[k + 1..] == q[k..];
  }

  lemma RestAccounted(arrived: seq<Seg>, nxt: int, q: seq<Seg>, s: Seg, k: nat, nxt': int)
    requires Accounted(arrived, nxt, q) && k <= |q| && nxt <= nxt' && s.endseq <= nxt'
    requires forall i :: 0 <= i < k ==> q[i].endseq <= nxt'
    ensures Accounted(arrived + [s], nxt', q[k..])
  {
    forall a | a in arrived && a.endseq > nxt' ensures Waits(q[k..], a) {
      assert Waits(q, a);
      var w :| w in q && SameBytes(w, a);
      var i :| 0 <= i < |q| && q[i] == w;
      assert q[k..][i - k] == w;
    }
  }

  lemma RestStaggered(q: seq<Seg>, k: nat)
    requires Staggered(q) && k <= |q|
    ensures Staggered(q[k..])
  {
    var rest := q[k..];
    forall i, j | 0 <= i < j < |rest| ensures rest[i].startseq < rest[j].endseq {
      assert rest[i] == q[k + i] && rest[j] == q[k + j];
    }
  }

  lemma RestInStep(irs: int, arrived: seq<Seg>, r: Receiver, s: Seg, k: nat, nxt: int)
    requires InStep(irs, arrived, r) && s.startseq < s.endseq <= nxt && r.rcvNxt <= nxt && k <= |r.q|
    requires Exact(irs, arrived + [s], nxt) && (k < |r.q| ==> nxt < r.q[k].startseq)
    requires forall i :: 0 <= i < k ==> r.q[i].endseq <= nxt
    ensures InStep(irs, arrived + [s], Receiver(nxt, r.q[k..]))
  {
    RestAccounted(arrived, r.rcvNxt, r.q, s, k, nxt);
    RestStaggered(r.q, k);
  }

  lemma FilledFacts(irs: int, arrived: seq<Seg>, r: Receiver, s: Seg)
    requires InStep(irs, arrived, r) && r.q != [] && irs <= s.startseq <= r.rcvNxt < s.endseq
    requires Counted(r.rcvNxt, s).endseq <= r.q[0].startseq && StepRight(r, s)
    ensures var t := Counted(r.rcvNxt, s);
            var nxt := Drain([t] + r.q).nxt;
            r.rcvNxt < s.endseq <= t.endseq <= nxt && !Received(r.q, nxt) && Exact(irs, arrived + [s], nxt)
  {
    var t := Counted(r.rcvNxt, s);
    FilledExact(irs, arrived, r, s);
    forall w | w in r.q ensures r.q[0].startseq < w.endseq { QueueBeyond(irs, arrived, r, w); }
    DrainBeyond(t, r.q);
    ReceivedOneMore(r.q, s, Drain([t] + r.q).nxt);
  }

  /** A segment that fills the hole leaves the receiver in step when the step is right. */
  lemma FilledStep(irs: int, arrived: seq<Seg>, r: Receiver, s: Seg)
    requires InStep(irs, arrived, r) && r.q != [] && irs <= s.startseq <= r.rcvNxt < s.endseq
    requires Counted(r.rcvNxt, s).endseq <= r.q[0].startseq && StepRight(r, s)
    ensures var d := Drain([Counted(r.rcvNxt, s)] + r.q); InStep(irs, arrived + [s], Receiver(d.nxt, d.rest))
  {
    var t := Counted(r.rcvNxt, s);
    FilledFacts(irs, arrived, r, s);
    var k := DrainedParts(r.q, t);
    RestInStep(irs, arrived, r, s, k, Drain([t] + r.q).nxt);
  }

  /** A segment that reaches into the head leaves a byte that has arrived expected. */
  lemma StuckStep(irs: int, arrived: seq<Seg>, r: Receiver, s: Seg)
    requires InStep(irs, arrived, r) && r.q != [] && s.startseq <= r.rcvNxt < s.endseq
    requires Counted(r.rcvNxt, s).endseq > r.q[0].startseq
    ensures !Exact(irs, arrived + [s], Recv(r, s).rcvNxt) && !StepRight(r, s)
  {
    HeadStep(irs, arrived, r, s);
    ReceivedOneMore(arrived, s, r.rcvNxt);
  }

  lemma HoleStep(irs: int, arrived: seq<Seg>, r: Receiver, s: Seg)
    requires InStep(irs, arrived, r) && r.q != [] && irs <= s.startseq <= r.rcvNxt < s.endseq
    requires Counted(r.rcvNxt, s).endseq <= r.q[0].startseq
    ensures Exact(irs, arrived + [s], Recv(r, s).rcvNxt) <==> StepRight(r, s)
    ensures StepRight(r, s) ==> InStep(irs, arrived + [s], Recv(r, s))
  {
    HeadStep(irs, arrived, r, s);
    FilledExact(irs, arrived, r, s);
    if StepRight(r, s) { FilledStep(irs, arrived, r, s); }
  }

  // ---------------------------------------------------------------- main results

  /** For segments cut in any way: from a receiver in step, the next byte expected is again the first one that has not
      arrived exactly when the step is right; and then the receiver is in step again. */
  lemma StepExact(irs: int, arrived: seq<Seg>, r: Receiver, s: Seg)
    requires InStep(irs, arrived, r) && irs <= s.startseq < s.endseq
    ensures Exact(irs, arrived + [s], Recv(r, s).rcvNxt) <==> StepRight(r, s)
    ensures StepRight(r, s) ==> InStep(irs, arrived + [s], Recv(r, s))
  {
    if s.endseq <= r.rcvNxt {
      OldStep(irs, arrived, r, s);
    } else if s.startseq > r.rcvNxt {
      LateStep(irs, arrived, r, s);
    } else if r.q == [] {
      AtOnceStep(irs, arrived, r, s);
    } else if Counted(r.rcvNxt, s).endseq > r.q[0].startseq {
      StuckStep(irs, arrived, r, s);
    } else {
      HoleStep(irs, arrived, r, s);
    }
  }

  ghost predicate DataFrom(irs: int, arrived: seq<Seg>) {
    forall i :: 0 <= i < |arrived| ==> irs <= arrived[i].startseq < arrived[i].endseq
  }

  /** Arrival i is a right step. */
  ghost predicate RightAt(irs: int, arrived: seq<Seg>, i: nat) {
    i < |arrived| && StepRight(RecvAll(irs, arrived[..i]), arrived[i])
  }

  /** After i arrivals the first byte that has not arrived is expected next. */
  ghost predicate ExactAt(irs: int, arrived: seq<Seg>, i: nat) {
    i <= |arrived| && Exact(irs, arrived[..i], RecvAll(irs, arrived[..i]).rcvNxt)
  }

  ghost predicate InStepAt(irs: int, arrived: seq<Seg>, i: nat) {
    i <= |arrived| && InStep(irs, arrived[..i], RecvAll(irs, arrived[..i]))
  }

  lemma StartsInStep(irs: int, arrived: seq<Seg>)
    ensures InStepAt(irs, arrived, 0) && ExactAt(irs, arrived, 0)
  {
    assert arrived[..0] == [];
  }

  lemma NextAt(irs: int, arrived: seq<Seg>, i: nat)
    requires DataFrom(irs, arrived) && i < |arrived| && InStepAt(irs, arrived, i)
    ensures ExactAt(irs, arrived, i + 1) <==> RightAt(irs, arrived, i)
    ensures RightAt(irs, arrived, i) ==> InStepAt(irs, arrived, i + 1)
  {
    var before, s := arrived[..i], arrived[i];
    assert arrived[..i + 1] == before + [s];
    assert (before + [s])[..i] == before;
    StepExact(irs, before, RecvAll(irs, before), s);
  }

  lemma {:induction false} InStepWhileRight(irs: int, arrived: seq<Seg>, n: nat)
    requires DataFrom(irs, arrived) && n <= |arrived|
    requires (forall i :: 0 <= i < n ==> RightAt(irs, arrived, i)) || (forall i :: 0 <= i <= n ==> ExactAt(irs, arrived, i))
    ensures InStepAt(irs, arrived, n)
  {
    if n == 0 {
      StartsInStep(irs, arrived);
    } else {
      InStepWhileRight(irs, arrived, n - 1);
      NextAt(irs, arrived, n - 1);
    }
  }

  /** For segments cut in any way and arriving in any order: rcv_nxt_ is the first byte that has not arrived after every
      arrival exactly when every step is right. */
  lemma AlwaysExactIffRight(irs: int, arrived: seq<Seg>)
    requires DataFrom(irs, arrived)
    ensures (forall i :: 0 <= i <= |arrived| ==> ExactAt(irs, arrived, i))
            <==> (forall i :: 0 <= i < |arrived| ==> RightAt(irs, arrived, i))
  {
    if forall i :: 0 <= i < |arrived| ==> RightAt(irs, arrived, i) {
      forall i | 0 <= i <= |arrived| ensures ExactAt(irs, arrived, i) {
        if i == 0 {
          StartsInStep(irs, arrived);
        } else {
          InStepWhileRight(irs, arrived, i - 1);
          NextAt(irs, arrived, i - 1);
        }
      }
    } else if forall i :: 0 <= i <= |arrived| ==> ExactAt(irs, arrived, i) {
      forall i | 0 <= i < |arrived| ensures RightAt(irs, arrived, i) {
        InStepWhileRight(irs, arrived, i);
        NextAt(irs, arrived, i);
      }
    }
  }

  // ---------------------------------------------------------------- sorted queues

  /** Of the segments that draining takes off, the last one reaches furthest. */
  ghost predicate LastReachesFurthest(q: seq<Seg>)
    requires q != []
  {
    var k := |q| - |Drain(q).rest|;
    forall i :: 0 <= i < k <= |q| ==> q[i].endseq <= q[k - 1].endseq
  }

  /** However the queue was cut: the byte that is expected after draining is missing from it exactly when, of the
      segments taken off, the last one reaches furthest. */
  lemma DrainedRight(q: seq<Seg>)
    requires q != [] && Sorted(q) && WithData(q)
    ensures var k := |q| - |Drain(q).rest|;
            0 < k <= |q| && (!Received(q, Drain(q).nxt) <==> LastReachesFurthest(q))
  {
    DrainPrefix(q);
    var k, nxt := |q| - |Drain(q).rest|, Drain(q).nxt;
    assert q[k - 1] in q;
    if i :| 0 <= i < k && q[i].endseq > q[k - 1].endseq {
      assert q[i].startseq <= q[k - 1].startseq;
      assert q[i] in q && Covers(q[i], nxt);
    } else {
      forall a | a in q ensures !Covers(a, nxt) {
        var i :| 0 <= i < |q| && q[i] == a;
        if i >= k { assert q[k].startseq <= q[i].startseq; }
      }
    }
  }

  lemma SortedInStep(irs: int, arrived: seq<Seg>, r: Receiver)
    requires Inv(irs, arrived, r) && WithData(arrived)
    ensures InStep(irs, arrived, r)
  {
    forall a | a in arrived ensures !Covers(a, r.rcvNxt) {
      if a.endseq > r.rcvNxt { WaitsBeyond(irs, arrived, r, a); }
    }
    forall i, j | 0 <= i < j < |r.q| ensures r.q[i].startseq < r.q[j].endseq {
      assert r.q[j] in r.q && r.q[j] in arrived;
    }
  }

  lemma SortedAdded(q: seq<Seg>, s: Seg)
    requires q != [] && Sorted(q) && s.startseq <= q[0].startseq
    ensures Sorted([s] + q)
  {
    var all := [s] + q;
    forall i, j | 0 <= i < j < |all| ensures all[i].startseq <= all[j].startseq {
      assert all[j] == q[j - 1];
      if i > 0 { assert all[i] == q[i - 1]; } else { SortedHead(q, q[j - 1]); }
    }
  }

  /** In front of a sorted queue a step is right exactly when nothing is trimmed and the last segment taken off
      reaches furthest. */
  lemma SortedRight(q: seq<Seg>, nxt: int, s: Seg)
    requires q != [] && Sorted(q) && WithData(q) && s.startseq <= nxt < s.endseq
    requires Counted(nxt, s).endseq <= q[0].startseq
    ensures StepRight(Receiver(nxt, q), s) <==> s.startseq == nxt && LastReachesFurthest([s] + q)
  {
    var t := Counted(nxt, s);
    forall w, b | w in q && b < t.endseq ensures !Covers(w, b) { SortedHead(q, w); }
    if s.startseq == nxt {
      assert t == s;
      SortedAdded(q, s);
      DrainedRight([s] + q);
    } else {
      assert !Received(q, s.endseq);
    }
  }

  /** For a receiver whose queue is sorted: after a segment, cut in any way, the first byte that has not arrived is
      expected next exactly when the segment is old, or late, or nothing waits, or it starts at the byte that was
      expected, does not reach into the head of the queue, and the last segment that draining takes off reaches
      furthest. */
  lemma FirstMissingIff(irs: int, arrived: seq<Seg>, r: Receiver, s: Seg)
    requires Inv(irs, arrived, r) && WithData(arrived) && irs <= s.startseq < s.endseq
    ensures Exact(irs, arrived + [s], Recv(r, s).rcvNxt) <==>
              || s.endseq <= r.rcvNxt || s.startseq > r.rcvNxt || r.q == []
              || (s.startseq == r.rcvNxt && s.endseq <= r.q[0].startseq && LastReachesFurthest([s] + r.q))
  {
    SortedInStep(irs, arrived, r);
    StepExact(irs, arrived, r, s);
    if s.startseq <= r.rcvNxt < s.endseq && r.q != [] && Counted(r.rcvNxt, s).endseq <= r.q[0].startseq {
      assert WithData(r.q);
      SortedRight(r.q, r.rcvNxt, s);
    }
  }

  // ---------------------------------------------------------------- how it goes wrong

  lemma RecvTwo(irs: int, a: Seg, b: Seg)
    ensures RecvAll(irs, [a, b]) == Recv(Recv(Receiver(irs, []), a), b)
  {
    assert [a, b][..1] == [a] && [a][..0] == [];
    assert RecvAll(irs, [a]) == Recv(RecvAll(irs, []), a);
  }

  /** When the second of two segments has the next byte and reaches into the first, which waits, the next byte has
      arrived but stays expected. */
  lemma OverlapSticks(irs: int, a: Seg, b: Seg)
    requires irs == b.startseq < a.startseq < b.endseq && a.startseq < a.endseq
    ensures RecvAll(irs, [a, b]).rcvNxt == irs && Received([a, b], irs)
  {
    RecvTwo(irs, a, b);
    RecvLast(irs, [], a);
    assert [] + [a] == [a];
    HeadRecv(Receiver(irs, [a]), b);
    assert b in [a, b] && Covers(b, irs);
  }

  lemma RecvThree(irs: int, a: Seg, b: Seg, c: Seg)
    ensures RecvAll(irs, [a, b, c]) == Recv(Recv(Recv(Receiver(irs, []), a), b), c)
  {
    assert [a, b, c][..2] == [a, b] && [a, b][..1] == [a] && [a][..0] == [];
    assert RecvAll(irs, [a, b]) == Recv(RecvAll(irs, [a]), b);
  }

  lemma RecvLast(nxt: int, q: seq<Seg>, s: Seg)
    requires nxt < s.startseq < s.endseq && (q != [] ==> q[0].startseq > nxt)
    requires forall k :: 0 <= k < |q| ==> q[k].startseq < s.endseq
    ensures Recv(Receiver(nxt, q), s) == Receiver(nxt, q + [s])
  {
    assert Place(q, s) == |q|;
    assert Insert(q, s) == q + [s];
    RecvAdds(Receiver(nxt, q), s);
  }

  lemma DrainContained(a: Seg, b: Seg, c: Seg)
    requires c.endseq == a.startseq < b.startseq <= a.endseq
    ensures Drain([c, a, b]) == Drained(b.endseq, [], c.flags + (a.flags + b.flags))
  {
    assert [c, a, b][1..] == [a, b] && [a, b][1..] == [b] && [b][1..] == [];
    assert Drain([b]) == Drained(b.endseq, [], b.flags);
    assert Drain([a, b]) == Drained(b.endseq, [], a.flags + b.flags);
  }

  /** Cut in more than one way: when c fills the hole before a, with a waiting and b starting within it, the end of
      b is expected next. That byte is missing exactly when b reaches to the end of a; a segment b inside a takes
      the next byte expected back to bytes that have arrived. */
  lemma ContainedMovesBack(irs: int, a: Seg, b: Seg, c: Seg)
    requires irs == c.startseq < c.endseq == a.startseq < b.startseq <= a.endseq && b.startseq < b.endseq
    ensures RecvAll(irs, [a, b, c]).rcvNxt == b.endseq
    ensures !Received([a, b, c], b.endseq) <==> a.endseq <= b.endseq
  {
    RecvThree(irs, a, b, c);
    AfterTwo(irs, a, b);
    ContainedDrains(irs, a, b, c);
    assert b.endseq < a.endseq ==> Covers(a, b.endseq) && a in [a, b, c];
  }

  lemma ContainedDrains(irs: int, a: Seg, b: Seg, c: Seg)
    requires irs == c.startseq < c.endseq == a.startseq < b.startseq <= a.endseq && b.startseq < b.endseq
    ensures Recv(Receiver(irs, [a, b]), c).rcvNxt == b.endseq
  {
    RecvAdds(Receiver(irs, [a, b]), c);
    assert Insert([a, b], c) == [c, a, b];
    DrainContained(a, b, c);
    assert Add(irs, [a, b], c) == Drain([c, a, b]);
  }

  lemma AfterTwo(irs: int, a: Seg, b: Seg)
    requires irs < a.startseq < b.startseq <= a.endseq && b.startseq < b.endseq
    ensures Recv(Recv(Receiver(irs, []), a), b) == Receiver(irs, [a, b])
  {
    RecvLast(irs, [], a);
    assert [] + [a] == [a] && [a] + [b] == [a, b];
    assert Place([a], b) == 1 && Insert([a], b) == [a, b];
    RecvAdds(Receiver(irs, [a]), b);
  }

  lemma {:induction false} BeyondHead(irs: int, arrived: seq<Seg>, r: Receiver, b: int)
    requires Inv(irs, arrived, r) && r.q != [] && r.rcvNxt <= b < r.q[0].startseq
    ensures !Received(arrived, b)
  {
    forall a | a in arrived ensures !Covers(a, b) {
      if Waits(r.q, a) {
        var w :| w in r.q && SameBytes(w, a);
        SortedHead(r.q, w);
      }
    }
  }

  /** A segment before the whole queue goes to its head, and out again at once. */
  lemma InsertAtHead(q: seq<Seg>, t: Seg)
    requires q != [] && Sorted(q) && WithData(q) && t.endseq < q[0].startseq && t.startseq < t.endseq
    ensures Insert(q, t) == [t] + q && Drain([t] + q) == Drained(t.endseq, q, t.flags)
  {
    assert q[|q| - 1] in q && q[0].startseq <= q[|q| - 1].startseq;
    assert FirstFrom(q, t.endseq) == 0;
    assert Place(q, t) == 0;
    assert q[..0] == [] && q[0..] == q;
    assert ([t] + q)[1..] == q;
  }

  lemma AddAtHead(nxt: int, q: seq<Seg>, t: Seg)
    requires q != [] && Sorted(q) && WithData(q) && nxt == t.startseq < t.endseq < q[0].startseq
    ensures Add(nxt, q, t) == Drained(t.endseq, q, t.flags)
  {
    InsertAtHead(q, t);
  }

  lemma TrimmedStep(r: Receiver, s: Seg)
    requires r.q != [] && Sorted(r.q) && WithData(r.q) && s.startseq <= r.rcvNxt < s.endseq
    requires r.rcvNxt + (s.endseq - s.startseq) < r.q[0].startseq
    ensures Recv(r, s) == Receiver(r.rcvNxt + (s.endseq - s.startseq), r.q)
  {
    RecvTrimmed(r, s);
    AddAtHead(r.rcvNxt, r.q, Seg(r.rcvNxt, r.rcvNxt + (s.endseq - s.startseq), s.flags));
  }

  /** For every receiver in order, whatever has arrived so far: when a segment with the next byte arrives while the
      head of the queue is out of its reach, the segment is counted by its full size from the next byte expected on.
      All bytes before the new next byte have arrived exactly when nothing was trimmed from the segment. */
  lemma TrimmedOverruns(irs: int, arrived: seq<Seg>, r: Receiver, s: Seg)
    requires Inv(irs, arrived, r) && WithData(arrived) && r.q != [] && s.startseq <= r.rcvNxt < s.endseq
    requires r.rcvNxt + (s.endseq - s.startseq) < r.q[0].startseq
    ensures Recv(r, s).rcvNxt == r.rcvNxt + (s.endseq - s.startseq)
    ensures (forall p :: irs <= p < Recv(r, s).rcvNxt ==> Received(arrived + [s], p)) <==> s.startseq == r.rcvNxt
  {
    TrimmedStep(r, s);
    var next := Recv(r, s).rcvNxt;
    if s.startseq == r.rcvNxt {
      forall p | irs <= p < next ensures Received(arrived + [s], p) {
        if p < r.rcvNxt { MoreReceived(arrived, s, p); } else { assert s in arrived + [s] && Covers(s, p); }
      }
    } else {
      BeyondHead(irs, arrived, r, s.endseq);
      forall a | a in arrived + [s] ensures !Covers(a, s.endseq) {
        if a in arrived { assert !Received(arrived, s.endseq); }
      }
      assert irs <= s.endseq < next && !Received(arrived + [s], s.endseq);
    }
  }
}
