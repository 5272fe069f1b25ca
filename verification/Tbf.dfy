/** The token bucket filter. */
module Tbf {
  // A shaper whose timer releases the head of its queue when enough tokens have come in.

  import opened Common

  /** A packet of size bytes. */
  datatype Packet = Packet(uid: int, size: nat)

  datatype Departure = Departure(p: Packet, at: real)

  /** The parameters rate_, bucket_ and qlen_. */
  datatype Config = Config(rate: real, bucket: int, qlen: int)

  predicate ConfigOk(c: Config) {
    c.rate > 0.0 && c.bucket >= 0
  }

  function Bits(p: Packet): real {
    (8 * p.size) as real
  }

  /** The fields of the filter, the instant its timer is set to, the time of its last event and what it has
      sent and dropped. */
  datatype State = State(
    tokens: real, lastUpdate: real, init: bool, q: seq<Packet>, timer: Option<real>,
    clock: real, sent: seq<Departure>, dropped: seq<Packet>)

  function NewFilter(): State {
    State(0.0, 0.0, true, [], None, 0.0, [], [])
  }

  function Min(a: real, b: real): real {
    if a > b then b else a
  }

  /** The tokens that come in within a time. */
  function Earn(c: Config, time: real): real {
    time * c.rate
  }

  /** The bucket after the tokens of the time since the last update have come in. */
  function Refill(c: Config, s: State, now: real): State {
    s.(tokens := Min(s.tokens + Earn(c, now - s.lastUpdate), c.bucket as real), lastUpdate := now)
  }

  function Started(c: Config, s: State, now: real): State {
    if s.init then s.(tokens := c.bucket as real, lastUpdate := now, init := false) else s
  }

  function Emit(s: State, p: Packet, now: real): State {
    s.(sent := s.sent + [Departure(p, now)], tokens := s.tokens - Bits(p))
  }

  function SetTimer(c: Config, s: State, p: Packet, now: real): State
    requires ConfigOk(c)
  {
    s.(timer := Some(now + (Bits(p) - s.tokens) / c.rate))
  }

  function Recv(c: Config, s: State, p: Packet, now: real): State
    requires ConfigOk(c)
  {
    var s0 := Started(c, s, now).(clock := now);
    if s0.q != [] then
      if |s0.q| < c.qlen then s0.(q := s0.q + [p]) else s0.(dropped := s0.dropped + [p])
    else
      var s1 := Refill(c, s0, now);
      if s1.tokens >= Bits(p) then Emit(s1, p, now)
      else if c.qlen != 0 then SetTimer(c, s1.(q := [p]), p, now)
      else s1.(dropped := s1.dropped + [p])
  }

  function Timeout(c: Config, s: State, now: real): State
    requires ConfigOk(c) && s.q != []
  {
    var s1 := Emit(Refill(c, s.(q := s.q[1..], timer := None, clock := now), now), s.q[0], now);
    if s1.q == [] then s1 else SetTimer(c, s1, s1.q[0], now)
  }

  // ---------------------------------------------------------------- runs

  datatype Event = Arrive(p: Packet, now: real) | Expire(now: real)

  /** Time does not run backwards, and the timer expires exactly when it is due. */
  predicate Enabled(s: State, ev: Event) {
    && ev.now >= s.clock
    && (s.timer.Some? ==> ev.now <= s.timer.value)
    && (ev.Expire? ==> s.timer == Some(ev.now) && s.q != [])
  }

  function Handle(c: Config, s: State, ev: Event): State
    requires ConfigOk(c) && Enabled(s, ev)
  {
    if ev.Arrive? then Recv(c, s, ev.p, ev.now) else Timeout(c, s, ev.now)
  }

  ghost predicate Run(c: Config, run: seq<State>, evs: seq<Event>) {
    && ConfigOk(c) && |run| == |evs| + 1 && run[0] == NewFilter()
    && forall i :: 0 <= i < |evs| ==> Enabled(run[i], evs[i]) && run[i + 1] == Handle(c, run[i], evs[i])
  }

  // ---------------------------------------------------------------- the envelope

  /** The bits that left in the closed interval from a to b. */
  function SentIn(sent: seq<Departure>, a: real, b: real): real {
    if sent == [] then 0.0
    else
      var d := sent[|sent| - 1];
      SentIn(sent[..|sent| - 1], a, b) + if a <= d.at <= b then Bits(d.p) else 0.0
  }

  /** Over every interval, no more than the bucket and what the rate adds. */
  ghost predicate Envelope(c: Config, sent: seq<Departure>) {
    forall a, b :: a <= b ==> SentIn(sent, a, b) <= c.bucket as real + Earn(c, b - a)
  }

  predicate Fits(c: Config, p: Packet) {
    8 * p.size <= c.bucket
  }

  predicate AllFit(c: Config, sent: seq<Departure>) {
    forall i :: 0 <= i < |sent| ==> Fits(c, sent[i].p)
  }

  /** The tokens left bound what can have left since any instant up to the last update. */
  ghost predicate Budget(c: Config, s: State) {
    forall a :: a <= s.lastUpdate ==>
      SentIn(s.sent, a, s.lastUpdate) + s.tokens <= c.bucket as real + Earn(c, s.lastUpdate - a)
  }

  /** A queue that is not empty has the timer set to the instant at which its head conforms. */
  ghost predicate TimerOk(c: Config, s: State) {
    && (s.timer.Some? <==> s.q != [])
    && (s.q != [] ==> s.timer.value >= s.clock && s.tokens + Earn(c, s.timer.value - s.lastUpdate) == Bits(s.q[0]))
  }

  ghost predicate Inv(c: Config, s: State) {
    && ConfigOk(c) && s.tokens <= c.bucket as real && s.lastUpdate <= s.clock
    && (s.init ==> s.sent == [] && s.q == [])
    && (forall i :: 0 <= i < |s.sent| ==> s.sent[i].at <= s.lastUpdate)
    && TimerOk(c, s) && (!s.init ==> Budget(c, s))
    && (AllFit(c, s.sent) ==> s.tokens >= 0.0 && Envelope(c, s.sent))
  }

  lemma EarnMono(c: Config, a: real, b: real)
    requires ConfigOk(c) && a <= b
    ensures Earn(c, a) <= Earn(c, b) && Earn(c, 0.0) == 0.0
  {
  }

  lemma EarnAdd(c: Config, a: real, b: real)
    ensures Earn(c, a + b) == Earn(c, a) + Earn(c, b)
  {
  }

  lemma EarnQuotient(c: Config, need: real)
    requires ConfigOk(c) && need >= 0.0
    ensures Earn(c, need / c.rate) == need && need / c.rate >= 0.0
  {
  }

  lemma {:induction false} NothingAfter(sent: seq<Departure>, a: real, b: real, last: real)
    requires forall i :: 0 <= i < |sent| ==> sent[i].at <= last
    ensures a > last ==> SentIn(sent, a, b) == 0.0
    ensures b >= last ==> SentIn(sent, a, b) == SentIn(sent, a, last)
  {
    if sent != [] { NothingAfter(sent[..|sent| - 1], a, b, last); }
  }

  lemma Append(sent: seq<Departure>, d: Departure, a: real, b: real)
    ensures SentIn(sent + [d], a, b) == SentIn(sent, a, b) + if a <= d.at <= b then Bits(d.p) else 0.0
  {
    assert (sent + [d])[..|sent|] == sent;
  }

  /** More tokens come in no faster than the rate, so the bound stays. */
  lemma RefillBudget(c: Config, s: State, now: real)
    requires ConfigOk(c) && Budget(c, s) && s.lastUpdate <= now
    requires forall i :: 0 <= i < |s.sent| ==> s.sent[i].at <= s.lastUpdate
    ensures Budget(c, Refill(c, s, now))
  {
    var s' := Refill(c, s, now);
    forall a | a <= now ensures SentIn(s.sent, a, now) + s'.tokens <= c.bucket as real + Earn(c, now - a) {
      NothingAfter(s.sent, a, now, s.lastUpdate);
      if a <= s.lastUpdate {
        EarnAdd(c, s.lastUpdate - a, now - s.lastUpdate);
      } else {
        EarnMono(c, 0.0, now - a);
      }
    }
  }

  lemma EmitBudget(c: Config, s: State, p: Packet)
    requires Budget(c, s)
    ensures Budget(c, Emit(s, p, s.lastUpdate))
  {
    var s' := Emit(s, p, s.lastUpdate);
    forall a | a <= s.lastUpdate
      ensures SentIn(s'.sent, a, s.lastUpdate) + s'.tokens <= c.bucket as real + Earn(c, s.lastUpdate - a)
    {
      Append(s.sent, Departure(p, s.lastUpdate), a, s.lastUpdate);
    }
  }

  /** A departure that leaves no debt keeps within the envelope. */
  lemma EmitEnvelope(c: Config, s: State, p: Packet)
    requires ConfigOk(c) && Budget(c, s) && Envelope(c, s.sent) && s.tokens >= Bits(p)
    requires forall i :: 0 <= i < |s.sent| ==> s.sent[i].at <= s.lastUpdate
    ensures Envelope(c, Emit(s, p, s.lastUpdate).sent)
  {
    var s' := Emit(s, p, s.lastUpdate);
    var now := s.lastUpdate;
    EmitBudget(c, s, p);
    forall a, b | a <= b ensures SentIn(s'.sent, a, b) <= c.bucket as real + Earn(c, b - a) {
      Append(s.sent, Departure(p, now), a, b);
      if a <= now <= b {
        NothingAfter(s'.sent, a, b, now);
        assert SentIn(s'.sent, a, now) + s'.tokens <= c.bucket as real + Earn(c, now - a);
        EarnMono(c, now - a, b - a);
      } else {
        assert SentIn(s.sent, a, b) <= c.bucket as real + Earn(c, b - a);
      }
    }
  }

  lemma AllFitEmit(c: Config, sent: seq<Departure>, d: Departure)
    ensures AllFit(c, sent + [d]) <==> AllFit(c, sent) && Fits(c, d.p)
  {
    assert (sent + [d])[|sent|] == d;
    if AllFit(c, sent + [d]) {
      forall i | 0 <= i < |sent| ensures Fits(c, sent[i].p) { assert (sent + [d])[i] == sent[i]; }
    }
  }

  /** One packet leaves at the time of the last update. */
  lemma EmitInv(c: Config, s: State, p: Packet, now: real)
    requires Inv(c, s) && !s.init && s.q == [] && s.lastUpdate == s.clock == now
    requires Fits(c, p) && AllFit(c, s.sent) ==> s.tokens >= Bits(p)
    ensures Inv(c, Emit(s, p, now))
  {
    EmitBudget(c, s, p);
    AllFitEmit(c, s.sent, Departure(p, now));
    if Fits(c, p) && AllFit(c, s.sent) { EmitEnvelope(c, s, p); }
  }

  lemma SetTimerInv(c: Config, s: State, q: seq<Packet>, now: real)
    requires Inv(c, s) && !s.init && s.q == [] && q != [] && s.lastUpdate == s.clock == now && s.tokens <= Bits(q[0])
    ensures Inv(c, SetTimer(c, s.(q := q), q[0], now))
  {
    var s' := SetTimer(c, s.(q := q), q[0], now);
    var need := Bits(q[0]) - s.tokens;
    EarnQuotient(c, need);
    assert s'.timer.value - s'.lastUpdate == need / c.rate;
  }

  lemma RefillInv(c: Config, s: State, now: real)
    requires Inv(c, s) && !s.init && s.q == [] && now >= s.clock
    ensures Inv(c, Refill(c, s.(clock := now), now))
  {
    var s' := Refill(c, s.(clock := now), now);
    RefillBudget(c, s.(clock := now), now);
    EarnMono(c, 0.0, now - s.lastUpdate);
    assert s'.tokens >= Min(s.tokens, c.bucket as real);
    assert s'.sent == s.sent;
  }

  lemma StartedInv(c: Config, s: State, now: real)
    requires Inv(c, s) && now >= s.clock && (s.timer.Some? ==> now <= s.timer.value)
    ensures Inv(c, Started(c, s, now).(clock := now)) && !Started(c, s, now).init
  {
    var s' := Started(c, s, now).(clock := now);
    if s.init {
      forall a | a <= now ensures SentIn([], a, now) + s'.tokens <= c.bucket as real + Earn(c, now - a) {
        EarnMono(c, 0.0, now - a);
      }
    }
  }

  lemma EnqueueInv(c: Config, s: State, p: Packet)
    requires Inv(c, s) && s.q != []
    ensures Inv(c, s.(q := s.q + [p]))
  {
  }

  lemma DropInv(c: Config, s: State, p: Packet)
    requires Inv(c, s)
    ensures Inv(c, s.(dropped := s.dropped + [p]))
  {
  }

  lemma RecvInv(c: Config, s: State, p: Packet, now: real)
    requires Inv(c, s) && Enabled(s, Arrive(p, now))
    ensures Inv(c, Recv(c, s, p, now))
  {
    var s0 := Started(c, s, now).(clock := now);
    StartedInv(c, s, now);
    var s' := Recv(c, s, p, now);
    if s0.q != [] {
      if |s0.q| < c.qlen { EnqueueInv(c, s0, p); } else { DropInv(c, s0, p); }
    } else {
      var s1 := Refill(c, s0, now);
      RefillInv(c, s0, now);
      if s1.tokens >= Bits(p) {
        assert s' == Emit(s1, p, now);
        EmitInv(c, s1, p, now);
      } else if c.qlen != 0 {
        assert s' == SetTimer(c, s1.(q := [p]), p, now);
        SetTimerInv(c, s1, [p], now);
      } else {
        assert s' == s1.(dropped := s1.dropped + [p]);
        DropInv(c, s1, p);
      }
    }
  }

  /** When the timer expires the tokens are exactly those of the head, unless it is larger than the bucket. */
  lemma TimeoutTokens(c: Config, s: State, q: seq<Packet>, now: real)
    requires Inv(c, s) && Enabled(s, Expire(now))
    ensures Refill(c, s.(q := q, timer := None, clock := now), now).tokens == Min(Bits(s.q[0]), c.bucket as real)
  {
  }

  lemma DepartInv(c: Config, s: State, now: real)
    requires Inv(c, s) && Enabled(s, Expire(now))
    ensures var s1 := Emit(Refill(c, s.(q := [], timer := None, clock := now), now), s.q[0], now);
            Inv(c, s1) && s1.tokens <= 0.0
  {
    var empty := s.(q := [], timer := None);
    assert Inv(c, empty);
    RefillInv(c, empty, now);
    TimeoutTokens(c, s, [], now);
    EmitInv(c, Refill(c, empty.(clock := now), now), s.q[0], now);
  }

  lemma TimeoutInv(c: Config, s: State, now: real)
    requires Inv(c, s) && Enabled(s, Expire(now))
    ensures Inv(c, Timeout(c, s, now))
  {
    DepartInv(c, s, now);
    var s1 := Emit(Refill(c, s.(q := [], timer := None, clock := now), now), s.q[0], now);
    if |s.q| > 1 {
      SetTimerInv(c, s1, s.q[1..], now);
      assert Timeout(c, s, now) == SetTimer(c, s1.(q := s.q[1..]), s.q[1], now);
    } else {
      assert Timeout(c, s, now) == s1;
    }
  }

  lemma {:induction false} RunInv(c: Config, run: seq<State>, evs: seq<Event>, i: nat)
    requires Run(c, run, evs) && i < |run|
    ensures Inv(c, run[i])
  {
    if i == 0 {
      forall a, b | a <= b ensures SentIn([], a, b) <= c.bucket as real + Earn(c, b - a) { EarnMono(c, 0.0, b - a); }
    } else {
      RunInv(c, run, evs, i - 1);
      var ev := evs[i - 1];
      assert run[i - 1 + 1] == Handle(c, run[i - 1], ev);
      if ev.Arrive? { RecvInv(c, run[i - 1], ev.p, ev.now); } else { TimeoutInv(c, run[i - 1], ev.now); }
    }
  }

  // ---------------------------------------------------------------- main results

  lemma {:induction false} OneDeparture(sent: seq<Departure>, k: nat)
    requires k < |sent|
    ensures SentIn(sent, sent[k].at, sent[k].at) >= Bits(sent[k].p)
  {
    var n := |sent| - 1;
    if k < n { OneDeparture(sent[..n], k); } else { SentNonNegative(sent[..n], sent[k].at, sent[k].at); }
  }

  lemma {:induction false} SentNonNegative(sent: seq<Departure>, a: real, b: real)
    ensures SentIn(sent, a, b) >= 0.0
  {
    if sent != [] { SentNonNegative(sent[..|sent| - 1], a, b); }
  }

  /** The output of a run keeps to the envelope over every interval exactly when every packet that left fits the
      bucket. */
  lemma Conformance(c: Config, run: seq<State>, evs: seq<Event>, i: nat)
    requires Run(c, run, evs) && i < |run|
    ensures Envelope(c, run[i].sent) <==> AllFit(c, run[i].sent)
  {
    RunInv(c, run, evs, i);
    var sent := run[i].sent;
    if Envelope(c, sent) {
      forall k | 0 <= k < |sent| ensures Fits(c, sent[k].p) {
        OneDeparture(sent, k);
        assert SentIn(sent, sent[k].at, sent[k].at) <= c.bucket as real + Earn(c, sent[k].at - sent[k].at);
      }
    }
  }

  ghost predicate ArrivalsIn(evs: seq<Event>, packets: iset<Packet>) {
    forall i :: 0 <= i < |evs| && evs[i].Arrive? ==> evs[i].p in packets
  }

  /** Whatever packets of this kind arrive, and whenever they do, the output keeps to the envelope. */
  ghost predicate Shapes(c: Config, packets: iset<Packet>) {
    forall run: seq<State>, evs: seq<Event>, i: nat ::
      Run(c, run, evs) && ArrivalsIn(evs, packets) && i < |run| ==> Envelope(c, run[i].sent)
  }

  /** What a filter for these packets holds and has sent: with a queue only such packets, without one only packets that
      fit the bucket. */
  ghost predicate Handled(c: Config, s: State, packets: iset<Packet>) {
    && (forall k :: 0 <= k < |s.q| ==> s.q[k] in packets)
    && (forall k :: 0 <= k < |s.sent| ==> s.sent[k].p in packets)
    && (c.qlen == 0 ==> s.q == [] && AllFit(c, s.sent))
  }

  /** One packet more, sent or queued; what there is no queue for was sent only with the tokens for it. */
  lemma HandledArrival(c: Config, s: State, p: Packet, now: real, packets: iset<Packet>)
    requires Inv(c, s) && Enabled(s, Arrive(p, now)) && Handled(c, s, packets) && p in packets
    ensures Handled(c, Recv(c, s, p, now), packets)
  {
    var s' := Recv(c, s, p, now);
    RecvPlaces(c, s, p, now);
    AllFitEmit(c, s.sent, Departure(p, now));
    SentFits(c, s, p, now);
  }

  lemma SentFits(c: Config, s: State, p: Packet, now: real)
    requires Inv(c, s) && Enabled(s, Arrive(p, now))
    ensures Recv(c, s, p, now).sent != s.sent ==> Fits(c, p)
    ensures c.qlen == 0 && s.q == [] ==> Recv(c, s, p, now).q == []
  {
  }

  lemma HandledExpiry(c: Config, s: State, now: real, packets: iset<Packet>)
    requires Inv(c, s) && Enabled(s, Expire(now)) && Handled(c, s, packets)
    ensures Handled(c, Timeout(c, s, now), packets)
  {
    TimeoutPlaces(c, s, now);
    assert forall k :: 0 <= k < |s.q| - 1 ==> Timeout(c, s, now).q[k] == s.q[1..][k];
  }

  lemma {:induction false} HandledInRun(c: Config, run: seq<State>, evs: seq<Event>, packets: iset<Packet>, i: nat)
    requires Run(c, run, evs) && ArrivalsIn(evs, packets) && i < |run|
    ensures Handled(c, run[i], packets)
  {
    if i > 0 {
      HandledInRun(c, run, evs, packets, i - 1);
      RunInv(c, run, evs, i - 1);
      assert run[i - 1 + 1] == Handle(c, run[i - 1], evs[i - 1]);
      var ev := evs[i - 1];
      if ev.Arrive? { HandledArrival(c, run[i - 1], ev.p, ev.now, packets); }
      else { HandledExpiry(c, run[i - 1], ev.now, packets); }
    }
  }

  /** The run in which one packet that does not fit arrives and leaves when the timer expires. */
  lemma LargePacketLeaves(c: Config, p: Packet) returns (run: seq<State>, evs: seq<Event>)
    requires ConfigOk(c) && c.qlen != 0 && !Fits(c, p)
    ensures Run(c, run, evs) && ArrivalsIn(evs, iset{p}) && |run| == 3 && !Envelope(c, run[2].sent)
  {
    var s1 := Recv(c, NewFilter(), p, 0.0);
    var due := (Bits(p) - c.bucket as real) / c.rate;
    EarnQuotient(c, Bits(p) - c.bucket as real);
    assert Started(c, NewFilter(), 0.0).lastUpdate == 0.0;
    EarnMono(c, 0.0, 0.0);
    assert s1.q == [p] && s1.timer == Some(0.0 + due);
    evs := [Arrive(p, 0.0), Expire(due)];
    run := [NewFilter(), s1, Timeout(c, s1, due)];
    assert Run(c, run, evs);
    RunInv(c, run, evs, 1);
    TimeoutPlaces(c, s1, due);
    assert run[2].sent[0].p == p;
    Conformance(c, run, evs, 2);
  }

  /** The filter shapes packets of a kind exactly when it has no queue or each of them fits the bucket. */
  lemma ShapesIffFit(c: Config, packets: iset<Packet>)
    requires ConfigOk(c)
    ensures Shapes(c, packets) <==> c.qlen == 0 || forall p :: p in packets ==> Fits(c, p)
  {
    if c.qlen == 0 || forall p :: p in packets ==> Fits(c, p) {
      forall run: seq<State>, evs: seq<Event>, i: nat | Run(c, run, evs) && ArrivalsIn(evs, packets) && i < |run|
        ensures Envelope(c, run[i].sent)
      {
        HandledInRun(c, run, evs, packets, i);
        Conformance(c, run, evs, i);
      }
    } else {
      var p :| p in packets && !Fits(c, p);
      var run, evs := LargePacketLeaves(c, p);
      assert ArrivalsIn(evs, packets) by {
        forall i | 0 <= i < |evs| && evs[i].Arrive? ensures evs[i].p in packets { assert evs[i].p in iset{p}; }
      }
    }
  }

  /** Tokens stay within the bucket, and never run into debt while all packets fit. */
  lemma TokensBounded(c: Config, run: seq<State>, evs: seq<Event>, i: nat)
    requires Run(c, run, evs) && i < |run|
    ensures run[i].tokens <= c.bucket as real && (AllFit(c, run[i].sent) ==> run[i].tokens >= 0.0)
  {
    RunInv(c, run, evs, i);
  }

  /** The timer is pending exactly while packets wait, never set into the past, and due when the head conforms. */
  lemma TimerAtConformance(c: Config, run: seq<State>, evs: seq<Event>, i: nat)
    requires Run(c, run, evs) && i < |run|
    ensures run[i].timer.Some? <==> run[i].q != []
    ensures run[i].q != [] ==>
              && run[i].timer.value >= run[i].clock
              && Refill(c, run[i], run[i].timer.value).tokens == Min(Bits(run[i].q[0]), c.bucket as real)
  {
    RunInv(c, run, evs, i);
  }

  function PacketsOf(sent: seq<Departure>): (r: seq<Packet>)
    ensures |r| == |sent|
  {
    seq(|sent|, i requires 0 <= i < |sent| => sent[i].p)
  }

  /** What has arrived so far and was not dropped on arrival. */
  function Accepted(run: seq<State>, evs: seq<Event>, i: nat): seq<Packet>
    requires i < |run| == |evs| + 1
  {
    if i == 0 then []
    else
      Accepted(run, evs, i - 1)
      + (if evs[i - 1].Arrive? && run[i].dropped == run[i - 1].dropped then [evs[i - 1].p] else [])
  }

  /** An arrival is dropped, sent at once past an empty queue, or queued behind the others. */
  lemma RecvPlaces(c: Config, s: State, p: Packet, now: real)
    requires Inv(c, s) && Enabled(s, Arrive(p, now))
    ensures var s' := Recv(c, s, p, now);
            || (s'.dropped == s.dropped + [p] && s'.sent == s.sent && s'.q == s.q)
            || (s'.dropped == s.dropped && s'.sent == s.sent + [Departure(p, now)] && s'.q == s.q == [])
            || (s'.dropped == s.dropped && s'.sent == s.sent && s'.q == s.q + [p])
  {
  }

  lemma TimeoutPlaces(c: Config, s: State, now: real)
    requires Inv(c, s) && Enabled(s, Expire(now))
    ensures var s' := Timeout(c, s, now);
            s'.dropped == s.dropped && s'.sent == s.sent + [Departure(s.q[0], now)] && s.q == [s.q[0]] + s'.q
  {
  }

  lemma PacketsAppend(sent: seq<Departure>, d: Departure)
    ensures PacketsOf(sent + [d]) == PacketsOf(sent) + [d.p]
  {
  }

  /** First in, first out: what left, then what waits, is what was accepted, in the order of arrival. */
  lemma {:induction false} FirstInFirstOut(c: Config, run: seq<State>, evs: seq<Event>, i: nat)
    requires Run(c, run, evs) && i < |run|
    ensures PacketsOf(run[i].sent) + run[i].q == Accepted(run, evs, i)
  {
    if i > 0 {
      FirstInFirstOut(c, run, evs, i - 1);
      var s, ev, s' := run[i - 1], evs[i - 1], run[i];
      assert run[i - 1 + 1] == Handle(c, s, ev);
      RunInv(c, run, evs, i - 1);
      if ev.Expire? {
        TimeoutPlaces(c, s, ev.now);
        PacketsAppend(s.sent, Departure(s.q[0], ev.now));
        Concatenation(PacketsOf(s.sent), [s.q[0]], s'.q);
      } else {
        RecvPlaces(c, s, ev.p, ev.now);
        PacketsAppend(s.sent, Departure(ev.p, ev.now));
        Concatenation(PacketsOf(s.sent), s.q, [ev.p]);
      }
    }
  }

  /** A packet is dropped exactly when the queue is at its limit, or has no place at all and tokens lack. */
  lemma DropsWhenFull(c: Config, s: State, p: Packet, now: real)
    requires Inv(c, s) && Enabled(s, Arrive(p, now))
    ensures Recv(c, s, p, now).dropped != s.dropped <==>
              if s.q != [] then |s.q| >= c.qlen
              else c.qlen == 0 && Refill(c, Started(c, s, now), now).tokens < Bits(p)
  {
  }

  /** The tokens there are for a packet that finds the queue empty: the first one finds a full bucket. */
  function Available(c: Config, s: State, now: real): real {
    if s.init then c.bucket as real
    else
      var earned := s.tokens + c.rate * (now - s.lastUpdate);
      if earned > c.bucket as real then c.bucket as real else earned
  }

  /** A packet that finds the queue empty leaves at once exactly when there are tokens for all its bits; else it waits
      until there will be, if it may. */
  lemma LeavesAtOnce(c: Config, s: State, p: Packet, now: real)
    requires ConfigOk(c) && Enabled(s, Arrive(p, now)) && s.q == []
    ensures var s', have, need := Handle(c, s, Arrive(p, now)), Available(c, s, now), (8 * p.size) as real;
            if have >= need then
              s'.sent == s.sent + [Departure(p, now)] && s'.q == [] && s'.dropped == s.dropped
              && s'.tokens == have - need
            else
              && s'.sent == s.sent && s'.tokens == have
              && if c.qlen == 0 then s'.q == [] && s'.dropped == s.dropped + [p]
                 else s'.q == [p] && s'.dropped == s.dropped && s'.timer == Some(now + (need - have) / c.rate)
  {
    EmptyRefill(c, s, now);
  }

  lemma EmptyRefill(c: Config, s: State, now: real)
    ensures Refill(c, Started(c, s, now), now).tokens == Available(c, s, now)
  {
    assert s.init ==> Earn(c, now - now) == 0.0;
    assert Earn(c, now - s.lastUpdate) == c.rate * (now - s.lastUpdate);
  }

  /** The first packet of every run leaves at once exactly when it fits the bucket. */
  lemma FirstPacket(c: Config, run: seq<State>, evs: seq<Event>)
    requires Run(c, run, evs) && evs != [] && evs[0].Arrive?
    ensures run[1].sent == [Departure(evs[0].p, evs[0].now)] <==> 8 * evs[0].p.size <= c.bucket
  {
    assert Enabled(run[0], evs[0]) && run[0 + 1] == Handle(c, run[0], evs[0]);
    LeavesAtOnce(c, run[0], evs[0].p, evs[0].now);
  }

  // ---------------------------------------------------------------- the object

  class Filter {
    const c: Config
    var tokens: real
    var lastUpdate: real
    var init: bool
    var q: seq<Packet>
    var timer: Option<real>
    ghost var clock: real
    var sent: seq<Departure>
    var dropped: seq<Packet>

    ghost function Now(): State
      reads this
    {
      State(tokens, lastUpdate, init, q, timer, clock, sent, dropped)
    }

    ghost predicate Valid()
      reads this
    {
      Inv(c, Now())
    }

    constructor (c: Config)
      requires ConfigOk(c)
      ensures Valid() && this.c == c && Now() == NewFilter()
    {
      this.c := c;
      tokens, lastUpdate, init, q, timer := 0.0, 0.0, true, [], None;
      clock, sent, dropped := 0.0, [], [];
      new;
      forall a, b | a <= b ensures SentIn([], a, b) <= c.bucket as real + Earn(c, b - a) { EarnMono(c, 0.0, b - a); }
    }

    method GetUpdatedTokens(now: real)
      modifies this
      ensures Now() == Refill(c, old(Now()), now)
    {
      tokens := tokens + Earn(c, now - lastUpdate);
      if tokens > c.bucket as real { tokens := c.bucket as real; }
      lastUpdate := now;
    }

    /** The later part of recv: a packet that finds no other leaves, or waits, or is dropped. */
    method SendOrKeep(p: Packet)
      requires ConfigOk(c) && q == []
      modifies this
      ensures var s := old(Now());
              Now() == if s.tokens >= Bits(p) then Emit(s, p, s.lastUpdate)
                       else if c.qlen != 0 then SetTimer(c, s.(q := [p]), p, s.lastUpdate)
                       else s.(dropped := s.dropped + [p])
    {
      var pktsize := (8 * p.size) as real;
      if tokens >= pktsize {
        sent := sent + [Departure(p, lastUpdate)];
        tokens := tokens - pktsize;
      } else if c.qlen != 0 {
        q := [p];
        timer := Some(lastUpdate + (pktsize - tokens) / c.rate);
      } else {
        dropped := dropped + [p];
      }
    }

    /** recv. */
    method Receive(p: Packet, now: real)
      requires Valid() && Enabled(Now(), Arrive(p, now))
      modifies this
      ensures Valid() && Now() == Recv(c, old(Now()), p, now)
    {
      RecvInv(c, Now(), p, now);
      clock := now;
      if init {
        tokens, lastUpdate, init := c.bucket as real, now, false;
      }
      ghost var s0 := Now();
      assert s0 == Started(c, old(Now()), now).(clock := now);
      if q != [] {
        if |q| < c.qlen { q := q + [p]; } else { dropped := dropped + [p]; }
        return;
      }
      GetUpdatedTokens(now);
      assert Now() == Refill(c, s0, now);
      SendOrKeep(p);
    }

    /** timeout: the queue is never found empty. */
    method Expired(now: real)
      requires Valid() && timer == Some(now)
      modifies this
      ensures Valid() && Now() == Timeout(c, old(Now()), now)
    {
      TimeoutInv(c, Now(), now);
      assert q != [];
      var p := q[0];
      q, timer, clock := q[1..], None, now;
      GetUpdatedTokens(now);
      var pktsize := (8 * p.size) as real;
      sent := sent + [Departure(p, now)];
      tokens := tokens - pktsize;
      if q != [] {
        pktsize := (8 * q[0].size) as real;
        timer := Some(now + (pktsize - tokens) / c.rate);
      }
    }
  }
}
