/** How an AODV node searches for a route. */
module AodvSearch {
  // Over its whole life, whatever else happens to it in between.

  import opened Common
  import opened RouteQueue
  import opened OnDemand
  import opened Aodv
  import opened AodvTiming

  /** The entry of node s for dst. */
  function E(s: Node, dst: Addr): Entry {
    Ent(s.rtable, dst)
  }

  /** The fields of an entry that a search reads and writes. */
  function SearchPart(e: Entry): Entry {
    FRESH_ENTRY.(flags := e.flags, reqTimeout := e.reqTimeout, reqCnt := e.reqCnt, reqLastTtl := e.reqLastTtl,
                 lastHopCount := e.lastHopCount, discLatency := e.discLatency)
  }

  predicate OwnRequest(m: Msg, index: Addr, dst: Addr) {
    m.Rreq? && m.src == index && m.dst == dst
  }

  /** The rings of the requests for dst with this source, in the order in which they were sent. */
  function Rings(outbox: seq<Msg>, index: Addr, dst: Addr): seq<int> {
    if outbox == [] then []
    else
      var m := outbox[|outbox| - 1];
      Rings(outbox[..|outbox| - 1], index, dst) + if OwnRequest(m, index, dst) then [m.ttl] else []
  }

  /** The rings of all requests for dst that node s has sent. */
  function Asks(s: Node, dst: Addr): seq<int> {
    Rings(s.outbox, s.index, dst)
  }

  function AskedBy(o: Outcome): seq<int> {
    if o.Asked? then [o.ttl] else []
  }

  predicate Absent(q: seq<Buffered>, dst: Addr) {
    forall k :: 0 <= k < |q| ==> q[k].packet.daddr != dst
  }

  /** The search for dst has not gone on. */
  predicate SameSearch(s: Node, s': Node, dst: Addr) {
    s'.index == s.index && SearchPart(E(s', dst)) == SearchPart(E(s, dst)) && Asks(s', dst) == Asks(s, dst)
  }

  /** There has been one attempt to ask for dst; giving up has emptied the buffer. */
  predicate Tried(s: Node, s': Node, dst: Addr, now: real) {
    var e := E(s, dst);
    && s'.index == s.index
    && SearchPart(E(s', dst)) == SearchPart(AfterAttempt(e, now))
    && Asks(s', dst) == Asks(s, dst) + AskedBy(Attempt(e, now))
    && (Attempt(e, now).Dropped? ==> Absent(s'.rqueue, dst))
  }

  predicate CounterKept(s: Node, s': Node, dst: Addr) {
    E(s, dst).reqCnt <= RREQ_RETRIES + 1 ==> E(s', dst).reqCnt <= RREQ_RETRIES + 1
  }

  /** What a part of an event that learns no routes and buffers no packets does to the search for dst. */
  predicate Calm(s: Node, s': Node, dst: Addr, now: real) {
    && s'.index == s.index && CounterKept(s, s', dst)
    && (E(s, dst).flags == Down ==> SameSearch(s, s', dst) || Tried(s, s', dst, now))
    && (Absent(s.rqueue, dst) ==> Absent(s'.rqueue, dst))
  }

  /** What an event does to it: a route is found, or there is at most one attempt. */
  predicate Sought(s: Node, s': Node, dst: Addr, now: real) {
    && s'.index == s.index && CounterKept(s, s', dst)
    && (E(s, dst).flags == Down ==>
          E(s', dst).flags == Up || SameSearch(s, s', dst) || Tried(s, s', dst, now))
  }

  // ---------------------------------------------------------------- parts of events

  lemma SearchPartOnly(e: Entry, e': Entry, now: real)
    requires SearchPart(e) == SearchPart(e')
    ensures Attempt(e, now) == Attempt(e', now)
    ensures SearchPart(AfterAttempt(e, now)) == SearchPart(AfterAttempt(e', now))
  {
  }

  /** A second attempt at the same time does nothing. */
  lemma AttemptTwice(e: Entry, now: real)
    ensures Attempt(AfterAttempt(e, now), now) == Silent
    ensures AfterAttempt(AfterAttempt(e, now), now) == AfterAttempt(e, now)
  {
    RequestTimeoutBounds(e, now);
  }

  lemma AttemptCounter(e: Entry, now: real)
    ensures e.reqCnt <= RREQ_RETRIES + 1 ==> AfterAttempt(e, now).reqCnt <= RREQ_RETRIES + 1
    ensures AfterAttempt(e, now).flags == e.flags
  {
  }

  lemma CalmTrans(s0: Node, s1: Node, s2: Node, dst: Addr, now: real)
    requires Calm(s0, s1, dst, now) && Calm(s1, s2, dst, now)
    ensures Calm(s0, s2, dst, now)
  {
    var e0, e1 := E(s0, dst), E(s1, dst);
    if e0.flags == Down {
      AttemptCounter(e0, now);
      if SameSearch(s0, s1, dst) {
        SearchPartOnly(e0, e1, now);
      } else {
        SearchPartOnly(AfterAttempt(e0, now), e1, now);
        AttemptTwice(e0, now);
      }
    }
  }

  lemma RingsAppend(outbox: seq<Msg>, m: Msg, index: Addr, dst: Addr)
    ensures Rings(outbox + [m], index, dst)
         == Rings(outbox, index, dst) + if OwnRequest(m, index, dst) then [m.ttl] else []
  {
    assert (outbox + [m])[..|outbox|] == outbox;
  }

  lemma SendSearch(s: Node, m: Msg, dst: Addr)
    requires !OwnRequest(m, s.index, dst)
    ensures SameSearch(s, Send(s, m), dst)
  {
    RingsAppend(s.outbox, m, s.index, dst);
  }

  lemma ForwardDataSearch(s: Node, d: Addr, p: Packet, now: real, dst: Addr)
    ensures SameSearch(s, ForwardData(s, d, p, now), dst) && ForwardData(s, d, p, now).rqueue == s.rqueue
  {
    if !(p.ttl == 0 || p.daddr == s.index) {
      var e := Ent(s.rtable, d).(expire := now + ACTIVE_ROUTE_TIMEOUT);
      SendSearch(Store(s, d, e), Data(p, e.nexthop), dst);
    }
  }

  lemma {:induction false} PurgeAbsent(q: seq<Buffered>, now: real, dst: Addr)
    requires Absent(q, dst)
    ensures Absent(Purge(q, now), dst)
  {
    if q != [] { PurgeAbsent(q[1..], now, dst); }
  }

  lemma {:induction false} WithoutIsAbsent(q: seq<Buffered>, d: Addr, dst: Addr)
    ensures d == dst || Absent(q, dst) ==> Absent(Without(q, d), dst)
  {
    if q != [] { WithoutIsAbsent(q[1..], d, dst); }
  }

  lemma {:induction false} FlushSearch(s: Node, d: Addr, now: real, dst: Addr)
    ensures SameSearch(s, Flush(s, d, now), dst)
    ensures Absent(s.rqueue, dst) ==> Absent(Flush(s, d, now).rqueue, dst)
    decreases |s.rqueue|
  {
    var q := Purge(s.rqueue, now);
    var i := FindDst(q, d);
    if Absent(s.rqueue, dst) { PurgeAbsent(s.rqueue, now, dst); }
    if i < |q| {
      var s1 := s.(rqueue := RemoveAt(q, i));
      ForwardDataSearch(s1, d, q[i].packet, now, dst);
      FlushSearch(ForwardData(s1, d, q[i].packet, now), d, now, dst);
    }
  }

  lemma SendRequestTried(s: Node, dst: Addr, now: real)
    ensures Tried(s, SendRequest(s, dst, now), dst, now)
    ensures Absent(s.rqueue, dst) ==> Absent(SendRequest(s, dst, now).rqueue, dst)
  {
    var e := E(s, dst);
    var s' := SendRequest(s, dst, now);
    match RequestDecision(e, now)
    case HasRoute =>
    case TooSoon =>
    case GiveUp => WithoutIsAbsent(Purge(s.rqueue, now), dst, dst);
    case SendRreq => RingsAppend(s.outbox, s'.outbox[|s.outbox|], s.index, dst);
  }

  lemma RequestOther(s: Node, d: Addr, now: real, dst: Addr)
    requires d != dst && RequestDecision(E(s, d), now) == SendRreq
    ensures SameSearch(s, SendRequest(s, d, now), dst) && E(SendRequest(s, d, now), dst) == E(s, dst)
  {
    RingsAppend(s.outbox, SendRequest(s, d, now).outbox[|s.outbox|], s.index, dst);
  }

  lemma SendRequestOther(s: Node, d: Addr, now: real, dst: Addr)
    requires d != dst
    ensures SameSearch(s, SendRequest(s, d, now), dst) && E(SendRequest(s, d, now), dst) == E(s, dst)
    ensures Absent(s.rqueue, dst) ==> Absent(SendRequest(s, d, now).rqueue, dst)
  {
    match RequestDecision(E(s, d), now)
    case HasRoute =>
    case TooSoon =>
    case GiveUp =>
      WithoutIsAbsent(Purge(s.rqueue, now), d, dst);
      if Absent(s.rqueue, dst) { PurgeAbsent(s.rqueue, now, dst); }
    case SendRreq => RequestOther(s, d, now, dst);
  }

  lemma SendRequestCalm(s: Node, d: Addr, now: real, dst: Addr)
    ensures Calm(s, SendRequest(s, d, now), dst, now)
  {
    if d == dst {
      SendRequestTried(s, dst, now);
      AttemptCounter(E(s, dst), now);
    } else {
      SendRequestOther(s, d, now, dst);
    }
  }

  lemma {:induction false} HandleLinkFailureCalm(s: Node, id: Addr, dst: Addr, now: real)
    ensures Calm(s, HandleLinkFailure(s, id), dst, now)
  {
    var s1 := s.(rtable := FailTable(s.rtable, id));
    var us := FailReport(s.rtable, s.rlist, id);
    if us != [] { SendSearch(s1, Rerr(s.index, us), dst); }
  }

  lemma {:induction false} NbPurgeCalm(s: Node, nb: seq<Neighbor>, now: real, dst: Addr)
    ensures Calm(s, NbPurge(s, nb, now), dst, now)
    decreases |nb|
  {
    if nb != [] {
      var s1 := if nb[0].expire <= now then NbDelete(s, nb[0].addr) else s;
      if nb[0].expire <= now {
        var s0 := s.(seqno := s.seqno + 2, nbhead := NbRemove(s.nbhead, nb[0].addr));
        HandleLinkFailureCalm(s0, nb[0].addr, dst, now);
        CalmTrans(s, s0, s1, dst, now);
      }
      NbPurgeCalm(s1, nb[1..], now, dst);
      CalmTrans(s, s1, NbPurge(s, nb, now), dst, now);
    }
  }

  lemma PurgeRouteCalm(s: Node, d: Addr, now: real, dst: Addr)
    ensures Calm(s, PurgeRoute(s, d, now), dst, now)
  {
    var e := E(s, d);
    if e.flags == Up && e.expire < now {
      WithoutIsAbsent(Purge(s.rqueue, now), d, dst);
      if Absent(s.rqueue, dst) { PurgeAbsent(s.rqueue, now, dst); }
    } else if e.flags == Up {
      FlushSearch(s, d, now, dst);
    } else if Find(s.rqueue, d) {
      SendRequestCalm(s, d, now, dst);
    }
  }

  lemma {:induction false} PurgeRoutesCalm(s: Node, l: seq<Addr>, now: real, dst: Addr)
    ensures Calm(s, PurgeRoutes(s, l, now), dst, now)
    decreases |l|
  {
    if l != [] {
      var s1 := PurgeRoute(s, l[0], now);
      PurgeRouteCalm(s, l[0], now, dst);
      PurgeRoutesCalm(s1, l[1..], now, dst);
      CalmTrans(s, s1, PurgeRoutes(s, l, now), dst, now);
    }
  }

  // ---------------------------------------------------------------- events

  lemma ResolveSought(s: Node, p: Packet, now: real, dst: Addr)
    ensures Sought(s, Resolve(s, p, now), dst, now)
  {
    var e := E(s, p.daddr);
    var s1 := Store(s, p.daddr, e);
    if e.flags == Up {
      ForwardDataSearch(s1, p.daddr, p, now, dst);
    } else if p.saddr == s.index {
      SendRequestCalm(s1.(rqueue := Enque(s1.rqueue, p, now)), p.daddr, now, dst);
    } else if e.flags != InRepair {
      SendSearch(s1, Rerr(s.index, [Unreachable(p.daddr, e.seqno)]), dst);
    }
  }

  lemma BroadcastSought(s: Node, p: Packet, up: bool, now: real, dst: Addr)
    ensures Sought(s, ForwardBroadcast(s, p, up), dst, now)
  {
    SendSearch(s, Data(p, IP_BROADCAST), dst);
  }

  /** A data packet is dropped, or goes the way of unicast or broadcast packets with another time to live. */
  lemma RecvDataWays(s: Node, p: Packet, up: bool, now: real) returns (ttl: int)
    ensures var s', q := RecvData(s, p, up, now), p.(ttl := ttl);
            s' == s || s' == Resolve(s, q, now) || s' == ForwardBroadcast(s, q, up)
  {
    ttl := if p.saddr != s.index then p.ttl - 1 else if p.daddr == IP_BROADCAST then p.ttl else NETWORK_DIAMETER;
  }

  lemma RecvDataSought(s: Node, p: Packet, up: bool, now: real, dst: Addr)
    ensures Sought(s, RecvData(s, p, up, now), dst, now)
  {
    var ttl := RecvDataWays(s, p, up, now);
    ResolveSought(s, p.(ttl := ttl), now, dst);
    BroadcastSought(s, p.(ttl := ttl), up, now, dst);
  }

  lemma PrecursorSearch(s: Node, d: Addr, user: Addr, dst: Addr)
    ensures SameSearch(s, AddPrecursor(s, d, user), dst)
  {
  }

  lemma AnswerSearch(s: Node, m: Msg, now: real, dst: Addr)
    requires m.Rreq? && m.src != s.index
    ensures SameSearch(s, Answer(s, m, now), dst)
  {
    if m.dst == s.index {
      var s1 := s.(seqno := AnswerSeqno(s.seqno, m.dstSeqno));
      SendSearch(s1, Rrep(m.src, Ent(s.rtable, m.src).nexthop, NETWORK_DIAMETER, 1, s.index, s1.seqno,
                          s.index, MY_ROUTE_TIMEOUT, m.timestamp), dst);
    } else if CanAnswer(s.rtable, m) {
      var rt := Ent(s.rtable, m.dst);
      var reply := Rrep(m.src, Ent(s.rtable, m.src).nexthop, NETWORK_DIAMETER, rt.hops.n + 1, m.dst, rt.seqno,
                        s.index, CastU32(rt.expire - now), m.timestamp);
      SendSearch(s, reply, dst);
      PrecursorSearch(Send(s, reply), m.dst, Ent(s.rtable, m.src).nexthop, dst);
    } else if m.ttl - 1 != 0 {
      SendSearch(s, PassedOn(s, m), dst);
    }
  }

  lemma RecvRequestSought(s: Node, m: Msg, now: real, dst: Addr)
    requires m.Rreq?
    ensures Sought(s, RecvRequest(s, m, now), dst, now)
  {
    if !(m.src == s.index || IdSeen(s.bihead, m.src, m.bcastId)) {
      var s1 := s.(bihead := IdInsert(s.bihead, m.src, m.bcastId, now));
      var e0 := Ent(s1.rtable, m.src);
      var e := e0.(expire := MaxReal(e0.expire, now + REV_ROUTE_LIFE));
      FlushSearch(Store(s1, m.src, ReverseEntry(e, m, now)), m.src, now, dst);
      AnswerSearch(ReverseRoute(s1, m, now), m, now, dst);
    }
  }

  lemma ForwardReplySearch(s: Node, m: Msg, now: real, dst: Addr)
    requires m.Rrep?
    ensures SameSearch(s, ForwardReply(s, m, now), dst)
  {
    var rt0 := Ent(s.rtable, m.daddr);
    var s1 := Store(s, m.daddr, rt0.(expire := now + ACTIVE_ROUTE_TIMEOUT));
    var reply := m.(nextHop := rt0.nexthop, ttl := m.ttl - 1, hopCount := m.hopCount + 1, src := s.index);
    SendSearch(s1, reply, dst);
    PrecursorSearch(Send(s1, reply), m.dst, rt0.nexthop, dst);
    PrecursorSearch(s, m.dst, rt0.nexthop, dst);
  }

  lemma RecvReplySought(s: Node, m: Msg, now: real, dst: Addr)
    requires m.Rrep?
    ensures Sought(s, RecvReply(s, m, now), dst, now)
  {
    var e := Ent(s.rtable, m.dst);
    if BetterThan(m.dstSeqno, m.hopCount, e) {
      var s0 := Store(s, m.dst, ReplyEntry(e, m, m.daddr == s.index, now));
      var s1 := Flush(s0, m.dst, now);
      FlushSearch(s0, m.dst, now, dst);
      ForwardReplySearch(s1, m, now, dst);
    }
  }

  lemma {:induction false} AfterErrorsSearch(t: Table, us: seq<Unreachable>, from: Addr, dst: Addr)
    ensures Ent(t, dst).flags == Down ==> SearchPart(Ent(AfterErrors(t, us, from), dst)) == SearchPart(Ent(t, dst))
    ensures Ent(AfterErrors(t, us, from), dst).reqCnt == Ent(t, dst).reqCnt
    decreases |us|
  {
    if us != [] { AfterErrorsSearch(BreakRoute(t, us[0], from), us[1..], from, dst); }
  }

  lemma RecvErrorSought(s: Node, m: Msg, dst: Addr, now: real)
    requires m.Rerr?
    ensures Sought(s, RecvError(s, m), dst, now)
  {
    var s1 := s.(rtable := AfterErrors(s.rtable, m.unreachable, m.saddr));
    var us := ErrorReport(s.rtable, m.unreachable, m.saddr);
    AfterErrorsSearch(s.rtable, m.unreachable, m.saddr, dst);
    if us != [] { SendSearch(s1, Rerr(s.index, us), dst); }
  }

  lemma LinkFailedSought(s: Node, p: Packet, isData: bool, nextHop: Addr, now: real, dst: Addr)
    ensures Sought(s, LinkFailed(s, p, isData, nextHop, false, now), dst, now)
  {
    if isData && p.daddr != IP_BROADCAST && p.daddr in s.rtable {
      HandleLinkFailureCalm(s.(seqno := s.seqno + 2, nbhead := NbRemove(s.nbhead, nextHop)), nextHop, dst, now);
    }
  }

  /** Whatever happens to a node: a search for dst either finds a route, or goes on by at most one attempt. */
  lemma EventSought(s: Node, ev: Event, dst: Addr)
    ensures Sought(s, Handle(s, ev, false), dst, ev.now)
  {
    match ev
    case Deliver(m, now) =>
      if m.Rreq? { RecvRequestSought(s, m, now, dst); }
      else if m.Rrep? { RecvReplySought(s, m, now, dst); }
      else if m.Rerr? { RecvErrorSought(s, m, dst, now); }
      else if m.Data? { RecvDataSought(s, ReceptionCounted(m.packet), true, now, dst); }
    case Originate(p, now) => RecvDataSought(s, p, false, now, dst);
    case LinkFailure(p, isData, nextHop, now) => LinkFailedSought(s, p, isData, nextHop, now, dst);
    case RouteTimer(now) => PurgeRoutesCalm(s, s.rlist, now, dst);
    case BroadcastTimer(now) =>
    case NeighborTimer(now) => NbPurgeCalm(s, s.nbhead, now, dst);
    case HelloTimer(now) => SendSearch(s, Hello(s.index, s.seqno), dst);
    case RepairTimer(d, now) =>
  }

  // ---------------------------------------------------------------- whole runs

  /** From state i to state j of a run the node has no route to dst. */
  ghost predicate Searching(states: seq<Node>, dst: Addr, i: nat, j: nat) {
    i <= j < |states| && forall k :: i <= k <= j ==> E(states[k], dst).flags == Down
  }

  /** What a run is for the search for dst. */
  ghost predicate Life(states: seq<Node>, evs: seq<Event>, dst: Addr) {
    && |states| == |evs| + 1
    && (forall k {:trigger evs[k]} :: 0 <= k < |evs| ==> Sought(states[k], states[k + 1], dst, evs[k].now))
    && (forall i, j :: 0 <= i <= j < |evs| ==> evs[i].now <= evs[j].now)
    && (forall k :: 0 <= k < |states| ==> E(states[k], dst).reqCnt <= RREQ_RETRIES + 1)
  }

  lemma {:induction false} CounterBounded(states: seq<Node>, evs: seq<Event>, k: nat, dst: Addr)
    requires NodeRun(states, evs, false) && k < |states|
    ensures E(states[k], dst).reqCnt <= RREQ_RETRIES + 1
  {
    if k > 0 {
      CounterBounded(states, evs, k - 1, dst);
      EventSought(states[k - 1], evs[k - 1], dst);
      assert states[k - 1 + 1] == Handle(states[k - 1], evs[k - 1], false);
    } else {
      assert states[0] == NewNode(states[0].index);
    }
  }

  lemma RunLife(states: seq<Node>, evs: seq<Event>, dst: Addr)
    requires NodeRun(states, evs, false)
    ensures Life(states, evs, dst)
  {
    forall k | 0 <= k < |states| ensures E(states[k], dst).reqCnt <= RREQ_RETRIES + 1 {
      CounterBounded(states, evs, k, dst);
    }
    forall k {:trigger evs[k]} | 0 <= k < |evs| ensures Sought(states[k], states[k + 1], dst, evs[k].now) {
      EventSought(states[k], evs[k], dst);
    }
  }

  /** What was asked up to one state is the first part of what is asked up to a later one. */
  lemma {:induction false} AsksGrow(states: seq<Node>, evs: seq<Event>, dst: Addr, i: nat, j: nat)
    requires Life(states, evs, dst) && Searching(states, dst, i, j)
    ensures Asks(states[i], dst) <= Asks(states[j], dst)
  {
    if i < j {
      AsksGrow(states, evs, dst, i, j - 1);
      assert Sought(states[j - 1], states[j], dst, evs[j - 1].now);
    }
  }

  lemma RingBounds(e: Entry)
    ensures RequestTtl(e) <= NETWORK_DIAMETER
    ensures RequestTtl(e) > e.reqLastTtl || RequestTtl(e) == NETWORK_DIAMETER
  {
  }

  lemma AskStep(states: seq<Node>, evs: seq<Event>, dst: Addr, k: nat)
    requires Life(states, evs, dst) && Searching(states, dst, k, k + 1)
    ensures var e, e' := E(states[k], dst), E(states[k + 1], dst);
            || (Asks(states[k + 1], dst) == Asks(states[k], dst) && e'.reqLastTtl == e.reqLastTtl)
            || (Asks(states[k + 1], dst) == Asks(states[k], dst) + [RequestTtl(e) as int]
                && e'.reqLastTtl == RequestTtl(e))
  {
    assert Sought(states[k], states[k + 1], dst, evs[k].now);
  }

  /** From place n on, each ring is larger than the ones before it or covers the whole network, and none is larger
      than the last. */
  ghost predicate Widening(rings: seq<int>, n: nat, last: int) {
    && (forall a :: n <= a < |rings| ==> rings[a] <= NETWORK_DIAMETER && rings[a] <= last)
    && (forall a, b :: n <= a < b < |rings| ==> rings[b] > rings[a] || rings[b] == NETWORK_DIAMETER)
  }

  lemma WideningAppend(rings: seq<int>, n: nat, last: int, ttl: int)
    requires Widening(rings, n, last) && ttl <= NETWORK_DIAMETER && (ttl > last || ttl == NETWORK_DIAMETER)
    ensures Widening(rings + [ttl], n, ttl)
  {
  }

  lemma {:induction false} RunWidening(states: seq<Node>, evs: seq<Event>, dst: Addr, i: nat, j: nat)
    requires Life(states, evs, dst) && Searching(states, dst, i, j)
    ensures Widening(Asks(states[j], dst), |Asks(states[i], dst)|, E(states[j], dst).reqLastTtl)
  {
    if i < j {
      RunWidening(states, evs, dst, i, j - 1);
      AskStep(states, evs, dst, j - 1);
      var e, rings := E(states[j - 1], dst), Asks(states[j - 1], dst);
      RingBounds(e);
      WideningAppend(rings, |Asks(states[i], dst)|, e.reqLastTtl, RequestTtl(e));
    }
  }

  /** As long as no route is found the rings of the requests that a node sends for dst strictly grow until one covers
      the whole network; from then on all do. */
  lemma TtlGrows(states: seq<Node>, evs: seq<Event>, dst: Addr, i: nat, j: nat, a: nat, b: nat)
    requires NodeRun(states, evs, false) && Searching(states, dst, i, j)
    requires |Asks(states[i], dst)| <= a < b < |Asks(states[j], dst)|
    ensures Asks(states[j], dst)[b] > Asks(states[j], dst)[a] || Asks(states[j], dst)[b] == NETWORK_DIAMETER
  {
    RunLife(states, evs, dst);
    RunWidening(states, evs, dst, i, j);
  }

  /** How many of these requests went out to the whole network. */
  function Wide(asks: seq<int>): nat {
    if asks == [] then 0
    else Wide(asks[..|asks| - 1]) + if asks[|asks| - 1] == NETWORK_DIAMETER then 1 else 0
  }

  lemma WideAppend(asks: seq<int>, ttl: int)
    ensures Wide(asks + [ttl]) == Wide(asks) + if ttl == NETWORK_DIAMETER then 1 else 0
    ensures Wide(asks + []) == Wide(asks)
  {
    assert (asks + [ttl])[..|asks|] == asks && asks + [] == asks;
  }

  /** Event k makes the node give the search for dst up for a while: its counter starts again. */
  predicate GivesUp(states: seq<Node>, dst: Addr, k: nat) {
    k + 1 < |states| && E(states[k + 1], dst).reqCnt < E(states[k], dst).reqCnt
  }

  lemma AttemptCount(e: Entry, now: real)
    requires e.reqCnt <= RREQ_RETRIES + 1
    ensures Attempt(e, now).Dropped? <==> AfterAttempt(e, now).reqCnt < e.reqCnt
    ensures !Attempt(e, now).Dropped? ==>
              AfterAttempt(e, now).reqCnt == e.reqCnt + Wide(AskedBy(Attempt(e, now)))
  {
    WideAppend([], RequestTtl(e));
    assert [] + [RequestTtl(e)] == [RequestTtl(e)];
  }

  lemma WideAsked(asks: seq<int>, o: Outcome)
    ensures Wide(asks + AskedBy(o)) == Wide(asks) + Wide(AskedBy(o))
  {
    if o.Asked? {
      WideAppend(asks, o.ttl);
      WideAppend([], o.ttl);
      assert [] + [o.ttl] == [o.ttl as int];
    } else {
      assert asks + [] == asks;
    }
  }

  lemma CounterStep(states: seq<Node>, evs: seq<Event>, dst: Addr, k: nat)
    requires Life(states, evs, dst) && Searching(states, dst, k, k + 1) && !GivesUp(states, dst, k)
    ensures E(states[k + 1], dst).reqCnt - E(states[k], dst).reqCnt
         == Wide(Asks(states[k + 1], dst)) - Wide(Asks(states[k], dst))
  {
    var s, now := states[k], evs[k].now;
    assert Sought(states[k], states[k + 1], dst, evs[k].now);
    AttemptCount(E(s, dst), now);
    WideAsked(Asks(s, dst), Attempt(E(s, dst), now));
  }

  lemma {:induction false} LifeCounts(states: seq<Node>, evs: seq<Event>, dst: Addr, i: nat, j: nat)
    requires Life(states, evs, dst) && Searching(states, dst, i, j)
    requires forall k :: i <= k < j ==> !GivesUp(states, dst, k)
    ensures E(states[j], dst).reqCnt - E(states[i], dst).reqCnt
         == Wide(Asks(states[j], dst)) - Wide(Asks(states[i], dst))
  {
    if i < j {
      LifeCounts(states, evs, dst, i, j - 1);
      CounterStep(states, evs, dst, j - 1);
    }
  }

  /** As long as no route is found and the search is not given up, the counter of the entry grows by one with each
      request that the node sends to the whole network, and with nothing else. */
  lemma CounterCounts(states: seq<Node>, evs: seq<Event>, dst: Addr, i: nat, j: nat)
    requires NodeRun(states, evs, false) && Searching(states, dst, i, j)
    requires forall k :: i <= k < j ==> !GivesUp(states, dst, k)
    ensures E(states[j], dst).reqCnt - E(states[i], dst).reqCnt
         == Wide(Asks(states[j], dst)) - Wide(Asks(states[i], dst))
  {
    RunLife(states, evs, dst);
    LifeCounts(states, evs, dst, i, j);
  }

  lemma NoneAtLimit(s: Node, s': Node, dst: Addr, now: real)
    requires Sought(s, s', dst, now) && E(s, dst).flags == E(s', dst).flags == Down
    requires E(s, dst).reqCnt > RREQ_RETRIES
    ensures Asks(s', dst) == Asks(s, dst)
  {
  }

  /** Until it finds a route or gives the search up, a node sends at most RREQ_RETRIES + 1 requests for dst to the
      whole network; and after that many it sends no more, whatever happens next. */
  lemma WideRequestsBounded(states: seq<Node>, evs: seq<Event>, dst: Addr, i: nat, j: nat)
    requires NodeRun(states, evs, false) && Searching(states, dst, i, j)
    requires forall k :: i <= k < j ==> !GivesUp(states, dst, k)
    ensures Wide(Asks(states[j], dst)) - Wide(Asks(states[i], dst)) <= RREQ_RETRIES + 1
    ensures Wide(Asks(states[j], dst)) - Wide(Asks(states[i], dst)) == RREQ_RETRIES + 1 && Searching(states, dst, i, j + 1)
            ==> Asks(states[j + 1], dst) == Asks(states[j], dst)
  {
    RunLife(states, evs, dst);
    LifeCounts(states, evs, dst, i, j);
    if E(states[j], dst).reqCnt > RREQ_RETRIES && Searching(states, dst, i, j + 1) {
      NoneAtLimit(states[j], states[j + 1], dst, evs[j].now);
    }
  }

  /** A request goes out only when the last deadline is over, and sets the next one: after now, but by no more than
      MAX_RREQ_TIMEOUT. */
  lemma RequestsSpaced(states: seq<Node>, evs: seq<Event>, dst: Addr, k: nat)
    requires NodeRun(states, evs, false) && Searching(states, dst, k, k + 1) && Asks(states[k + 1], dst) != Asks(states[k], dst)
    ensures E(states[k], dst).reqTimeout <= evs[k].now
    ensures evs[k].now < E(states[k + 1], dst).reqTimeout <= evs[k].now + MAX_RREQ_TIMEOUT
    ensures |Asks(states[k + 1], dst)| == |Asks(states[k], dst)| + 1
  {
    RunLife(states, evs, dst);
    assert Sought(states[k], states[k + 1], dst, evs[k].now);
    RequestTimeoutBounds(E(states[k], dst), evs[k].now);
  }

  lemma GivingUpStep(s: Node, s': Node, dst: Addr, now: real)
    requires Sought(s, s', dst, now) && E(s, dst).flags == E(s', dst).flags == Down
    requires E(s', dst).reqCnt < E(s, dst).reqCnt <= RREQ_RETRIES + 1
    ensures Absent(s'.rqueue, dst) && Asks(s', dst) == Asks(s, dst)
    ensures E(s', dst).reqTimeout == now + MAX_RREQ_TIMEOUT
  {
    AttemptCount(E(s, dst), now);
  }

  lemma SilentStep(s: Node, s': Node, dst: Addr, now: real)
    requires Sought(s, s', dst, now) && E(s, dst).flags == E(s', dst).flags == Down && now < E(s, dst).reqTimeout
    ensures Asks(s', dst) == Asks(s, dst) && E(s', dst).reqTimeout == E(s, dst).reqTimeout
  {
  }

  lemma {:induction false} LifeSilent(states: seq<Node>, evs: seq<Event>, dst: Addr, k: nat, j: nat)
    requires Life(states, evs, dst) && k < j && Searching(states, dst, k, j) && GivesUp(states, dst, k)
    requires evs[j - 1].now < evs[k].now + MAX_RREQ_TIMEOUT
    ensures Absent(states[k + 1].rqueue, dst)
    ensures Asks(states[j], dst) == Asks(states[k], dst)
    ensures E(states[j], dst).reqTimeout == evs[k].now + MAX_RREQ_TIMEOUT
    decreases j
  {
    if j == k + 1 {
      GivingUpStep(states[k], states[k + 1], dst, evs[k].now);
    } else {
      assert evs[j - 2].now <= evs[j - 1].now;
      LifeSilent(states, evs, dst, k, j - 1);
      SilentStep(states[j - 1], states[j], dst, evs[j - 1].now);
    }
  }

  /** Giving up empties the buffer of packets for dst, and then, while no route is found, the node sends no request
      for a full MAX_RREQ_TIMEOUT. */
  lemma SilentAfterGivingUp(states: seq<Node>, evs: seq<Event>, dst: Addr, k: nat, j: nat)
    requires NodeRun(states, evs, false) && k < j && Searching(states, dst, k, j) && GivesUp(states, dst, k)
    requires evs[j - 1].now < evs[k].now + MAX_RREQ_TIMEOUT
    ensures Absent(states[k + 1].rqueue, dst)
    ensures Asks(states[j], dst) == Asks(states[k], dst)
    ensures E(states[j], dst).reqTimeout == evs[k].now + MAX_RREQ_TIMEOUT
  {
    RunLife(states, evs, dst);
    LifeSilent(states, evs, dst, k, j);
  }
}
