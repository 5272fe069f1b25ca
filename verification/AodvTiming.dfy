/** When an AODV node asks, and when it listens. */
module AodvTiming {
  // One attempt to ask for a route, and how often a node takes part in the same flood.

  import opened Common
  import opened RouteQueue
  import opened OnDemand
  import opened Aodv

  // ---------------------------------------------------------------- expanding ring and back-off

  /** What came of one attempt to ask for a route. */
  datatype Outcome = Silent | Asked(ttl: nat) | Dropped

  function Attempt(e: Entry, now: real): Outcome {
    match RequestDecision(e, now)
    case HasRoute => Silent
    case TooSoon => Silent
    case GiveUp => Dropped
    case SendRreq => Asked(RequestTtl(e))
  }

  function AfterAttempt(e: Entry, now: real): Entry {
    match RequestDecision(e, now)
    case HasRoute => e
    case TooSoon => e
    case GiveUp => GivenUp(e, now)
    case SendRreq => Requested(e, now)
  }

  /** A node that asks for a route says so in its entry and in one request; giving up empties its buffer. */
  lemma SendRequestAttempt(s: Node, dst: Addr, now: real)
    ensures dst in s.rtable ==> Ent(SendRequest(s, dst, now).rtable, dst) == AfterAttempt(Ent(s.rtable, dst), now)
    ensures match Attempt(Ent(s.rtable, dst), now)
            case Silent => SendRequest(s, dst, now) == s
            case Asked(ttl) =>
              var s' := SendRequest(s, dst, now);
              && s'.outbox == s.outbox + [s'.outbox[|s.outbox|]]
              && s'.outbox[|s.outbox|].Rreq? && s'.outbox[|s.outbox|].ttl == ttl && s'.outbox[|s.outbox|].dst == dst
            case Dropped => SendRequest(s, dst, now).outbox == s.outbox && !Find(SendRequest(s, dst, now).rqueue, dst)
  {
    if Attempt(Ent(s.rtable, dst), now).Dropped? {
      NoneLeft(Purge(s.rqueue, now), dst);
    }
  }

  lemma {:induction false} NoneLeft(q: seq<Buffered>, dst: Addr)
    ensures !Find(Without(q, dst), dst)
  {
    if q != [] { NoneLeft(q[1..], dst); }
  }

  lemma {:induction false} SumPositiveIsPositive(l: seq<real>)
    ensures SumPositive(l) >= 0.0
    ensures CountPositive(l) > 0 ==> SumPositive(l) > 0.0
  {
    if l != [] { SumPositiveIsPositive(l[1..]); }
  }

  lemma PerHopTimePositive(e: Entry)
    ensures PerHopTime(e) > 0.0
  {
    SumPositiveIsPositive(e.discLatency);
    var n := CountPositive(e.discLatency);
    if n > 0 { QuotientPositive(SumPositive(e.discLatency), n as real); }
  }

  lemma QuotientPositive(x: real, y: real)
    requires x > 0.0 && y > 0.0
    ensures x / y > 0.0
  {
  }

  lemma ProductPositive(a: real, b: real)
    requires a > 0.0 && b > 0.0
    ensures a * b > 0.0
  {
  }

  /** Every request sets a deadline that lies ahead, but never by more than MAX_RREQ_TIMEOUT. */
  lemma RequestTimeoutBounds(e: Entry, now: real)
    ensures now < Requested(e, now).reqTimeout <= now + MAX_RREQ_TIMEOUT
  {
    PerHopTimePositive(e);
    var cnt := if NetworkWide(e) then e.reqCnt + 1 else e.reqCnt;
    var ttl := 2.0 * RequestTtl(e) as real;
    var f := if cnt > 0 then cnt as real else 1.0;
    ProductPositive(ttl, PerHopTime(e));
    ProductPositive(ttl * PerHopTime(e), f);
  }

  // ---------------------------------------------------------------- flood suppression

  /** The life of a node, built with local repair or without. */
  ghost predicate NodeRun(states: seq<Node>, evs: seq<Event>, localRepair: bool) {
    && |states| == |evs| + 1 && states[0] == NewNode(states[0].index)
    && (forall k :: 0 <= k < |evs| ==> states[k + 1] == Handle(states[k], evs[k], localRepair))
    && (forall i, j :: 0 <= i <= j < |evs| ==> evs[i].now <= evs[j].now)
  }

  /** The event makes the node take part in the flood of request id of src. */
  predicate Processes(s: Node, ev: Event, src: Addr, id: nat) {
    ev.Deliver? && ev.m.Rreq? && ev.m.src == src && ev.m.bcastId == id
    && src != s.index && !IdSeen(s.bihead, src, id)
  }

  lemma {:induction false} FlushIds(s: Node, dst: Addr, now: real)
    ensures Flush(s, dst, now).bihead == s.bihead && Flush(s, dst, now).index == s.index
    decreases |s.rqueue|
  {
    var q := Purge(s.rqueue, now);
    var i := FindDst(q, dst);
    if i < |q| {
      FlushIds(ForwardData(s.(rqueue := RemoveAt(q, i)), dst, q[i].packet, now), dst, now);
    }
  }

  lemma {:induction false} PurgeRoutesIds(s: Node, l: seq<Addr>, now: real)
    ensures PurgeRoutes(s, l, now).bihead == s.bihead && PurgeRoutes(s, l, now).index == s.index
    decreases |l|
  {
    if l != [] {
      FlushIds(s, l[0], now);
      PurgeRoutesIds(PurgeRoute(s, l[0], now), l[1..], now);
    }
  }

  lemma {:induction false} NbPurgeIds(s: Node, nb: seq<Neighbor>, now: real)
    ensures NbPurge(s, nb, now).bihead == s.bihead && NbPurge(s, nb, now).index == s.index
    decreases |nb|
  {
    if nb != [] { NbPurgeIds(if nb[0].expire <= now then NbDelete(s, nb[0].addr) else s, nb[1..], now); }
  }

  lemma RecvRequestIds(s: Node, m: Msg, now: real)
    requires m.Rreq?
    ensures var s' := RecvRequest(s, m, now);
            s'.index == s.index
            && s'.bihead == if m.src == s.index || IdSeen(s.bihead, m.src, m.bcastId) then s.bihead
                            else IdInsert(s.bihead, m.src, m.bcastId, now)
  {
    var s1 := s.(bihead := IdInsert(s.bihead, m.src, m.bcastId, now));
    var e0 := Ent(s1.rtable, m.src);
    var e := e0.(expire := MaxReal(e0.expire, now + REV_ROUTE_LIFE));
    FlushIds(Store(s1, m.src, ReverseEntry(e, m, now)), m.src, now);
  }

  lemma RecvReplyIds(s: Node, m: Msg, now: real)
    requires m.Rrep?
    ensures RecvReply(s, m, now).bihead == s.bihead && RecvReply(s, m, now).index == s.index
  {
    FlushIds(Store(s, m.dst, ReplyEntry(Ent(s.rtable, m.dst), m, m.daddr == s.index, now)), m.dst, now);
  }

  /** The cache of broadcast ids after an event: only a processed request and the broadcast timer touch it. */
  function NextCache(b: seq<BroadcastId>, index: Addr, ev: Event): seq<BroadcastId> {
    if ev.Deliver? && ev.m.Rreq? && ev.m.src != index && !IdSeen(b, ev.m.src, ev.m.bcastId)
    then IdInsert(b, ev.m.src, ev.m.bcastId, ev.now)
    else if ev.BroadcastTimer? then IdPurge(b, ev.now)
    else b
  }

  lemma DeliverCache(s: Node, m: Msg, now: real, localRepair: bool)
    ensures Handle(s, Deliver(m, now), localRepair).index == s.index
    ensures Handle(s, Deliver(m, now), localRepair).bihead == NextCache(s.bihead, s.index, Deliver(m, now))
  {
    if m.Rreq? { RecvRequestIds(s, m, now); }
    if m.Rrep? { RecvReplyIds(s, m, now); }
  }

  lemma CacheStep(s: Node, ev: Event, localRepair: bool)
    ensures Handle(s, ev, localRepair).index == s.index
    ensures Handle(s, ev, localRepair).bihead == NextCache(s.bihead, s.index, ev)
  {
    match ev
    case Deliver(m, now) => DeliverCache(s, m, now, localRepair);
    case RouteTimer(now) => PurgeRoutesIds(s, s.rlist, now);
    case NeighborTimer(now) => NbPurgeIds(s, s.nbhead, now);
    case Originate(p, now) =>
    case LinkFailure(p, isData, nextHop, now) =>
    case BroadcastTimer(now) =>
    case HelloTimer(now) =>
    case RepairTimer(dst, now) =>
  }

  lemma RunCache(states: seq<Node>, evs: seq<Event>, localRepair: bool, k: nat)
    requires NodeRun(states, evs, localRepair) && k < |evs|
    ensures states[k + 1].bihead == NextCache(states[k].bihead, states[k].index, evs[k])
  {
    CacheStep(states[k], evs[k], localRepair);
  }

  lemma {:induction false} IdPurgeKeeps(b: seq<BroadcastId>, now: real, x: BroadcastId)
    ensures x in IdPurge(b, now) <==> x in b && x.expire > now
  {
    if b != [] { IdPurgeKeeps(b[1..], now, x); }
  }

  /** The cached id of a processed request stays until its time is over. */
  lemma NextRemembers(b: seq<BroadcastId>, index: Addr, ev: Event, x: BroadcastId)
    requires x in b && ev.now < x.expire
    ensures x in NextCache(b, index, ev)
  {
    IdPurgeKeeps(b, ev.now, x);
  }

  lemma ProcessedIsCached(s: Node, ev: Event, src: Addr, id: nat)
    requires Processes(s, ev, src, id)
    ensures BroadcastId(src, id, ev.now + BCAST_ID_SAVE) in NextCache(s.bihead, s.index, ev)
  {
  }

  lemma {:induction false} Remembered(states: seq<Node>, evs: seq<Event>, localRepair: bool, i: nat, j: nat,
                                      src: Addr, id: nat)
    requires NodeRun(states, evs, localRepair) && i < j <= |evs| && Processes(states[i], evs[i], src, id)
    requires evs[j - 1].now < evs[i].now + BCAST_ID_SAVE
    ensures BroadcastId(src, id, evs[i].now + BCAST_ID_SAVE) in states[j].bihead
    decreases j
  {
    var k := j - 1;
    var x := BroadcastId(src, id, evs[i].now + BCAST_ID_SAVE);
    RunCache(states, evs, localRepair, k);
    if k > i {
      EarlierInTime(states, evs, localRepair, k);
      Remembered(states, evs, localRepair, i, k, src, id);
      NextRemembers(states[k].bihead, states[k].index, evs[k], x);
    } else {
      ProcessedIsCached(states[i], evs[i], src, id);
    }
  }

  lemma EarlierInTime(states: seq<Node>, evs: seq<Event>, localRepair: bool, k: nat)
    requires NodeRun(states, evs, localRepair) && 0 < k < |evs|
    ensures evs[k - 1].now <= evs[k].now
  {
  }

  /** However receptions and purges interleave, a node takes part in the same flood at most once in any
      period of BCAST_ID_SAVE. */
  lemma OncePerWindow(states: seq<Node>, evs: seq<Event>, localRepair: bool, i: nat, j: nat, src: Addr, id: nat)
    requires NodeRun(states, evs, localRepair) && i < j < |evs|
    requires Processes(states[i], evs[i], src, id) && Processes(states[j], evs[j], src, id)
    ensures evs[j].now >= evs[i].now + BCAST_ID_SAVE
  {
    if evs[j].now < evs[i].now + BCAST_ID_SAVE {
      assert evs[j - 1].now <= evs[j].now;
      Remembered(states, evs, localRepair, i, j, src, id);
      CachedIsSeen(states[j].bihead, BroadcastId(src, id, evs[i].now + BCAST_ID_SAVE));
    }
  }

  lemma CachedIsSeen(b: seq<BroadcastId>, x: BroadcastId)
    requires x in b
    ensures IdSeen(b, x.src, x.id)
  {
  }

  ghost predicate NoDuplicates(b: seq<BroadcastId>) {
    forall i, j :: 0 <= i < j < |b| ==> b[i].src != b[j].src || b[i].id != b[j].id
  }

  lemma {:induction false} IdPurgeNoDuplicates(b: seq<BroadcastId>, now: real)
    requires NoDuplicates(b)
    ensures NoDuplicates(IdPurge(b, now))
  {
    if b != [] {
      IdPurgeNoDuplicates(b[1..], now);
      var r := IdPurge(b[1..], now);
      forall k | 0 <= k < |r| ensures b[0].src != r[k].src || b[0].id != r[k].id {
        IdPurgeKeeps(b[1..], now, r[k]);
        var l :| 0 <= l < |b[1..]| && b[1..][l] == r[k];
        assert b[l + 1] == r[k];
      }
    }
  }

  /** The cache never holds the same request twice. */
  lemma {:induction false} CacheHasNoDuplicates(states: seq<Node>, evs: seq<Event>, localRepair: bool, k: nat)
    requires NodeRun(states, evs, localRepair) && k < |states|
    ensures NoDuplicates(states[k].bihead)
  {
    if k > 0 {
      CacheHasNoDuplicates(states, evs, localRepair, k - 1);
      RunCache(states, evs, localRepair, k - 1);
      NextNoDuplicates(states[k - 1].bihead, states[k - 1].index, evs[k - 1]);
    }
  }

  lemma NextNoDuplicates(b: seq<BroadcastId>, index: Addr, ev: Event)
    requires NoDuplicates(b)
    ensures NoDuplicates(NextCache(b, index, ev))
  {
    if ev.BroadcastTimer? { IdPurgeNoDuplicates(b, ev.now); }
  }
}
