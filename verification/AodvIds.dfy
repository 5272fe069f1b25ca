/** In a network of AODV nodes no request id is ever used twice. */
module AodvIds {
  import opened Common
  import opened RouteQueue
  import opened OnDemand
  import opened Aodv
  import opened AodvSteps
  import opened AodvEffects
  import opened AodvUpkeep
  import opened AodvNetwork
  import AodvTiming

  // ---------------------------------------------------------------- one event

  /** A request that a node sends is one of its own, with an id below its next one, or one that it passes on. */
  predicate SendsId(index: Addr, bid: nat, inp: Option<Msg>, m: Msg) {
    m.Rreq? ==>
      || (m.src == index && m.bcastId < bid)
      || (inp.Some? && inp.value.Rreq? && m.src == inp.value.src && m.bcastId == inp.value.bcastId)
  }

  /** Ids are only counted up, and no others are sent. */
  ghost predicate Ids(s: Node, s': Node, inp: Option<Msg>) {
    && s'.index == s.index && s'.bid >= s.bid && s.outbox <= s'.outbox
    && forall k {:trigger s'.outbox[k]} :: |s.outbox| <= k < |s'.outbox| ==> SendsId(s.index, s'.bid, inp, s'.outbox[k])
  }

  lemma IdsTrans(s0: Node, s1: Node, s2: Node)
    requires Ids(s0, s1, None) && Ids(s1, s2, None)
    ensures Ids(s0, s2, None)
  {
    forall k | |s0.outbox| <= k < |s2.outbox| ensures SendsId(s0.index, s2.bid, None, s2.outbox[k]) {
      if k < |s1.outbox| { assert s2.outbox[k] == s1.outbox[k]; }
    }
  }

  lemma IdsWiden(s: Node, s': Node, inp: Option<Msg>)
    requires Ids(s, s', None)
    ensures Ids(s, s', inp)
  {
    forall k | |s.outbox| <= k < |s'.outbox| ensures SendsId(s.index, s'.bid, inp, s'.outbox[k]) {
      assert SendsId(s.index, s'.bid, None, s'.outbox[k]);
    }
  }

  lemma {:induction false} DataOnly(ps: seq<Packet>, via: Addr, k: nat)
    requires k < |AsData(ps, via)|
    ensures AsData(ps, via)[k].Data?
  {
    if k > 0 { DataOnly(ps[1..], via, k - 1); }
  }

  /** Data packets, and then perhaps one more message. */
  lemma DataThen(s: Node, s': Node, inp: Option<Msg>, q: seq<Buffered>, dst: Addr, via: Addr, now: real, last: seq<Msg>)
    requires s'.index == s.index && s'.bid >= s.bid
    requires s'.outbox == s.outbox + Carried(q, dst, via, s.index, now) + last
    requires |last| <= 1 && (last != [] ==> SendsId(s.index, s'.bid, inp, last[0]))
    ensures Ids(s, s', inp)
  {
    var sent := Carried(q, dst, via, s.index, now);
    forall k | |s.outbox| <= k < |s'.outbox| ensures SendsId(s.index, s'.bid, inp, s'.outbox[k]) {
      if k < |s.outbox| + |sent| {
        DataOnly(Leaving(q, dst, s.index, now), via, k - |s.outbox|);
        assert s'.outbox[k] == sent[k - |s.outbox|];
      }
    }
  }

  lemma RequestIds(s: Node, m: Msg, now: real)
    requires m.Rreq?
    ensures Ids(s, Handle(s, Deliver(m, now), false), Some(m))
  {
    if Heard(s, m) {
      HeardRequest(s, m, now, false);
    } else {
      var s' := Handle(s, Deliver(m, now), false);
      RequestKeeps(s, m, now, false);
      RequestSends(s, m, now, false);
      var said := Saying(s', m, s'.seqno, now);
      if News(s, m.src, m.srcSeqno, m.hopCount) {
        DataThen(s, s', Some(m), s.rqueue, m.src, m.saddr, now, said);
      } else {
        DataThen(s, s', Some(m), [], m.src, m.saddr, now, said);
      }
    }
  }

  lemma ReplyIds(s: Node, m: Msg, now: real)
    requires m.Rrep?
    ensures Ids(s, Handle(s, Deliver(m, now), false), Some(m))
  {
    if News(s, m.dst, m.dstSeqno, m.hopCount) {
      ReplySends(s, m, now, false);
      DataThen(s, Handle(s, Deliver(m, now), false), Some(m), s.rqueue, m.dst, m.src, now,
               if PassesReply(s, m) then [ReplyFrom(s, m)] else []);
    } else {
      StaleReply(s, m, now, false);
    }
  }

  lemma SearchIds(s: Node, dst: Addr, now: real)
    ensures Ids(s, SendRequest(s, dst, now), None)
  {
    AttemptEffect(s, dst, now);
  }

  lemma ResolveIds(s: Node, p: Packet, now: real)
    ensures Ids(s, Resolve(s, p, now), None)
  {
    if R(s, p.daddr).flags == Up { ResolveUp(s, p, now); }
    else if p.saddr == s.index { ResolveOwn(s, p, now); }
    else { ResolveForeign(s, p, now); }
  }

  lemma DataIds(s: Node, p: Packet, up: bool, now: real)
    ensures Ids(s, RecvData(s, p, up, now), None)
  {
    DataEffect(s, p, up, now);
    ResolveIds(s, p.(ttl := if p.saddr == s.index then 30 else p.ttl - 1), now);
  }

  lemma LossIds(s: Node, id: Addr)
    ensures Ids(s, NbDelete(s, id), None)
  {
  }

  lemma {:induction false} LossesIds(s: Node, nb: seq<Neighbor>, now: real)
    ensures Ids(s, NbPurge(s, nb, now), None)
    decreases |nb|
  {
    if nb != [] {
      var s1 := if nb[0].expire <= now then NbDelete(s, nb[0].addr) else s;
      LossIds(s, nb[0].addr);
      LossesIds(s1, nb[1..], now);
      IdsTrans(s, s1, NbPurge(s1, nb[1..], now));
    }
  }

  lemma PurgeRouteIds(s: Node, dst: Addr, now: real)
    ensures Ids(s, PurgeRoute(s, dst, now), None)
  {
    PurgeRouteEffect(s, dst, now);
    var s', e := PurgeRoute(s, dst, now), Ent(s.rtable, dst);
    if e.flags == Up && !Expired(e, now) { DataThen(s, s', None, s.rqueue, dst, e.nexthop, now, []); }
  }

  lemma {:induction false} PurgeIds(s: Node, l: seq<Addr>, now: real)
    ensures Ids(s, PurgeRoutes(s, l, now), None)
    decreases |l|
  {
    if l != [] {
      var s1 := PurgeRoute(s, l[0], now);
      PurgeRouteIds(s, l[0], now);
      PurgeIds(s1, l[1..], now);
      IdsTrans(s, s1, PurgeRoutes(s1, l[1..], now));
    }
  }

  lemma QuietIds(s: Node, ev: Event)
    requires ev.Deliver? ==> ev.m.Rerr? || ev.m.Hello? || ev.m.Data?
    ensures Ids(s, Handle(s, ev, false), None)
  {
    match ev
    case Deliver(m, now) => if m.Data? { DataIds(s, ReceptionCounted(m.packet), true, now); }
    case Originate(p, now) => DataIds(s, p, false, now);
    case LinkFailure(p, isData, nextHop, now) => LossIds(s, nextHop);
    case RouteTimer(now) => PurgeIds(s, s.rlist, now);
    case BroadcastTimer(now) =>
    case NeighborTimer(now) => LossesIds(s, s.nbhead, now);
    case HelloTimer(now) =>
    case RepairTimer(dst, now) =>
  }

  lemma EventIds(s: Node, ev: Event)
    ensures Ids(s, Handle(s, ev, false), if ev.Deliver? then Some(ev.m) else None)
  {
    if ev.Deliver? && ev.m.Rreq? { RequestIds(s, ev.m, ev.now); }
    else if ev.Deliver? && ev.m.Rrep? { ReplyIds(s, ev.m, ev.now); }
    else {
      QuietIds(s, ev);
      IdsWiden(s, Handle(s, ev, false), if ev.Deliver? then Some(ev.m) else None);
    }
  }

  // ---------------------------------------------------------------- the network

  /** Every id in a message or in a cache was issued by the node whose address goes with it. */
  ghost predicate Issued(net: Network, src: Addr, id: nat) {
    src in net && id < net[src].bid
  }

  ghost predicate MessageIssued(net: Network, m: Msg) {
    m.Rreq? ==> Issued(net, m.src, m.bcastId)
  }

  ghost predicate IdsInv(net: Network) {
    && (forall n :: n in net ==> net[n].index == n)
    && (forall n, k {:trigger net[n].bihead[k]} :: n in net && 0 <= k < |net[n].bihead|
          ==> Issued(net, net[n].bihead[k].src, net[n].bihead[k].id))
    && (forall n, k {:trigger net[n].outbox[k]} :: n in net && 0 <= k < |net[n].outbox|
          ==> MessageIssued(net, net[n].outbox[k]))
  }

  lemma StillIssued(net: Network, net': Network, n: Addr, ev: Event, src: Addr, id: nat)
    requires IdsInv(net) && StepAt(net, net', false, n, ev) && Issued(net, src, id)
    ensures Issued(net', src, id)
  {
    EventIds(net[n], ev);
  }

  lemma SentIssued(net: Network, m: Msg)
    requires IdsInv(net) && Sent(net, m)
    ensures MessageIssued(net, m)
  {
    var x, k :| x in net && 0 <= k < |net[x].outbox| && net[x].outbox[k] == m;
    assert MessageIssued(net, net[x].outbox[k]);
  }

  lemma {:induction false} PurgedIdFrom(b: seq<BroadcastId>, now: real, k: nat) returns (l: nat)
    requires k < |IdPurge(b, now)|
    ensures l < |b| && b[l] == IdPurge(b, now)[k]
  {
    if b[0].expire <= now {
      l := PurgedIdFrom(b[1..], now, k);
      l := l + 1;
    } else if k == 0 {
      l := 0;
    } else {
      l := PurgedIdFrom(b[1..], now, k - 1);
      l := l + 1;
    }
  }

  lemma CachedIssued(net: Network, net': Network, n: Addr, ev: Event, k: nat)
    requires IdsInv(net) && StepAt(net, net', false, n, ev) && k < |net'[n].bihead|
    ensures Issued(net', net'[n].bihead[k].src, net'[n].bihead[k].id)
  {
    var s, s' := net[n], net'[n];
    AodvTiming.CacheStep(s, ev, false);
    if ev.Deliver? && ev.m.Rreq? && s'.bihead != s.bihead {
      SentIssued(net, ev.m);
      StillIssued(net, net', n, ev, ev.m.src, ev.m.bcastId);
      if k > 0 {
        assert s'.bihead[k] == s.bihead[k - 1];
        StillIssued(net, net', n, ev, s.bihead[k - 1].src, s.bihead[k - 1].id);
      }
    } else if ev.BroadcastTimer? {
      var l := PurgedIdFrom(s.bihead, ev.now, k);
      StillIssued(net, net', n, ev, s.bihead[l].src, s.bihead[l].id);
    } else {
      StillIssued(net, net', n, ev, s.bihead[k].src, s.bihead[k].id);
    }
  }

  lemma SentMessageIssued(net: Network, net': Network, n: Addr, ev: Event, x: Addr, k: nat)
    requires IdsInv(net) && StepAt(net, net', false, n, ev) && x in net' && k < |net'[x].outbox|
    ensures MessageIssued(net', net'[x].outbox[k])
  {
    var m := net'[x].outbox[k];
    EventIds(net[n], ev);
    if x == n && k >= |net[n].outbox| {
      assert SendsId(net[n].index, net'[n].bid, if ev.Deliver? then Some(ev.m) else None, m);
      if m.Rreq? && !(m.src == n && m.bcastId < net'[n].bid) {
        SentIssued(net, ev.m);
        StillIssued(net, net', n, ev, m.src, m.bcastId);
      }
    } else {
      assert m == net[x].outbox[k];
      assert MessageIssued(net, net[x].outbox[k]);
      if m.Rreq? { StillIssued(net, net', n, ev, m.src, m.bcastId); }
    }
  }

  lemma StepIds(net: Network, net': Network)
    requires IdsInv(net) && Step(net, net', false)
    ensures IdsInv(net')
  {
    var n, ev :| StepAt(net, net', false, n, ev);
    EventIds(net[n], ev);
    forall x, k | x in net' && 0 <= k < |net'[x].bihead|
      ensures Issued(net', net'[x].bihead[k].src, net'[x].bihead[k].id)
    {
      if x == n { CachedIssued(net, net', n, ev, k); }
      else { StillIssued(net, net', n, ev, net[x].bihead[k].src, net[x].bihead[k].id); }
    }
    forall x, k | x in net' && 0 <= k < |net'[x].outbox| ensures MessageIssued(net', net'[x].outbox[k]) {
      SentMessageIssued(net, net', n, ev, x, k);
    }
  }

  /** In every reachable state, every id that a node remembers or has sent was issued by the source named with it; so
      the next id of a node is one that nobody has heard of. */
  lemma {:induction false} RunIds(run: seq<Network>, i: nat)
    requires Run(run, false) && i < |run|
    ensures IdsInv(run[i])
  {
    if i > 0 {
      RunIds(run, i - 1);
      assert Step(run[i - 1], run[i - 1 + 1], false);
      StepIds(run[i - 1], run[i]);
    }
  }
}
