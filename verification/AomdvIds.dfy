/** In a network of AOMDV nodes no request id is ever used twice. */
module AomdvIds {
  import opened Common
  import opened RouteQueue
  import opened OnDemand
  import opened Aomdv
  import opened AomdvSteps
  import opened AomdvEffects
  import opened AomdvUpkeep
  import Net = AomdvNetwork

  // ---------------------------------------------------------------- one event

  /** The received message is this request. */
  predicate IsRequest(inp: Option<Msg>, src: Addr, id: nat) {
    inp.Some? && inp.value.Rreq? && inp.value.src == src && inp.value.bcastId == id
  }

  /** A request that a node sends is one of its own, with an id below its next one, or one that it passes on. */
  predicate SendsId(index: Addr, bid: nat, inp: Option<Msg>, m: Msg) {
    m.Rreq? ==> (m.src == index && m.bcastId < bid) || IsRequest(inp, m.src, m.bcastId)
  }

  ghost predicate SendsIds(s: Node, s': Node, inp: Option<Msg>) {
    && s'.index == s.index && s'.bid >= s.bid && s.outbox <= s'.outbox
    && forall k {:trigger s'.outbox[k]} :: |s.outbox| <= k < |s'.outbox| ==> SendsId(s.index, s'.bid, inp, s'.outbox[k])
  }

  /** Nothing is remembered but what was or what the message asks. */
  ghost predicate KeepsIds(s: Node, s': Node, inp: Option<Msg>) {
    forall src, id {:trigger Known(s'.bihead, src, id)} ::
      Known(s'.bihead, src, id) ==> Known(s.bihead, src, id) || IsRequest(inp, src, id)
  }

  ghost predicate Ids(s: Node, s': Node, inp: Option<Msg>) {
    SendsIds(s, s', inp) && KeepsIds(s, s', inp)
  }

  lemma IdsTrans(s0: Node, s1: Node, s2: Node)
    requires Ids(s0, s1, None) && Ids(s1, s2, None)
    ensures Ids(s0, s2, None)
  {
    forall k | |s0.outbox| <= k < |s2.outbox| ensures SendsId(s0.index, s2.bid, None, s2.outbox[k]) {
      if k < |s1.outbox| { assert s2.outbox[k] == s1.outbox[k]; }
    }
    forall src, id | Known(s2.bihead, src, id) ensures Known(s0.bihead, src, id) {
      assert Known(s1.bihead, src, id);
    }
  }

  lemma IdsWiden(s: Node, s': Node, inp: Option<Msg>)
    requires Ids(s, s', None)
    ensures Ids(s, s', inp)
  {
    forall k | |s.outbox| <= k < |s'.outbox| ensures SendsId(s.index, s'.bid, inp, s'.outbox[k]) {
      assert SendsId(s.index, s'.bid, None, s'.outbox[k]);
    }
  }

  lemma {:induction false} DataOnly(ps: seq<Packet>, via: Addr, k: nat)
    requires k < |AsData(ps, via)|
    ensures AsData(ps, via)[k].Data?
  {
    if k > 0 { DataOnly(ps[1..], via, k - 1); }
  }

  /** Data packets, and then perhaps one more message. */
  lemma DataThen(s: Node, s': Node, inp: Option<Msg>, ps: seq<Packet>, via: Addr, last: seq<Msg>)
    requires s'.index == s.index && s'.bid >= s.bid && s'.outbox == s.outbox + AsData(ps, via) + last
    requires |last| <= 1 && (last != [] ==> SendsId(s.index, s'.bid, inp, last[0]))
    ensures SendsIds(s, s', inp)
  {
    var sent := AsData(ps, via);
    forall k | |s.outbox| <= k < |s'.outbox| ensures SendsId(s.index, s'.bid, inp, s'.outbox[k]) {
      if k < |s.outbox| + |sent| {
        DataOnly(ps, via, k - |s.outbox|);
        assert s'.outbox[k] == sent[k - |s.outbox|];
      }
    }
  }

  lemma MarkedKeeps(b: seq<BroadcastId>, src: Addr, id: nat, b': seq<BroadcastId>, x: Addr, i: nat)
    requires Marked(b, src, id, b') && Known(b', x, i)
    ensures Known(b, x, i)
  {
    var k: nat :| k < |b'| && b'[k].src == x && b'[k].id == i;
    assert b[k].src == x && b[k].id == i;
  }

  lemma NotedKeeps(b: seq<BroadcastId>, m: Msg, now: real, b': seq<BroadcastId>, x: Addr, i: nat)
    requires m.Rreq? && Noted(b, m, now, b') && Known(b', x, i)
    ensures Known(b, x, i) || IsRequest(Some(m), x, i)
  {
    var k: nat :| k < |b'| && b'[k].src == x && b'[k].id == i;
    if b' != b && k > 0 { assert b[k - 1] == b'[k]; }
  }

  lemma SayingIds(s: Node, m: Msg, ready: bool, seen: bool, now: real)
    requires m.Rreq?
    ensures var said := Saying(s, m, ready, seen, now);
            |said| <= 1 && (said != [] ==> SendsId(s.index, s.bid, Some(m), said[0]))
  {
  }

  lemma RequestIds(s: Node, m: Msg, now: real)
    requires m.Rreq? && EntryOk(Ent(s.rtable, m.src), s.maxPaths)
    ensures Ids(s, Handle(s, Deliver(m, now)), Some(m))
  {
    var s' := Handle(s, Deliver(m, now));
    if m.src == s.index {
      OwnRequest(s, m, now);
    } else {
      var e, kept, drop, s1 := AcceptedRequest(s, m, now);
      forall x, i | Known(s1.bihead, x, i) ensures Known(s.bihead, x, i) || IsRequest(Some(m), x, i) {
        NotedKeeps(s.bihead, m, now, s1.bihead, x, i);
      }
      if drop {
        DroppedIds(s, m, now, e, kept);
      } else {
        var ready, seen := kept && Unanswered(s1.bihead, m.src, m.bcastId), Known(s.bihead, m.src, m.bcastId);
        SayingIds(s', m, ready, seen, now);
        DataThen(s, s', Some(m), Leaving(s.rqueue, m.src, s.index, now), FirstNexthop(e), Saying(s', m, ready, seen, now));
        forall x, i | Known(s'.bihead, x, i) ensures Known(s.bihead, x, i) || IsRequest(Some(m), x, i) {
          if s'.bihead != s1.bihead { MarkedKeeps(s1.bihead, m.src, m.bcastId, s'.bihead, x, i); }
        }
      }
    }
  }

  lemma DroppedIds(s: Node, m: Msg, now: real, e: Entry, kept: bool)
    requires m.Rreq? && m.src != s.index && EntryOk(Ent(s.rtable, m.src), s.maxPaths)
    requires Offered(s, m, now, e, kept, true)
    ensures Ids(s, Handle(s, Deliver(m, now)), Some(m))
  {
    var s' := Handle(s, Deliver(m, now));
    var e1, kept1, drop1 := DroppedRequest(s, m, now);
    forall x, i | Known(s'.bihead, x, i) ensures Known(s.bihead, x, i) || IsRequest(Some(m), x, i) {
      NotedKeeps(s.bihead, m, now, s'.bihead, x, i);
    }
  }

  lemma ReplyIds(s: Node, m: Msg, now: real)
    requires m.Rrep? && EntryOk(Ent(s.rtable, m.dst), s.maxPaths)
    ensures Ids(s, Handle(s, Deliver(m, now)), None)
  {
    var s' := Handle(s, Deliver(m, now));
    if Accepts(s, m, now) {
      var e, c := AcceptedReply(s, m, now);
      DataThen(s, s', None, Leaving(s.rqueue, m.dst, s.index, now), FirstNexthop(e),
               if Passes(s, m, e) && m.ttl != 1 then [ReplyFrom(s', m)] else []);
      forall x, i | Known(s'.bihead, x, i) ensures Known(s.bihead, x, i) {
        if Passes(s, m, e) { MarkedKeeps(s.bihead, m.daddr, m.bcastId, s'.bihead, x, i); }
      }
    } else {
      DroppedReply(s, m, now);
    }
  }

  lemma HelloIds(s: Node, m: Msg, now: real)
    requires m.Hello? && EntryOk(Ent(s.rtable, m.dst), s.maxPaths)
    ensures Ids(s, Handle(s, Deliver(m, now)), None)
  {
    HelloIsReply(s, m, now);
    var r := Rrep(s.index, 0, 0, 0, m.dst, m.dstSeqno, m.dst, m.lifetime, 0.0, 0, s.index);
    var nb :| Handle(s, Deliver(m, now)) == Handle(s.(nbhead := nb), Deliver(r, now));
    ReplyIds(s.(nbhead := nb), r, now);
  }

  lemma ResolveIds(s: Node, p: Packet, now: real)
    ensures Ids(s, Resolve(s, p, now), None)
  {
    ResolveEffect(s, p, now);
  }

  lemma DataIds(s: Node, p: Packet, up: bool, now: real)
    ensures Ids(s, RecvData(s, p, up, now), None)
  {
    DataEffect(s, p, up, now);
    ResolveIds(s, p.(ttl := if p.saddr == s.index then 30 else p.ttl - 1), now);
  }

  lemma {:induction false} RescuedData(s: Node, ifq: seq<Queued>, id: Addr, k: nat)
    requires k < |Rescued(s, ifq, id)|
    ensures Rescued(s, ifq, id)[k].Data?
  {
    var rest := Rescued(s, ifq[1..], id);
    var first := |Rescued(s, ifq, id)| - |rest|;
    if k >= first { RescuedData(s, ifq[1..], id, k - first); }
  }

  lemma LossIds(s: Node, id: Addr, ifq: seq<Queued>, now: real)
    ensures Ids(s, NbDelete(s, id, ifq, now), None)
  {
    var s', s1 := NbDelete(s, id, ifq, now), HandleLinkFailure(s, id);
    var us := LossSends(s, id, ifq, now);
    var told := if us == [] then [] else [Rerr(s.index, us)];
    forall k | |s.outbox| <= k < |s'.outbox| ensures SendsId(s.index, s'.bid, None, s'.outbox[k]) {
      if k >= |s.outbox| + |told| {
        RescuedData(s1, ifq, id, k - |s.outbox| - |told|);
        assert s'.outbox[k] == Rescued(s1, ifq, id)[k - |s.outbox| - |told|];
      }
    }
  }

  lemma {:induction false} LossesIds(s: Node, nb: seq<Neighbor>, ifq: seq<Queued>, now: real)
    ensures Ids(s, NbPurge(s, nb, ifq, now), None)
    decreases |nb|
  {
    if nb != [] && nb[0].expire <= now {
      var s1 := NbDelete(s, nb[0].addr, ifq, now);
      LossIds(s, nb[0].addr, ifq, now);
      LossesIds(s1, nb[1..], Elsewhere(ifq, nb[0].addr), now);
      IdsTrans(s, s1, NbPurge(s, nb, ifq, now));
    } else if nb != [] {
      LossesIds(s, nb[1..], ifq, now);
    }
  }

  lemma PurgeRouteIds(s: Node, dst: Addr, now: real)
    ensures Ids(s, PurgeRoute(s, dst, now), None)
  {
    PurgeRouteEffect(s, dst, now);
    var s', e := PurgeRoute(s, dst, now), Ent(s.rtable, dst);
    if e.flags == Up && !(e.expire < now) {
      DataThen(s, s', None, Leaving(s.rqueue, dst, s.index, now), FirstNexthop(e), []);
    }
  }

  lemma {:induction false} PurgesIds(s: Node, l: seq<Addr>, now: real)
    ensures Ids(s, PurgeRoutes(s, l, now), None)
    decreases |l|
  {
    if l != [] {
      var s1 := PurgeRoute(s, l[0], now);
      PurgeRouteIds(s, l[0], now);
      PurgesIds(s1, l[1..], now);
      IdsTrans(s, s1, PurgeRoutes(s1, l[1..], now));
    }
  }

  lemma CacheTimerIds(s: Node, now: real)
    ensures Ids(s, Handle(s, BroadcastTimer(now)), None)
  {
    var b' := IdPurge(s.bihead, now);
    IdsPurged(s.bihead, now);
    forall src, id | Known(b', src, id) ensures Known(s.bihead, src, id) {
      var k: nat :| k < |b'| && b'[k].src == src && b'[k].id == id;
      assert b'[k] in s.bihead;
    }
  }

  lemma EventIds(s: Node, ev: Event)
    requires NodeOk(s)
    ensures Ids(s, Handle(s, ev), if ev.Deliver? then Some(ev.m) else None)
  {
    assert forall d {:trigger Ent(s.rtable, d)} :: EntryOk(Ent(s.rtable, d), s.maxPaths);
    if ev.Deliver? && ev.m.Rreq? {
      RequestIds(s, ev.m, ev.now);
    } else {
      QuietIds(s, ev);
      IdsWiden(s, Handle(s, ev), if ev.Deliver? then Some(ev.m) else None);
    }
  }

  lemma QuietIds(s: Node, ev: Event)
    requires NodeOk(s) && (ev.Deliver? ==> !ev.m.Rreq?)
    ensures Ids(s, Handle(s, ev), None)
  {
    assert forall d {:trigger Ent(s.rtable, d)} :: EntryOk(Ent(s.rtable, d), s.maxPaths);
    match ev
    case Deliver(m, now) =>
      if m.Rrep? { ReplyIds(s, m, now); }
      else if m.Hello? { HelloIds(s, m, now); }
      else if m.Data? { DataIds(s, ReceptionCounted(m.packet), true, now); }
    case Originate(p, now) => DataIds(s, p, false, now);
    case RouteTimer(now) => PurgesIds(s, s.rlist, now);
    case BroadcastTimer(now) => CacheTimerIds(s, now);
    case NeighborTimer(ifq, now) => LossesIds(s, s.nbhead, ifq, now);
    case HelloTimer(now) =>
  }

  // ---------------------------------------------------------------- the network

  /** The id was issued by the node whose address goes with it. */
  ghost predicate Issued(net: Net.Network, src: Addr, id: nat) {
    src in net && id < net[src].bid
  }

  ghost predicate MessageIssued(net: Net.Network, m: Msg) {
    m.Rreq? ==> Issued(net, m.src, m.bcastId)
  }

  ghost predicate CacheIssued(net: Net.Network, n: Addr)
    requires n in net
  {
    forall src, id {:trigger Known(net[n].bihead, src, id)} :: Known(net[n].bihead, src, id) ==> Issued(net, src, id)
  }

  ghost predicate IdsInv(net: Net.Network) {
    && (forall n {:trigger CacheIssued(net, n)} :: n in net ==> CacheIssued(net, n))
    && (forall n, k {:trigger net[n].outbox[k]} :: n in net && 0 <= k < |net[n].outbox|
          ==> MessageIssued(net, net[n].outbox[k]))
  }

  lemma StillIssued(net: Net.Network, net': Net.Network, n: Addr, ev: Event, src: Addr, id: nat)
    requires Net.Inv(net) && Net.StepAt(net, net', n, ev) && Issued(net, src, id)
    ensures Issued(net', src, id)
  {
    EventIds(net[n], ev);
  }

  lemma SentIssued(net: Net.Network, m: Msg)
    requires IdsInv(net) && Net.Sent(net, m)
    ensures MessageIssued(net, m)
  {
    var x, k :| x in net && 0 <= k < |net[x].outbox| && net[x].outbox[k] == m;
    assert MessageIssued(net, net[x].outbox[k]);
  }

  lemma CacheStaysIssued(net: Net.Network, net': Net.Network, n: Addr, ev: Event, x: Addr)
    requires Net.Inv(net) && IdsInv(net) && Net.StepAt(net, net', n, ev) && x in net'
    ensures CacheIssued(net', x)
  {
    EventIds(net[n], ev);
    assert CacheIssued(net, x);
    forall src, id | Known(net'[x].bihead, src, id) ensures Issued(net', src, id) {
      if x == n && !Known(net[n].bihead, src, id) { SentIssued(net, ev.m); }
      else { assert Known(net[x].bihead, src, id); }
      StillIssued(net, net', n, ev, src, id);
    }
  }

  lemma SentMessageIssued(net: Net.Network, net': Net.Network, n: Addr, ev: Event, x: Addr, k: nat)
    requires Net.Inv(net) && IdsInv(net) && Net.StepAt(net, net', n, ev) && x in net' && k < |net'[x].outbox|
    ensures MessageIssued(net', net'[x].outbox[k])
  {
    var m := net'[x].outbox[k];
    EventIds(net[n], ev);
    if x == n && k >= |net[n].outbox| {
      assert SendsId(net[n].index, net'[n].bid, if ev.Deliver? then Some(ev.m) else None, m);
      if m.Rreq? && !(m.src == n && m.bcastId < net'[n].bid) {
        SentIssued(net, ev.m);
        StillIssued(net, net', n, ev, m.src, m.bcastId);
      }
    } else {
      assert m == net[x].outbox[k];
      assert MessageIssued(net, net[x].outbox[k]);
      if m.Rreq? { StillIssued(net, net', n, ev, m.src, m.bcastId); }
    }
  }

  /** In every reachable state, every id that a node remembers or has sent was issued by the source named with it; so
      the next id of a node is one that nobody has heard of. */
  lemma {:induction false} RunIds(run: seq<Net.Network>, i: nat)
    requires Net.Run(run) && i < |run|
    ensures IdsInv(run[i])
  {
    if i > 0 {
      RunIds(run, i - 1);
      Net.RunInv(run, i - 1);
      assert Net.Step(run[i - 1], run[i - 1 + 1]);
      var n, ev :| Net.StepAt(run[i - 1], run[i], n, ev);
      forall x | x in run[i] ensures CacheIssued(run[i], x) { CacheStaysIssued(run[i - 1], run[i], n, ev, x); }
      forall x, k | x in run[i] && 0 <= k < |run[i][x].outbox| ensures MessageIssued(run[i], run[i][x].outbox[k]) {
        SentMessageIssued(run[i - 1], run[i], n, ev, x, k);
      }
    }
  }
}
