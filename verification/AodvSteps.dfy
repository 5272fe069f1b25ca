/** What one event can do to the routes of one AODV node, and to what it sends: each handler in turn keeps the
    routes in order, changes them only in ways that the network invariant allows, and sends only what they back. */
module AodvSteps {
  import opened Common
  import opened RouteQueue
  import opened OnDemand
  import opened Aodv

  /** The part of a routing-table entry that decides where packets go. */
  datatype Route = Route(seqno: nat, hops: Hops, flags: Flag, nexthop: Addr)

  function RouteOf(e: Entry): Route {
    Route(e.seqno, e.hops, e.flags, e.nexthop)
  }

  /** The route of node s to dst. */
  function R(s: Node, dst: Addr): Route {
    RouteOf(Ent(s.rtable, dst))
  }

  /** Up exactly with a finite hop count and an even number; down with 0 or an odd number and no next hop. */
  predicate RouteOk(r: Route) {
    if r.flags == Up then r.hops.Finite? && r.hops.n >= 1 && r.seqno >= 2 && r.seqno % 2 == 0
    else r.flags == Down && r.hops == Infinite && r.nexthop == 0 && LostNumber(r.seqno)
  }

  /** The numbers of routes that are down: never known, or given up by counting an even number on. */
  predicate LostNumber(q: nat) {
    q == 0 || q % 2 == 1
  }

  ghost predicate AllLost(us: seq<Unreachable>) {
    forall i :: 0 <= i < |us| ==> LostNumber(us[i].seqno)
  }

  ghost predicate NodeOk(s: Node) {
    && s.seqno >= 2 && s.seqno % 2 == 0
    && (forall d {:trigger R(s, d)} :: RouteOk(R(s, d)))
  }

  /** A message tells that its sender reaches dst in one hop less than the message says. */
  datatype Advert = Advert(from: Addr, dst: Addr, seqno: nat, hops: nat)

  function AdvertOf(m: Msg): Option<Advert> {
    match m
    case Rreq(saddr, _, hopCount, _, _, _, src, srcSeqno, _) => Some(Advert(saddr, src, srcSeqno, hopCount))
    case Rrep(_, _, _, hopCount, dst, dstSeqno, src, _, _) => Some(Advert(src, dst, dstSeqno, hopCount))
    case Rerr(_, _) => None
    case Hello(_, _) => None
    case Data(_, _) => None
  }

  predicate AdvertOk(a: Advert) {
    a.seqno >= 2 && a.seqno % 2 == 0 && a.hops >= 1
  }

  /** What every message in the network satisfies on its own. */
  ghost predicate InputOk(m: Msg) {
    && (AdvertOf(m).Some? ==> AdvertOk(AdvertOf(m).value))
    && (m.Rerr? ==> AllLost(m.unreachable))
  }

  ghost predicate Learned(r: Route, r': Route, dst: Addr, inp: Option<Msg>) {
    && inp.Some? && AdvertOf(inp.value).Some?
    && var a := AdvertOf(inp.value).value;
    && a.dst == dst && r' == Route(a.seqno, Finite(a.hops), Up, a.from)
    && Fresher(a.seqno, Finite(a.hops), r.seqno, r.hops)
  }

  ghost predicate Lost(r: Route, r': Route, dst: Addr, inp: Option<Msg>) {
    && r.flags == Up && r' == Route(r'.seqno, Infinite, Down, 0) && r'.seqno > r.seqno
    && (r'.seqno == r.seqno + 1 ||
        (inp.Some? && inp.value.Rerr? && Unreachable(dst, r'.seqno) in inp.value.unreachable))
  }

  /** An event keeps a route, replaces it by what the received message offers, or takes it down. */
  ghost predicate RouteStep(r: Route, r': Route, dst: Addr, inp: Option<Msg>) {
    r' == r || Learned(r, r', dst, inp) || Lost(r, r', dst, inp)
  }

  ghost predicate ReportOk(s: Node, us: seq<Unreachable>) {
    forall i :: 0 <= i < |us| ==> us[i].seqno <= R(s, us[i].dst).seqno && LostNumber(us[i].seqno)
  }

  /** A message sent without any received message to rely on. */
  ghost predicate OwnMessage(s: Node, m: Msg) {
    match m
    case Rreq(saddr, _, hopCount, _, dst, dstSeqno, src, srcSeqno, _) =>
      && saddr == src == s.index && hopCount == 1
      && 2 <= srcSeqno <= s.seqno && srcSeqno % 2 == 0
      && dstSeqno <= R(s, dst).seqno
    case Rrep(_, _, _, _, _, _, _, _, _) => false
    case Rerr(saddr, us) => saddr == s.index && ReportOk(s, us)
    case Hello(_, _) => true
    case Data(_, _) => true
  }

  /** The sender's own answer to a request for itself, or an offer that its table lives up to. */
  ghost predicate OfferOk(s: Node, a: Advert, own: bool, inp: Msg)
    requires AdvertOf(inp).Some?
  {
    && a.from == s.index && AdvertOk(a)
    && (if own then a.dst == s.index && a.seqno <= s.seqno
        else
          && AsFresh(R(s, a.dst).seqno, R(s, a.dst).hops, a.seqno, Finite(a.hops - 1))
          && ((R(s, a.dst).flags == Up && R(s, a.dst).seqno == a.seqno)
              || (AdvertOf(inp).value.dst == a.dst && AdvertOf(inp).value.seqno == a.seqno)))
  }

  /** A request passed on, an answer from the table or from the destination itself, or a reply passed on. */
  ghost predicate RelayedMessage(s: Node, m: Msg, inp: Msg) {
    && AdvertOf(m).Some? && AdvertOf(inp).Some?
    && OfferOk(s, AdvertOf(m).value, m.Rrep? && inp.Rreq? && m.dst == s.index, inp)
    && (m.Rreq? ==>
          && inp.Rreq? && m.dst == inp.dst && m.dst != s.index
          && (m.dstSeqno <= R(s, m.dst).seqno || m.dstSeqno == inp.dstSeqno))
  }

  ghost predicate MaySend(s: Node, m: Msg, inp: Option<Msg>) {
    OwnMessage(s, m) || (inp.Some? && RelayedMessage(s, m, inp.value))
  }

  ghost predicate SendsOnly(s: Node, s': Node, ok: Msg -> bool) {
    && s.outbox <= s'.outbox
    && (forall k {:trigger s'.outbox[k]} :: |s.outbox| <= k < |s'.outbox| ==> ok(s'.outbox[k]))
  }

  /** Any event; inp is the routing message that arrived, if any. */
  ghost predicate Legal(s: Node, s': Node, inp: Option<Msg>) {
    && s'.index == s.index && NodeOk(s') && s'.seqno >= s.seqno
    && (forall d {:trigger R(s', d)} :: RouteStep(R(s, d), R(s', d), d, inp))
    && SendsOnly(s, s', (m: Msg) => MaySend(s', m, inp))
  }

  /** The same routes, and nothing sent but data packets. */
  ghost predicate SameRoutes(s: Node, s': Node) {
    && s'.index == s.index && s'.seqno == s.seqno
    && (forall d {:trigger R(s', d)} :: R(s', d) == R(s, d))
    && SendsOnly(s, s', (m: Msg) => m.Data?)
  }

  // ---------------------------------------------------------------- tables

  lemma StoreRoutes(s: Node, dst: Addr, e: Entry)
    ensures forall d {:trigger R(Store(s, dst, e), d)} ::
              R(Store(s, dst, e), d) == if d == dst then RouteOf(e) else R(s, d)
  {
  }

  lemma NodeOkSame(s: Node, s': Node)
    requires NodeOk(s) && s'.seqno == s.seqno && s'.rtable == s.rtable
    ensures NodeOk(s')
  {
    forall d ensures RouteOk(R(s', d)) { assert RouteOk(R(s, d)); }
  }

  lemma StoreSame(s: Node, dst: Addr, e: Entry)
    requires RouteOf(e) == R(s, dst)
    ensures SameRoutes(s, Store(s, dst, e))
  {
  }

  lemma SameTrans(s0: Node, s1: Node, s2: Node)
    requires SameRoutes(s0, s1) && SameRoutes(s1, s2)
    ensures SameRoutes(s0, s2)
  {
    forall d ensures R(s2, d) == R(s0, d) {
      assert R(s1, d) == R(s0, d);
    }
    forall k | |s0.outbox| <= k < |s2.outbox| ensures s2.outbox[k].Data? {
      if k < |s1.outbox| { assert s2.outbox[k] == s1.outbox[k]; }
    }
  }

  lemma ForwardDataSame(s: Node, dst: Addr, p: Packet, now: real)
    ensures SameRoutes(s, ForwardData(s, dst, p, now))
  {
  }

  lemma {:induction false} FlushSame(s: Node, dst: Addr, now: real)
    ensures SameRoutes(s, Flush(s, dst, now))
    decreases |s.rqueue|
  {
    var q := Purge(s.rqueue, now);
    var i := FindDst(q, dst);
    if i < |q| {
      var s0 := s.(rqueue := RemoveAt(q, i));
      var s1 := ForwardData(s0, dst, q[i].packet, now);
      ForwardDataSame(s0, dst, q[i].packet, now);
      FlushSame(s1, dst, now);
      SameTrans(s0, s1, Flush(s1, dst, now));
    }
  }

  lemma Unchanged(s: Node, s': Node, inp: Option<Msg>)
    requires NodeOk(s) && SameRoutes(s, s')
    ensures Legal(s, s', inp)
  {
  }

  /** What a node may send stays true while its numbers and its routes only get fresher. */
  lemma OwnMessageLater(s: Node, s': Node, m: Msg)
    requires OwnMessage(s, m) && s'.index == s.index && s'.seqno >= s.seqno
    requires forall d {:trigger R(s', d)} :: R(s', d).seqno >= R(s, d).seqno
    ensures OwnMessage(s', m)
  {
  }

  lemma MaySendLater(s: Node, s': Node, m: Msg, inp: Option<Msg>)
    requires MaySend(s, m, inp) && s'.index == s.index && s'.seqno >= s.seqno
    requires forall d {:trigger R(s', d)} :: R(s', d) == R(s, d)
    ensures MaySend(s', m, inp)
  {
    if OwnMessage(s, m) {
      OwnMessageLater(s, s', m);
    } else {
      assert R(s', AdvertOf(m).value.dst) == R(s, AdvertOf(m).value.dst);
      assert m.Rreq? ==> R(s', m.dst) == R(s, m.dst);
    }
  }

  /** A legal event followed by something that needs no message. */
  lemma LegalTrans(s0: Node, s1: Node, s2: Node)
    requires Legal(s0, s1, None) && Legal(s1, s2, None)
    ensures Legal(s0, s2, None)
  {
    forall d ensures RouteStep(R(s0, d), R(s2, d), d, None) && R(s2, d).seqno >= R(s1, d).seqno {
      assert RouteStep(R(s0, d), R(s1, d), d, None);
      assert RouteStep(R(s1, d), R(s2, d), d, None);
    }
    forall k | |s0.outbox| <= k < |s2.outbox| ensures OwnMessage(s2, s2.outbox[k]) {
      if k < |s1.outbox| {
        assert s2.outbox[k] == s1.outbox[k];
        OwnMessageLater(s1, s2, s1.outbox[k]);
      }
    }
  }

  /** A legal event after which only data is sent and no route changes is still that event. */
  lemma LegalSame(s0: Node, s1: Node, s2: Node, inp: Option<Msg>)
    requires Legal(s0, s1, inp) && SameRoutes(s1, s2)
    ensures Legal(s0, s2, inp)
  {
    forall d ensures RouteStep(R(s0, d), R(s2, d), d, inp) {
      assert R(s2, d) == R(s1, d);
    }
    forall k | |s0.outbox| <= k < |s2.outbox| ensures MaySend(s2, s2.outbox[k], inp) {
      if k < |s1.outbox| {
        assert s2.outbox[k] == s1.outbox[k];
        MaySendLater(s1, s2, s1.outbox[k], inp);
      }
    }
  }

  lemma LegalSend(s0: Node, s1: Node, m: Msg, inp: Option<Msg>)
    requires Legal(s0, s1, inp) && MaySend(s1, m, inp)
    ensures Legal(s0, Send(s1, m), inp)
  {
    var s2 := Send(s1, m);
    assert forall d {:trigger R(s2, d)} :: R(s2, d) == R(s1, d);
    forall k | |s0.outbox| <= k < |s2.outbox| ensures MaySend(s2, s2.outbox[k], inp) {
      assert k < |s1.outbox| ==> s2.outbox[k] == s1.outbox[k];
      MaySendLater(s1, s2, s2.outbox[k], inp);
    }
  }

  // ---------------------------------------------------------------- events without a routing message

  lemma RequestedRoute(e: Entry, now: real)
    ensures RouteOf(Requested(e, now)) == RouteOf(e) && RouteOf(GivenUp(e, now)) == RouteOf(e)
  {
  }

  /** A node may raise its own number by two whenever it likes. */
  lemma RaiseSeqno(s: Node, s': Node)
    requires NodeOk(s) && s'.index == s.index && s'.rtable == s.rtable && s'.outbox == s.outbox
    requires s'.seqno >= s.seqno && s'.seqno % 2 == 0
    ensures Legal(s, s', None)
  {
    assert forall d {:trigger R(s', d)} :: R(s', d) == R(s, d);
  }

  lemma RequestSentLegal(s: Node, dst: Addr, e: Entry, ttl: int, now: real)
    requires NodeOk(s) && RouteOf(e) == R(s, dst)
    ensures Legal(s, Send(Store(s, dst, e).(bid := s.bid + 1, seqno := s.seqno + 2),
                          Rreq(s.index, ttl, 1, s.bid, dst, e.seqno, s.index, s.seqno + 2, now)), None)
  {
    var s1 := Store(s, dst, e);
    StoreSame(s, dst, e);
    Unchanged(s, s1, None);
    var s2 := s1.(bid := s.bid + 1, seqno := s.seqno + 2);
    RaiseSeqno(s1, s2);
    LegalTrans(s, s1, s2);
    assert R(s2, dst) == R(s1, dst) == R(s, dst);
    LegalSend(s, s2, Rreq(s.index, ttl, 1, s.bid, dst, e.seqno, s.index, s2.seqno, now), None);
  }

  lemma SendRequestLegal(s: Node, dst: Addr, now: real)
    requires NodeOk(s)
    ensures Legal(s, SendRequest(s, dst, now), None)
  {
    var e := Ent(s.rtable, dst);
    var s' := SendRequest(s, dst, now);
    RequestedRoute(e, now);
    match RequestDecision(e, now) {
      case HasRoute => Unchanged(s, s', None);
      case TooSoon => Unchanged(s, s', None);
      case GiveUp =>
        StoreSame(s, dst, GivenUp(e, now));
        assert SameRoutes(s, s');
        Unchanged(s, s', None);
      case SendRreq =>
        var e1 := Requested(e, now);
        RequestSentLegal(s, dst, e1, RequestTtl(e), now);
    }
  }

  lemma SendErrorLegal(s0: Node, s: Node, us: seq<Unreachable>, inp: Option<Msg>)
    requires Legal(s0, s, inp) && ReportOk(s, us)
    ensures Legal(s0, SendError(s, us), inp)
  {
    if us != [] { LegalSend(s0, s, Rerr(s.index, us), inp); }
  }

  lemma {:induction false} FailReportFrom(t: Table, l: seq<Addr>, id: Addr, i: nat)
    requires i < |FailReport(t, l, id)|
    ensures var u := FailReport(t, l, id)[i];
            u.dst in t && Fails(t[u.dst], id) && u.seqno == t[u.dst].seqno + 1
  {
    var item := FailItem(t, l[0], id);
    if i >= |item| { FailReportFrom(t, l[1..], id, i - |item|); }
  }

  lemma FailTableLegal(s: Node, id: Addr)
    requires NodeOk(s)
    ensures Legal(s, s.(rtable := FailTable(s.rtable, id)), None)
  {
    var s1 := s.(rtable := FailTable(s.rtable, id));
    forall d ensures RouteStep(R(s, d), R(s1, d), d, None) && RouteOk(R(s1, d)) {
      assert RouteOk(R(s, d));
    }
  }

  lemma HandleLinkFailureLegal(s: Node, id: Addr)
    requires NodeOk(s)
    ensures Legal(s, HandleLinkFailure(s, id), None)
  {
    var s1 := s.(rtable := FailTable(s.rtable, id));
    FailTableLegal(s, id);
    var us := FailReport(s.rtable, s.rlist, id);
    forall i | 0 <= i < |us| ensures us[i].seqno <= R(s1, us[i].dst).seqno && LostNumber(us[i].seqno) {
      FailReportFrom(s.rtable, s.rlist, id, i);
      assert RouteOk(R(s, us[i].dst));
    }
    SendErrorLegal(s, s1, us, None);
  }

  lemma NbDeleteLegal(s: Node, id: Addr)
    requires NodeOk(s)
    ensures Legal(s, NbDelete(s, id), None)
  {
    var s1 := s.(seqno := s.seqno + 2, nbhead := NbRemove(s.nbhead, id));
    RaiseSeqno(s, s1);
    HandleLinkFailureLegal(s1, id);
    LegalTrans(s, s1, HandleLinkFailure(s1, id));
  }

  lemma {:induction false} NbPurgeLegal(s: Node, nb: seq<Neighbor>, now: real)
    requires NodeOk(s)
    ensures Legal(s, NbPurge(s, nb, now), None)
    decreases |nb|
  {
    if nb == [] {
      Unchanged(s, s, None);
    } else if nb[0].expire <= now {
      NbDeleteLegal(s, nb[0].addr);
      NbPurgeLegal(NbDelete(s, nb[0].addr), nb[1..], now);
      LegalTrans(s, NbDelete(s, nb[0].addr), NbPurge(s, nb, now));
    } else {
      NbPurgeLegal(s, nb[1..], now);
    }
  }

  lemma PurgeRouteLegal(s: Node, dst: Addr, now: real)
    requires NodeOk(s)
    ensures Legal(s, PurgeRoute(s, dst, now), None)
  {
    var e := Ent(s.rtable, dst);
    var s' := PurgeRoute(s, dst, now);
    if e.flags == Up && e.expire < now {
      StoreRoutes(s, dst, ExpireEntry(e));
      assert RouteOk(R(s, dst));
      forall d ensures RouteStep(R(s, d), R(s', d), d, None) && RouteOk(R(s', d)) {
        assert RouteOk(R(s, d));
      }
    } else if e.flags == Up {
      FlushSame(s, dst, now);
      Unchanged(s, s', None);
    } else if Find(s.rqueue, dst) {
      SendRequestLegal(s, dst, now);
    } else {
      Unchanged(s, s', None);
    }
  }

  lemma {:induction false} PurgeRoutesLegal(s: Node, l: seq<Addr>, now: real)
    requires NodeOk(s)
    ensures Legal(s, PurgeRoutes(s, l, now), None)
    decreases |l|
  {
    if l == [] {
      Unchanged(s, s, None);
    } else {
      PurgeRouteLegal(s, l[0], now);
      PurgeRoutesLegal(PurgeRoute(s, l[0], now), l[1..], now);
      LegalTrans(s, PurgeRoute(s, l[0], now), PurgeRoutes(s, l, now));
    }
  }

  lemma ResolveLegal(s: Node, p: Packet, now: real)
    requires NodeOk(s)
    ensures Legal(s, Resolve(s, p, now), None)
  {
    var e := Ent(s.rtable, p.daddr);
    var s1 := Store(s, p.daddr, e);
    StoreSame(s, p.daddr, e);
    Unchanged(s, s1, None);
    assert RouteOk(R(s, p.daddr));
    if e.flags == Up {
      ForwardDataSame(s1, p.daddr, p, now);
      LegalSame(s, s1, ForwardData(s1, p.daddr, p, now), None);
    } else if p.saddr == s.index {
      var s2 := s1.(rqueue := Enque(s1.rqueue, p, now));
      LegalSame(s, s1, s2, None);
      SendRequestLegal(s2, p.daddr, now);
      LegalTrans(s, s2, SendRequest(s2, p.daddr, now));
    } else {
      var us := [Unreachable(p.daddr, e.seqno)];
      assert R(s1, p.daddr) == R(s, p.daddr);
      SendErrorLegal(s, s1, us, None);
    }
  }

  lemma ForwardBroadcastLegal(s: Node, p: Packet, up: bool)
    requires NodeOk(s)
    ensures Legal(s, ForwardBroadcast(s, p, up), None)
  {
    Unchanged(s, s, None);
    if p.ttl != 0 { LegalSend(s, s, Data(p, IP_BROADCAST), None); }
  }

  lemma RecvDataLegal(s: Node, p: Packet, up: bool, now: real)
    requires NodeOk(s)
    ensures Legal(s, RecvData(s, p, up, now), None)
  {
    if p.saddr == s.index && p.numForwards == 0 {
      if p.daddr != IP_BROADCAST { ResolveLegal(s, p.(ttl := NETWORK_DIAMETER), now); }
      else { ForwardBroadcastLegal(s, p, up); }
    } else if p.saddr == s.index || p.ttl - 1 == 0 { Unchanged(s, s, None); }
    else if p.daddr != IP_BROADCAST { ResolveLegal(s, p.(ttl := p.ttl - 1), now); }
    else { ForwardBroadcastLegal(s, p.(ttl := p.ttl - 1), up); }
  }

  /** Events that bring no routing message leave every route alone or take it down. */
  lemma QuietEvents(s: Node, ev: Event)
    requires NodeOk(s)
    requires ev.Deliver? ==> ev.m.Hello? || ev.m.Data?
    ensures Legal(s, Handle(s, ev, false), None)
  {
    match ev
    case Deliver(m, now) =>
      if m.Hello? { RaiseSeqno(s, RecvHello(s, m, now)); }
      else { RecvDataLegal(s, ReceptionCounted(m.packet), true, now); }
    case Originate(p, now) => RecvDataLegal(s, p, false, now);
    case LinkFailure(p, isData, nextHop, now) => NbDeleteLegal(s, nextHop); Unchanged(s, s, None);
    case RouteTimer(now) => PurgeRoutesLegal(s, s.rlist, now);
    case BroadcastTimer(now) => RaiseSeqno(s, s.(bihead := IdPurge(s.bihead, now)));
    case NeighborTimer(now) => NbPurgeLegal(s, s.nbhead, now);
    case HelloTimer(now) => Unchanged(s, s, None); LegalSend(s, s, Hello(s.index, s.seqno), None);
    case RepairTimer(dst, now) => Unchanged(s, s, None);
  }

  // ---------------------------------------------------------------- events with a routing message

  lemma NoneIsLegal(s: Node, s': Node, inp: Option<Msg>)
    requires Legal(s, s', None)
    ensures Legal(s, s', inp)
  {
    forall d ensures RouteStep(R(s, d), R(s', d), d, inp) {
      assert RouteStep(R(s, d), R(s', d), d, None);
    }
  }

  /** Storing what a message offers, when it is better than what the table has. */
  lemma LearnLegal(s: Node, dst: Addr, e: Entry, m: Msg)
    requires NodeOk(s) && InputOk(m) && Learned(R(s, dst), RouteOf(e), dst, Some(m))
    ensures Legal(s, Store(s, dst, e), Some(m))
  {
    StoreRoutes(s, dst, e);
    forall d ensures RouteStep(R(s, d), R(Store(s, dst, e), d), d, Some(m)) && RouteOk(R(Store(s, dst, e), d)) {
      assert RouteOk(R(s, d));
    }
  }

  lemma ReverseRouteLegal(s: Node, m: Msg, now: real)
    requires NodeOk(s) && m.Rreq? && InputOk(m)
    ensures Legal(s, ReverseRoute(s, m, now), Some(m))
    ensures var r := R(ReverseRoute(s, m, now), m.src); AsFresh(r.seqno, r.hops, m.srcSeqno, Finite(m.hopCount))
  {
    var e0 := Ent(s.rtable, m.src);
    var e := e0.(expire := MaxReal(e0.expire, now + REV_ROUTE_LIFE));
    assert RouteOk(R(s, m.src));
    if BetterThan(m.srcSeqno, m.hopCount, e) {
      var e1 := ReverseEntry(e, m, now);
      var s1 := Store(s, m.src, e1);
      LearnLegal(s, m.src, e1, m);
      StoreRoutes(s, m.src, e1);
      FlushSame(s1, m.src, now);
      LegalSame(s, s1, Flush(s1, m.src, now), Some(m));
      assert R(Flush(s1, m.src, now), m.src) == R(s1, m.src);
    } else {
      StoreSame(s, m.src, e);
      Unchanged(s, Store(s, m.src, e), Some(m));
      assert R(Store(s, m.src, e), m.src) == R(s, m.src);
    }
  }

  /** A destination answers with an even number above its own and the wanted one;
      when nobody has counted past its next odd number, that is its own number plus two. */
  lemma AnswerSeqnoEven(own: nat, wanted: nat)
    ensures AnswerSeqno(own, wanted) % 2 == 0 && AnswerSeqno(own, wanted) > own && AnswerSeqno(own, wanted) > wanted
    ensures own % 2 == 0 && wanted <= own + 1 ==> AnswerSeqno(own, wanted) == own + 2
  {
  }

  lemma RaiseForAnswer(s0: Node, s: Node, m: Msg)
    requires m.Rreq? && Legal(s0, s, Some(m)) && m.dst == s.index
    ensures Legal(s0, s.(seqno := AnswerSeqno(s.seqno, m.dstSeqno)), Some(m))
  {
    AnswerSeqnoEven(s.seqno, m.dstSeqno);
    var s1 := s.(seqno := AnswerSeqno(s.seqno, m.dstSeqno));
    assert forall d {:trigger R(s1, d)} :: R(s1, d) == R(s, d);
    forall k | |s0.outbox| <= k < |s1.outbox| ensures MaySend(s1, s1.outbox[k], Some(m)) {
      MaySendLater(s, s1, s1.outbox[k], Some(m));
    }
  }

  lemma OwnAnswerLegal(s0: Node, s: Node, m: Msg)
    requires m.Rreq? && Legal(s0, s, Some(m)) && m.dst == s.index
    ensures Legal(s0, OwnAnswer(s, m), Some(m))
  {
    RaiseForAnswer(s0, s, m);
    AnswerSeqnoEven(s.seqno, m.dstSeqno);
    var s1 := s.(seqno := AnswerSeqno(s.seqno, m.dstSeqno));
    LegalSend(s0, s1, Rrep(m.src, Ent(s1.rtable, m.src).nexthop, NETWORK_DIAMETER, 1, s1.index, s1.seqno,
                           s1.index, MY_ROUTE_TIMEOUT, m.timestamp), Some(m));
  }

  lemma PrecursorLegal(s0: Node, s: Node, dst: Addr, user: Addr, inp: Option<Msg>)
    requires Legal(s0, s, inp)
    ensures Legal(s0, AddPrecursor(s, dst, user), inp)
  {
    var e := Ent(s.rtable, dst);
    StoreSame(s, dst, e.(precursors := PcInsert(e.precursors, user)));
    LegalSame(s0, s, AddPrecursor(s, dst, user), inp);
  }

  lemma TableReplyLegal(s0: Node, s: Node, m: Msg, lifetime: real)
    requires m.Rreq? && Legal(s0, s, Some(m)) && m.dst != s.index && CanAnswer(s.rtable, m)
    ensures Legal(s0, SendReply(s, m.src, Ent(s.rtable, m.dst).hops.n + 1, m.dst, Ent(s.rtable, m.dst).seqno,
                                lifetime, m.timestamp), Some(m))
  {
    var rt := Ent(s.rtable, m.dst);
    assert RouteOk(R(s, m.dst));
    LegalSend(s0, s, Rrep(m.src, Ent(s.rtable, m.src).nexthop, NETWORK_DIAMETER, rt.hops.n + 1, m.dst, rt.seqno,
                          s.index, lifetime, m.timestamp), Some(m));
  }

  lemma TableAnswerLegal(s0: Node, s: Node, m: Msg, now: real)
    requires m.Rreq? && Legal(s0, s, Some(m)) && m.dst != s.index && CanAnswer(s.rtable, m)
    ensures Legal(s0, TableAnswer(s, m, now), Some(m))
  {
    var rt := Ent(s.rtable, m.dst);
    var lifetime := CastU32(rt.expire - now);
    TableReplyLegal(s0, s, m, lifetime);
    var s1 := SendReply(s, m.src, rt.hops.n + 1, m.dst, rt.seqno, lifetime, m.timestamp);
    var user := Ent(s.rtable, m.src).nexthop;
    PrecursorLegal(s0, s1, m.dst, user, Some(m));
    PrecursorLegal(s0, AddPrecursor(s1, m.dst, user), m.src, rt.nexthop, Some(m));
  }

  lemma PassedOnLegal(s0: Node, s: Node, m: Msg)
    requires m.Rreq? && InputOk(m) && Legal(s0, s, Some(m)) && m.src != s.index && m.dst != s.index
    requires AsFresh(R(s, m.src).seqno, R(s, m.src).hops, m.srcSeqno, Finite(m.hopCount))
    ensures Legal(s0, Send(s, PassedOn(s, m)), Some(m))
  {
    var out := PassedOn(s, m);
    assert out.dstSeqno <= R(s, out.dst).seqno || out.dstSeqno == m.dstSeqno;
    assert OfferOk(s, AdvertOf(out).value, false, m);
    LegalSend(s0, s, out, Some(m));
  }

  lemma AnswerLegal(s0: Node, s: Node, m: Msg, now: real)
    requires m.Rreq? && InputOk(m) && m.src != s.index && Legal(s0, s, Some(m))
    requires AsFresh(R(s, m.src).seqno, R(s, m.src).hops, m.srcSeqno, Finite(m.hopCount))
    ensures Legal(s0, Answer(s, m, now), Some(m))
  {
    if m.dst == s.index { OwnAnswerLegal(s0, s, m); }
    else if CanAnswer(s.rtable, m) { TableAnswerLegal(s0, s, m, now); }
    else if m.ttl - 1 != 0 { PassedOnLegal(s0, s, m); }
  }

  lemma RecvRequestLegal(s: Node, m: Msg, now: real)
    requires NodeOk(s) && m.Rreq? && InputOk(m)
    ensures Legal(s, RecvRequest(s, m, now), Some(m))
  {
    if m.src == s.index || IdSeen(s.bihead, m.src, m.bcastId) {
      Unchanged(s, s, Some(m));
    } else {
      var s1 := s.(bihead := IdInsert(s.bihead, m.src, m.bcastId, now));
      assert forall d {:trigger R(s1, d)} :: R(s1, d) == R(s, d);
      ReverseRouteLegal(s1, m, now);
      var s2 := ReverseRoute(s1, m, now);
      assert Legal(s, s2, Some(m)) by {
        forall d ensures RouteStep(R(s, d), R(s2, d), d, Some(m)) {
          assert RouteStep(R(s1, d), R(s2, d), d, Some(m));
        }
      }
      AnswerLegal(s, s2, m, now);
    }
  }

  lemma ForwardReplyLegal(s0: Node, s: Node, m: Msg, now: real)
    requires m.Rrep? && InputOk(m) && Legal(s0, s, Some(m))
    requires R(s, m.dst) == Route(m.dstSeqno, Finite(m.hopCount), Up, m.src)
    ensures Legal(s0, ForwardReply(s, m, now), Some(m))
  {
    var rt0 := Ent(s.rtable, m.daddr);
    if m.daddr in s.rtable && rt0.hops != Infinite {
      var e1 := rt0.(expire := now + ACTIVE_ROUTE_TIMEOUT);
      var s1 := Store(s, m.daddr, e1);
      StoreSame(s, m.daddr, e1);
      LegalSame(s0, s, s1, Some(m));
      var out := m.(nextHop := rt0.nexthop, ttl := m.ttl - 1, hopCount := m.hopCount + 1, src := s.index);
      assert R(s1, m.dst) == R(s, m.dst);
      assert RelayedMessage(s1, out, m);
      LegalSend(s0, s1, out, Some(m));
      var s2 := if m.ttl - 1 == 0 then s else Send(s1, out);
      PrecursorLegal(s0, s2, m.dst, rt0.nexthop, Some(m));
    }
  }

  lemma RecvReplyLegal(s: Node, m: Msg, now: real)
    requires NodeOk(s) && m.Rrep? && InputOk(m)
    ensures Legal(s, RecvReply(s, m, now), Some(m))
  {
    var e := Ent(s.rtable, m.dst);
    if !BetterThan(m.dstSeqno, m.hopCount, e) {
      StoreSame(s, m.dst, e);
      Unchanged(s, Store(s, m.dst, e), Some(m));
    } else {
      var e1 := ReplyEntry(e, m, m.daddr == s.index, now);
      var s1 := Store(s, m.dst, e1);
      LearnLegal(s, m.dst, e1, m);
      StoreRoutes(s, m.dst, e1);
      FlushSame(s1, m.dst, now);
      var s2 := Flush(s1, m.dst, now);
      LegalSame(s, s1, s2, Some(m));
      assert R(s2, m.dst) == R(s1, m.dst);
      if m.daddr != s.index { ForwardReplyLegal(s, s2, m, now); }
    }
  }

  /** One item of an error report breaks a route for good or changes nothing. */
  lemma BreakRouteStep(s0: Node, s: Node, u: Unreachable, inp: Msg)
    requires Legal(s0, s, Some(inp)) && inp.Rerr? && u in inp.unreachable && LostNumber(u.seqno)
    ensures Legal(s0, s.(rtable := BreakRoute(s.rtable, u, inp.saddr)), Some(inp))
    ensures forall d {:trigger R(s, d)} :: R(s, d).seqno <= R(s.(rtable := BreakRoute(s.rtable, u, inp.saddr)), d).seqno
    ensures u.dst in s.rtable && Breaks(s.rtable[u.dst], u, inp.saddr)
            ==> R(s.(rtable := BreakRoute(s.rtable, u, inp.saddr)), u.dst).seqno == u.seqno
  {
    var s' := s.(rtable := BreakRoute(s.rtable, u, inp.saddr));
    forall d ensures RouteStep(R(s0, d), R(s', d), d, Some(inp)) && RouteOk(R(s', d)) && R(s, d).seqno <= R(s', d).seqno {
      assert RouteOk(R(s, d));
      assert RouteStep(R(s0, d), R(s, d), d, Some(inp));
    }
    forall k | |s0.outbox| <= k < |s'.outbox|
      ensures OwnMessage(s', s'.outbox[k]) || RelayedMessage(s', s'.outbox[k], inp)
    {
      if OwnMessage(s, s.outbox[k]) { OwnMessageLater(s, s', s'.outbox[k]); }
    }
  }

  lemma {:induction false} AfterErrorsLegal(s0: Node, s: Node, us: seq<Unreachable>, inp: Msg)
    requires Legal(s0, s, Some(inp)) && inp.Rerr? && ReportFrom(us, inp)
    ensures Legal(s0, s.(rtable := AfterErrors(s.rtable, us, inp.saddr)), Some(inp))
    ensures forall d {:trigger R(s, d)} :: R(s, d).seqno <= R(s.(rtable := AfterErrors(s.rtable, us, inp.saddr)), d).seqno
    decreases |us|
  {
    if us != [] {
      var s1 := s.(rtable := BreakRoute(s.rtable, us[0], inp.saddr));
      BreakRouteStep(s0, s, us[0], inp);
      ReportFromTail(us, inp);
      AfterErrorsLegal(s0, s1, us[1..], inp);
      var s2 := s1.(rtable := AfterErrors(s1.rtable, us[1..], inp.saddr));
      forall d ensures R(s, d).seqno <= R(s2, d).seqno {
        assert R(s, d).seqno <= R(s1, d).seqno <= R(s2, d).seqno;
      }
    }
  }

  ghost predicate ReportFrom(us: seq<Unreachable>, inp: Msg)
    requires inp.Rerr?
  {
    forall i :: 0 <= i < |us| ==> us[i] in inp.unreachable && LostNumber(us[i].seqno)
  }

  lemma ReportFromTail(us: seq<Unreachable>, inp: Msg)
    requires inp.Rerr? && ReportFrom(us, inp) && us != []
    ensures ReportFrom(us[1..], inp)
  {
  }

  lemma {:induction false} ErrorReportOk(s0: Node, s: Node, us: seq<Unreachable>, inp: Msg)
    requires Legal(s0, s, Some(inp)) && inp.Rerr? && ReportFrom(us, inp)
    ensures ReportOk(s.(rtable := AfterErrors(s.rtable, us, inp.saddr)), ErrorReport(s.rtable, us, inp.saddr))
    decreases |us|
  {
    if us != [] {
      var s1 := s.(rtable := BreakRoute(s.rtable, us[0], inp.saddr));
      BreakRouteStep(s0, s, us[0], inp);
      ReportFromTail(us, inp);
      ErrorReportOk(s0, s1, us[1..], inp);
      AfterErrorsLegal(s0, s1, us[1..], inp);
      var s2 := s1.(rtable := AfterErrors(s1.rtable, us[1..], inp.saddr));
      assert s2 == s.(rtable := AfterErrors(s.rtable, us, inp.saddr));
      assert R(s1, us[0].dst).seqno <= R(s2, us[0].dst).seqno;
    }
  }

  lemma RecvErrorLegal(s: Node, m: Msg)
    requires NodeOk(s) && m.Rerr? && InputOk(m)
    ensures Legal(s, RecvError(s, m), Some(m))
  {
    Unchanged(s, s, Some(m));
    AfterErrorsLegal(s, s, m.unreachable, m);
    ErrorReportOk(s, s, m.unreachable, m);
    SendErrorLegal(s, s.(rtable := AfterErrors(s.rtable, m.unreachable, m.saddr)),
                   ErrorReport(s.rtable, m.unreachable, m.saddr), Some(m));
  }

  /** Every event of a node keeps its tables in order and changes and sends only what is allowed. */
  lemma EventLegal(s: Node, ev: Event)
    requires NodeOk(s) && (ev.Deliver? ==> InputOk(ev.m))
    ensures Legal(s, Handle(s, ev, false), if ev.Deliver? then Some(ev.m) else None)
  {
    if ev.Deliver? && ev.m.Rreq? { RecvRequestLegal(s, ev.m, ev.now); }
    else if ev.Deliver? && ev.m.Rrep? { RecvReplyLegal(s, ev.m, ev.now); }
    else if ev.Deliver? && ev.m.Rerr? { RecvErrorLegal(s, ev.m); }
    else {
      QuietEvents(s, ev);
      NoneIsLegal(s, Handle(s, ev, false), if ev.Deliver? then Some(ev.m) else None);
    }
  }
}
