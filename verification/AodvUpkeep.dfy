/** What data packets, lost links and timers do to an AODV node, told by what it had before. */
module AodvUpkeep {
  import opened Common
  import opened RouteQueue
  import opened OnDemand
  import opened Aodv
  import opened AodvSteps
  import opened AodvEffects
  import opened AodvTiming

  // ---------------------------------------------------------------- error reports

  /** A route that is gone: it keeps its length for the next search, and nobody uses it. */
  predicate IsDown(e: Entry, e': Entry, seqno: nat) {
    e' == e.(seqno := seqno, lastHopCount := e.hops, hops := Infinite, flags := Down, nexthop := 0,
             expire := 0.0, precursors := e'.precursors)
  }

  predicate TakesDown(e: Entry, dst: Addr, u: Unreachable, from: Addr) {
    u.dst == dst && e.hops.Finite? && e.nexthop == from && u.seqno >= e.seqno
  }

  /** The position of the first item that takes the route e to dst down, or |us| if there is none. */
  function FirstDown(e: Entry, dst: Addr, us: seq<Unreachable>, from: Addr): (i: nat)
    ensures i <= |us| && (i < |us| ==> TakesDown(e, dst, us[i], from))
    ensures forall k: nat :: k < i ==> !TakesDown(e, dst, us[k], from)
  {
    if us == [] then 0
    else if TakesDown(e, dst, us[0], from) then 0
    else 1 + FirstDown(e, dst, us[1..], from)
  }

  predicate UpIfFinite(e: Entry) {
    e.hops.Finite? ==> e.flags == Up
  }

  lemma {:induction false} NoneDown(e: Entry, dst: Addr, us: seq<Unreachable>, from: Addr)
    requires e.hops.Infinite?
    ensures FirstDown(e, dst, us, from) == |us|
  {
    if us != [] { NoneDown(e, dst, us[1..], from); }
  }

  lemma BreakRouteAt(t: Table, u: Unreachable, from: Addr, d: Addr)
    requires UpIfFinite(Ent(t, d))
    ensures var e, e' := Ent(t, d), Ent(BreakRoute(t, u, from), d);
            if TakesDown(e, d, u, from) then IsDown(e, e', u.seqno) && e'.precursors == [] else e' == e
  {
  }

  lemma {:induction false} AfterErrorsAt(t: Table, us: seq<Unreachable>, from: Addr, d: Addr)
    requires UpIfFinite(Ent(t, d))
    ensures var e, e', i := Ent(t, d), Ent(AfterErrors(t, us, from), d), FirstDown(Ent(t, d), d, us, from);
            if i < |us| then IsDown(e, e', us[i].seqno) && e'.precursors == [] else e' == e
    decreases |us|
  {
    if us != [] {
      var t1 := BreakRoute(t, us[0], from);
      BreakRouteAt(t, us[0], from, d);
      AfterErrorsAt(t1, us[1..], from, d);
      if TakesDown(Ent(t, d), d, us[0], from) { NoneDown(Ent(t1, d), d, us[1..], from); }
    }
  }

  predicate Reported(e: Entry, u: Unreachable, us: seq<Unreachable>, from: Addr) {
    var i := FirstDown(e, u.dst, us, from);
    i < |us| && us[i] == u && e.precursors != []
  }

  lemma {:induction false} ErrorReportHas(t: Table, us: seq<Unreachable>, from: Addr, u: Unreachable)
    requires UpIfFinite(Ent(t, u.dst))
    ensures u in ErrorReport(t, us, from) <==> Reported(Ent(t, u.dst), u, us, from)
    decreases |us|
  {
    if us != [] {
      var t1 := BreakRoute(t, us[0], from);
      BreakRouteAt(t, us[0], from, u.dst);
      ErrorReportHas(t1, us[1..], from, u);
      if TakesDown(Ent(t, u.dst), u.dst, us[0], from) { NoneDown(Ent(t1, u.dst), u.dst, us[1..], from); }
    }
  }

  /** An error report takes down exactly the routes through its sender that it names with a number that is not
      smaller; the first such item for a route counts. */
  lemma ErrorRoutes(s: Node, m: Msg, now: real, localRepair: bool, d: Addr)
    requires m.Rerr? && NodeOk(s)
    ensures var s' := Handle(s, Deliver(m, now), localRepair);
            var e, e', i := Ent(s.rtable, d), Ent(s'.rtable, d), FirstDown(Ent(s.rtable, d), d, m.unreachable, m.saddr);
            && SameRest(s, s') && s'.rqueue == s.rqueue
            && if i < |m.unreachable| then IsDown(e, e', m.unreachable[i].seqno) && e'.precursors == [] else e' == e
  {
    assert RouteOk(R(s, d));
    AfterErrorsAt(s.rtable, m.unreachable, m.saddr, d);
  }

  /** The node reports in turn exactly those lost routes that others use, if there are any. */
  lemma ErrorSends(s: Node, m: Msg, now: real, localRepair: bool) returns (us: seq<Unreachable>)
    requires m.Rerr? && NodeOk(s)
    ensures Handle(s, Deliver(m, now), localRepair).outbox == s.outbox + if us == [] then [] else [Rerr(s.index, us)]
    ensures forall u :: u in us <==> Reported(Ent(s.rtable, u.dst), u, m.unreachable, m.saddr)
  {
    us := ErrorReport(s.rtable, m.unreachable, m.saddr);
    forall u ensures u in us <==> Reported(Ent(s.rtable, u.dst), u, m.unreachable, m.saddr) {
      assert RouteOk(R(s, u.dst));
      ErrorReportHas(s.rtable, m.unreachable, m.saddr, u);
    }
  }

  // ---------------------------------------------------------------- lost neighbours

  predicate Through(e: Entry, id: Addr) {
    e.hops.Finite? && e.nexthop == id
  }

  lemma {:induction false} PcDeleteOne(pc: seq<Addr>, id: Addr)
    ensures multiset(PcDelete(pc, id)) == multiset(pc) - multiset{id}
  {
    if pc != [] {
      assert pc == [pc[0]] + pc[1..];
      if pc[0] != id { PcDeleteOne(pc[1..], id); }
    }
  }

  /** What losing the neighbour id does to an entry. */
  ghost predicate LostWith(e: Entry, id: Addr, e': Entry) {
    && (if Through(e, id) then IsDown(e, e', e.seqno + 1) else e' == e.(precursors := e'.precursors))
    && multiset(e'.precursors) == multiset(e.precursors) - multiset{id}
  }

  lemma {:induction false} FailReportHas(t: Table, l: seq<Addr>, id: Addr, u: Unreachable)
    ensures u in FailReport(t, l, id)
       <==> u.dst in l && u.dst in t && Through(t[u.dst], id) && u.seqno == t[u.dst].seqno + 1
  {
    if l != [] { FailReportHas(t, l[1..], id, u); }
  }

  lemma FailEntryEffect(e: Entry, id: Addr)
    requires UpIfFinite(e)
    ensures LostWith(e, id, FailEntry(e, id))
  {
    PcDeleteOne(e.precursors, id);
  }

  /** Losing a neighbour takes down exactly the routes through it, each with the number after its own. */
  lemma LossRoutes(s: Node, id: Addr, d: Addr)
    requires NodeOk(s)
    ensures LostWith(Ent(s.rtable, d), id, Ent(NbDelete(s, id).rtable, d))
  {
    assert RouteOk(R(s, d));
    FailEntryEffect(Ent(s.rtable, d), id);
    assert Ent(NbDelete(s, id).rtable, d) == FailEntry(Ent(s.rtable, d), id);
  }

  /** The lost routes are reported, if there are any; the node raises its number and forgets the neighbour. */
  lemma LossSends(s: Node, id: Addr) returns (us: seq<Unreachable>)
    requires NodeOk(s)
    ensures var s' := NbDelete(s, id);
            && s'.index == s.index && s'.bid == s.bid && s'.bihead == s.bihead && s'.rqueue == s.rqueue
            && s'.rlist == s.rlist && s'.seqno == s.seqno + 2 && s'.nbhead == NbRemove(s.nbhead, id)
            && s'.outbox == s.outbox + if us == [] then [] else [Rerr(s.index, us)]
    ensures forall u :: u in us <==>
              u.dst in s.rlist && u.dst in s.rtable && Through(s.rtable[u.dst], id)
              && u.seqno == s.rtable[u.dst].seqno + 1
  {
    us := FailReport(s.rtable, s.rlist, id);
    forall u ensures u in us <==>
              u.dst in s.rlist && u.dst in s.rtable && Through(s.rtable[u.dst], id)
              && u.seqno == s.rtable[u.dst].seqno + 1
    {
      FailReportHas(s.rtable, s.rlist, id, u);
    }
  }

  /** The link layer's report counts exactly for unicast data to a destination that the table knows. */
  lemma FailureIsLoss(s: Node, p: Packet, isData: bool, nextHop: Addr, now: real)
    ensures Handle(s, LinkFailure(p, isData, nextHop, now), false)
         == if isData && p.daddr != 0xffff_ffff && p.daddr in s.rtable then NbDelete(s, nextHop) else s
  {
  }

  /** Some error report after place k tells of the loss of this route. */
  ghost predicate Told(outbox: seq<Msg>, k: nat, u: Unreachable) {
    exists i: nat :: k <= i < |outbox| && outbox[i].Rerr? && u in outbox[i].unreachable
  }

  lemma ToldBefore(outbox: seq<Msg>, more: seq<Msg>, k: nat, u: Unreachable)
    requires Told(outbox, k, u) && outbox <= more
    ensures Told(more, k, u)
  {
    var i: nat :| k <= i < |outbox| && outbox[i].Rerr? && u in outbox[i].unreachable;
    assert more[i] == outbox[i];
  }

  predicate Listed(s: Node, d: Addr) {
    d in s.rlist && d in s.rtable
  }

  /** What is left of an entry when the neighbours of list nb have been looked at. */
  ghost predicate PurgedEntry(e: Entry, nb: seq<Neighbor>, now: real, e': Entry) {
    if e.hops.Finite? && TimedOut(nb, e.nexthop, now) then IsDown(e, e', e.seqno + 1)
    else e' == e.(precursors := e'.precursors)
  }

  /** The loss of a listed route has been told. */
  ghost predicate ToldOf(s: Node, s': Node, nb: seq<Neighbor>, now: real, d: Addr) {
    var e := Ent(s.rtable, d);
    && s.outbox <= s'.outbox && s'.rlist == s.rlist && s'.rtable.Keys == s.rtable.Keys
    && (e.hops.Finite? && TimedOut(nb, e.nexthop, now) && Listed(s, d)
        ==> Told(s'.outbox, |s.outbox|, Unreachable(d, e.seqno + 1)))
  }

  ghost predicate ToldLoss(s: Node, s1: Node, id: Addr, d: Addr) {
    && s.outbox <= s1.outbox && s1.rlist == s.rlist && s1.rtable.Keys == s.rtable.Keys
    && (Through(Ent(s.rtable, d), id) && Listed(s, d)
        ==> Told(s1.outbox, |s.outbox|, Unreachable(d, Ent(s.rtable, d).seqno + 1)))
  }

  lemma LossTold(s: Node, id: Addr, d: Addr)
    requires NodeOk(s)
    ensures ToldLoss(s, NbDelete(s, id), id, d)
  {
    var s', u := NbDelete(s, id), Unreachable(d, Ent(s.rtable, d).seqno + 1);
    var us := LossSends(s, id);
    if u in us { assert s'.outbox[|s.outbox|] == Rerr(s.index, us); }
  }

  lemma PurgedFirst(e: Entry, e1: Entry, e': Entry, nb: seq<Neighbor>, now: real)
    requires nb != [] && nb[0].expire <= now
    requires LostWith(e, nb[0].addr, e1) && PurgedEntry(e1, nb[1..], now, e')
    ensures PurgedEntry(e, nb, now, e')
  {
    TimedOutTail(nb, e.nexthop, now);
  }

  lemma ToldStep(e: Entry, e1: Entry, nb: seq<Neighbor>, now: real, d: Addr,
                 before: seq<Msg>, between: seq<Msg>, after: seq<Msg>)
    requires nb != [] && nb[0].expire <= now && LostWith(e, nb[0].addr, e1)
    requires before <= between <= after
    requires Through(e, nb[0].addr) ==> Told(between, |before|, Unreachable(d, e.seqno + 1))
    requires e1.hops.Finite? && TimedOut(nb[1..], e1.nexthop, now)
             ==> Told(after, |between|, Unreachable(d, e1.seqno + 1))
    ensures e.hops.Finite? && TimedOut(nb, e.nexthop, now) ==> Told(after, |before|, Unreachable(d, e.seqno + 1))
  {
    TimedOutTail(nb, e.nexthop, now);
    if Through(e, nb[0].addr) { ToldBefore(between, after, |before|, Unreachable(d, e.seqno + 1)); }
    else if e.hops.Finite? && TimedOut(nb, e.nexthop, now) {
      ToldLater(after, |before|, |between|, Unreachable(d, e.seqno + 1));
    }
  }

  lemma ToldFirst(s: Node, s1: Node, s': Node, nb: seq<Neighbor>, now: real, d: Addr)
    requires nb != [] && nb[0].expire <= now && ToldLoss(s, s1, nb[0].addr, d)
    requires LostWith(Ent(s.rtable, d), nb[0].addr, Ent(s1.rtable, d)) && ToldOf(s1, s', nb[1..], now, d)
    ensures ToldOf(s, s', nb, now, d)
  {
    assert Listed(s1, d) == Listed(s, d);
    if Listed(s, d) {
      ToldStep(Ent(s.rtable, d), Ent(s1.rtable, d), nb, now, d, s.outbox, s1.outbox, s'.outbox);
    }
  }

  lemma ToldLater(outbox: seq<Msg>, k: nat, l: nat, u: Unreachable)
    requires Told(outbox, l, u) && k <= l
    ensures Told(outbox, k, u)
  {
  }

  lemma {:induction false} NbPurgeRoutes(s: Node, nb: seq<Neighbor>, now: real, d: Addr)
    requires NodeOk(s)
    ensures PurgedEntry(Ent(s.rtable, d), nb, now, Ent(NbPurge(s, nb, now).rtable, d))
    ensures NbPurge(s, nb, now).seqno == s.seqno + 2 * CountTimedOut(nb, now)
    decreases |nb|
  {
    if nb != [] {
      if nb[0].expire <= now {
        var s1 := NbDelete(s, nb[0].addr);
        NbDeleteLegal(s, nb[0].addr);
        LossRoutes(s, nb[0].addr, d);
        NbPurgeRoutes(s1, nb[1..], now, d);
        PurgedFirst(Ent(s.rtable, d), Ent(s1.rtable, d), Ent(NbPurge(s1, nb[1..], now).rtable, d), nb, now);
      } else {
        NbPurgeRoutes(s, nb[1..], now, d);
        TimedOutTail(nb, Ent(s.rtable, d).nexthop, now);
      }
    }
  }

  lemma {:induction false} NbPurgeTold(s: Node, nb: seq<Neighbor>, now: real, d: Addr)
    requires NodeOk(s)
    ensures ToldOf(s, NbPurge(s, nb, now), nb, now, d)
    decreases |nb|
  {
    if nb != [] {
      if nb[0].expire <= now {
        var s1 := NbDelete(s, nb[0].addr);
        NbDeleteLegal(s, nb[0].addr);
        NbPurgeTold(s1, nb[1..], now, d);
        LossRoutes(s, nb[0].addr, d);
        LossTold(s, nb[0].addr, d);
        ToldFirst(s, s1, NbPurge(s1, nb[1..], now), nb, now, d);
      } else {
        NbPurgeTold(s, nb[1..], now, d);
        TimedOutTail(nb, Ent(s.rtable, d).nexthop, now);
      }
    }
  }

  /** The neighbour timer takes down exactly the routes through neighbours not heard of in time, and tells of them. */
  lemma NeighborsPurged(s: Node, now: real, localRepair: bool, d: Addr)
    requires NodeOk(s)
    ensures var s' := Handle(s, NeighborTimer(now), localRepair);
            && PurgedEntry(Ent(s.rtable, d), s.nbhead, now, Ent(s'.rtable, d)) && ToldOf(s, s', s.nbhead, now, d)
            && s'.seqno == s.seqno + 2 * CountTimedOut(s.nbhead, now)
  {
    NbPurgeRoutes(s, s.nbhead, now, d);
    NbPurgeTold(s, s.nbhead, now, d);
  }

  /** A hello from a new neighbour adds it and raises the own number; from a known one it prolongs the first
      place with its address. */
  lemma HelloHeard(s: Node, m: Msg, now: real, localRepair: bool)
    requires m.Hello?
    ensures var s' := Handle(s, Deliver(m, now), localRepair);
            && s'.(nbhead := s.nbhead, seqno := s.seqno) == s
            && if exists k: nat :: k < |s.nbhead| && s.nbhead[k].addr == m.dst
               then
                 && s'.seqno == s.seqno
                 && exists k: nat ::
                      && k < |s.nbhead| && s.nbhead[k].addr == m.dst
                      && (forall i: nat :: i < k ==> s.nbhead[i].addr != m.dst)
                      && s'.nbhead == s.nbhead[..k] + [Neighbor(m.dst, now + 4.5)] + s.nbhead[k + 1..]
               else s'.seqno == s.seqno + 2 && s'.nbhead == [Neighbor(m.dst, now + 4.5)] + s.nbhead
  {
    var k := NbLookup(s.nbhead, m.dst);
    if k < |s.nbhead| {
      var s' := Handle(s, Deliver(m, now), localRepair);
      assert s'.nbhead == s.nbhead[..k] + [Neighbor(m.dst, now + 4.5)] + s.nbhead[k + 1..];
    }
  }

  // ---------------------------------------------------------------- searching

  function RingTtl(e: Entry): nat {
    WideningRing(e.lastHopCount, e.reqLastTtl)
  }

  function Positive(x: real): real {
    if x > 0.0 then x else 0.0
  }

  function One(x: real): nat {
    if x > 0.0 then 1 else 0
  }

  /** The mean of the positive samples among the last three, or 0.03 seconds when there is none. */
  function MeanLatency(e: Entry): real {
    var l := e.discLatency;
    var n := One(l[0]) + One(l[1]) + One(l[2]);
    if n == 0 then 0.03 else (Positive(l[0]) + Positive(l[1]) + Positive(l[2])) / n as real
  }

  lemma MeanIsPerHop(e: Entry)
    ensures PerHopTime(e) == MeanLatency(e)
  {
    var l := e.discLatency;
    assert l[1..][1..] == [l[2]] && l[1..][1..][1..] == [];
    assert CountPositive(l) == One(l[0]) + CountPositive(l[1..]);
    assert CountPositive(l[1..]) == One(l[1]) + CountPositive(l[1..][1..]);
    assert CountPositive([l[2]]) == One(l[2]) + CountPositive([l[2]][1..]);
    assert SumPositive(l) == Positive(l[0]) + SumPositive(l[1..]);
    assert SumPositive(l[1..]) == Positive(l[1]) + SumPositive(l[1..][1..]);
    assert SumPositive([l[2]]) == Positive(l[2]) + SumPositive([l[2]][1..]);
  }

  lemma RingIsTtl(e: Entry)
    ensures RequestTtl(e) == RingTtl(e) && NetworkWide(e) == WholeNetwork(e.lastHopCount, e.reqLastTtl)
  {
  }

  function AtMostTen(x: real): real {
    if x > 10.0 then 10.0 else x
  }

  /** The entry after a request: its ring, its count of whole-network requests and its deadline. */
  lemma RequestedFields(e: Entry, now: real)
    ensures var cnt := e.reqCnt + if WholeNetwork(e.lastHopCount, e.reqLastTtl) then 1 else 0;
            Requested(e, now)
            == e.(reqLastTtl := RingTtl(e), reqCnt := cnt, expire := 0.0,
                  reqTimeout := now + AtMostTen(Backoff(RingTtl(e), MeanLatency(e), cnt)))
  {
    MeanIsPerHop(e);
    RingIsTtl(e);
  }

  predicate Waits(e: Entry, now: real) {
    e.flags == Up || e.reqTimeout > now
  }

  /** What an attempt to ask for dst does: nothing with a route or before the deadline; after more than three
      requests through the whole network the waiting packets are dropped; else one request goes out. */
  ghost predicate Attempted(s: Node, s': Node, dst: Addr, now: real) {
    var e, e' := Ent(s.rtable, dst), Ent(s'.rtable, dst);
    && s'.index == s.index && s'.nbhead == s.nbhead && s'.bihead == s.bihead
    && (forall d {:trigger Ent(s'.rtable, d)} :: d != dst ==> Ent(s'.rtable, d) == Ent(s.rtable, d))
    && if Waits(e, now) then SameRest(s, s') && s'.rqueue == s.rqueue && s'.outbox == s.outbox && e' == e
       else if e.reqCnt >= 4 then
         && SameRest(s, s') && s'.outbox == s.outbox && s'.rqueue == Left(s.rqueue, dst, now)
         && e' == e.(reqTimeout := now + 10.0, reqCnt := 0)
       else
         && s'.bid == s.bid + 1 && s'.seqno == s.seqno + 2 && s'.rqueue == s.rqueue && e' == Requested(e, now)
         && s'.outbox == s.outbox + [Rreq(s.index, RingTtl(e), 1, s.bid, dst, e.seqno, s.index, s.seqno + 2, now)]
  }

  lemma AttemptEffect(s: Node, dst: Addr, now: real)
    ensures Attempted(s, SendRequest(s, dst, now), dst, now)
  {
    LeftIsWithout(s.rqueue, dst, now);
  }

  // ---------------------------------------------------------------- data packets

  /** A packet with a route goes along it, unless it is for this node or may not travel; the route is prolonged. */
  lemma ResolveUp(s: Node, p: Packet, now: real)
    requires R(s, p.daddr).flags == Up
    ensures var s', goes := Resolve(s, p, now), p.ttl != 0 && p.daddr != s.index;
            && SameRest(s, s') && s'.rqueue == s.rqueue
            && s'.outbox == s.outbox + (if goes then [Data(p, R(s, p.daddr).nexthop)] else [])
            && forall d {:trigger Ent(s'.rtable, d)} ::
                 Ent(s'.rtable, d) == if goes && d == p.daddr then Ent(s.rtable, d).(expire := now + 10.0)
                                      else Ent(s.rtable, d)
  {
  }

  /** An own packet without a route waits, and the node asks for one. */
  lemma ResolveOwn(s: Node, p: Packet, now: real)
    requires R(s, p.daddr).flags != Up && p.saddr == s.index
    ensures Attempted(s.(rqueue := Enque(s.rqueue, p, now)), Resolve(s, p, now), p.daddr, now)
  {
    AttemptEffect(Store(s, p.daddr, Ent(s.rtable, p.daddr)).(rqueue := Enque(s.rqueue, p, now)), p.daddr, now);
  }

  /** A foreign packet without a route waits for a repair that is under way; else its loss is reported. */
  lemma ResolveForeign(s: Node, p: Packet, now: real)
    requires R(s, p.daddr).flags != Up && p.saddr != s.index
    ensures var s', r := Resolve(s, p, now), R(s, p.daddr);
            && SameRest(s, s') && (forall d {:trigger Ent(s'.rtable, d)} :: Ent(s'.rtable, d) == Ent(s.rtable, d))
            && if r.flags == InRepair then s'.outbox == s.outbox && s'.rqueue == Enque(s.rqueue, p, now)
               else s'.rqueue == s.rqueue && s'.outbox == s.outbox + [Rerr(s.index, [Unreachable(p.daddr, r.seqno)])]
  {
  }

  /** What becomes of a data packet: one that has come back or has no hops left ends; an own one starts with 30 hops,
      a received one goes on with one less; a broadcast is sent once by its source and goes no further. */
  lemma DataEffect(s: Node, p: Packet, up: bool, now: real)
    ensures var own, broadcast := p.saddr == s.index, p.daddr == 0xffff_ffff;
            RecvData(s, p, up, now)
            == if own && p.numForwards > 0 then s
               else if !own && p.ttl == 1 then s
               else if broadcast && (up || (if own then p.ttl else p.ttl - 1) == 0) then s
               else if broadcast then
                 s.(outbox := s.outbox + [Data(if own then p else p.(ttl := p.ttl - 1), 0xffff_ffff)])
               else Resolve(s, p.(ttl := if own then 30 else p.ttl - 1), now)
  {
  }

  // ---------------------------------------------------------------- the route timer

  predicate Expired(e: Entry, now: real) {
    e.flags == Up && e.expire < now
  }

  /** The timer's look at one route: an expired one goes down with the number after its own and its packets are
      dropped; along one in use, waiting packets are sent; for one that is down, waiting packets cause a request. */
  lemma PurgeRouteEffect(s: Node, dst: Addr, now: real)
    ensures var s', e := PurgeRoute(s, dst, now), Ent(s.rtable, dst);
            && (forall d {:trigger Ent(s'.rtable, d)} :: d != dst ==> Ent(s'.rtable, d) == Ent(s.rtable, d))
            && if Expired(e, now) then
                 && IsDown(e, Ent(s'.rtable, dst), e.seqno + 1) && Ent(s'.rtable, dst).precursors == e.precursors
                 && s'.rqueue == Left(s.rqueue, dst, now) && s'.outbox == s.outbox && SameRest(s, s')
               else if e.flags == Up then
                 && R(s', dst) == R(s, dst) && s'.rqueue == Left(s.rqueue, dst, now) && SameRest(s, s')
                 && s'.outbox == s.outbox + Carried(s.rqueue, dst, e.nexthop, s.index, now)
               else if exists k: nat :: k < |s.rqueue| && s.rqueue[k].packet.daddr == dst then
                 Attempted(s, s', dst, now)
               else s' == s
  {
    LeftIsWithout(s.rqueue, dst, now);
    AttemptEffect(s, dst, now);
    if Ent(s.rtable, dst).flags == Up && !Expired(Ent(s.rtable, dst), now) { FlushEffect(s, dst, now); }
  }

  lemma {:induction false} PurgeRoutesAt(s: Node, l: seq<Addr>, now: real, d: Addr)
    requires NoRepeats(l)
    ensures var e := Ent(s.rtable, d);
            R(PurgeRoutes(s, l, now), d)
            == if d in l && Expired(e, now) then Route(e.seqno + 1, Infinite, Down, 0) else RouteOf(e)
    decreases |l|
  {
    if l != [] {
      var s1 := PurgeRoute(s, l[0], now);
      PurgeRouteEffect(s, l[0], now);
      TailOfList(l);
      PurgeRoutesAt(s1, l[1..], now, d);
      if d == l[0] { assert d !in l[1..]; }
    }
  }

  /** The route timer takes down exactly the routes of its list that have expired. */
  lemma RoutesPurged(s: Node, now: real, localRepair: bool, d: Addr)
    requires NoRepeats(s.rlist)
    ensures var e := Ent(s.rtable, d);
            R(Handle(s, RouteTimer(now), localRepair), d)
            == if d in s.rlist && Expired(e, now) then Route(e.seqno + 1, Infinite, Down, 0) else R(s, d)
  {
    PurgeRoutesAt(s, s.rlist, now, d);
  }

  /** The timer of the cache of requests keeps exactly those whose time is not over. */
  lemma IdsPurged(s: Node, now: real, localRepair: bool)
    ensures var s' := Handle(s, BroadcastTimer(now), localRepair);
            && s' == s.(bihead := s'.bihead)
            && forall x :: x in s'.bihead <==> x in s.bihead && x.expire > now
  {
    forall x ensures x in IdPurge(s.bihead, now) <==> x in s.bihead && x.expire > now {
      IdPurgeKeeps(s.bihead, now, x);
    }
  }

  // ---------------------------------------------------------------- local repair

  /** With local repair built in, a node that has passed a packet on over more hops than its destination is away keeps
      the packet and asks for a new route while the old one counts as under repair. */
  lemma RepairStarts(s: Node, p: Packet, nextHop: Addr, now: real)
    requires p.daddr != IP_BROADCAST && p.daddr in s.rtable
    requires R(s, p.daddr).hops.Finite? && p.numForwards > R(s, p.daddr).hops.n
    ensures var s', e := Handle(s, LinkFailure(p, true, nextHop, now), true), Ent(s.rtable, p.daddr);
            var s1 := s.(rqueue := Enque(s.rqueue, p, now), rtable := s.rtable[p.daddr := e.(flags := InRepair)]);
            Attempted(s1, s', p.daddr, now) && R(s', p.daddr) == R(s, p.daddr).(flags := InRepair)
  {
    var s1 := Store(s.(rqueue := Enque(s.rqueue, p, now)), p.daddr, Ent(s.rtable, p.daddr).(flags := InRepair));
    AttemptEffect(s1, p.daddr, now);
  }

  /** With local repair, any other failure that counts loses the neighbour, just as without it. */
  lemma NoRepair(s: Node, p: Packet, isData: bool, nextHop: Addr, now: real)
    requires p.daddr in s.rtable ==> R(s, p.daddr).hops.Infinite? || p.numForwards <= R(s, p.daddr).hops.n
    ensures Handle(s, LinkFailure(p, isData, nextHop, now), true)
         == if isData && p.daddr != 0xffff_ffff && p.daddr in s.rtable then NbDelete(s, nextHop) else s
  {
  }

  /** A repair that has not succeeded when its timer goes off leaves the route down, with its number as it is. */
  lemma RepairEnds(s: Node, dst: Addr, now: real)
    requires dst in s.rtable
    ensures var s', e := Handle(s, RepairTimer(dst, now), true), Ent(s.rtable, dst);
            if e.flags == InRepair then
              s' == s.(rtable := s'.rtable) && IsDown(e, Ent(s'.rtable, dst), e.seqno)
              && Ent(s'.rtable, dst).precursors == e.precursors
            else Ent(s'.rtable, dst) == e && s'.outbox == s.outbox
  {
  }

  /** The hello timer sends one hello with the own number. */
  lemma SaysHello(s: Node, now: real, localRepair: bool)
    ensures Handle(s, HelloTimer(now), localRepair) == s.(outbox := s.outbox + [Hello(s.index, s.seqno)])
  {
  }
}
