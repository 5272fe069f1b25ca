/** What data packets, lost links and timers do to an AOMDV node, told by what it had before. */
module AomdvUpkeep {
  import opened Common
  import opened RouteQueue
  import opened OnDemand
  import opened Aomdv
  import opened AomdvSteps
  import opened AomdvEffects

  // ---------------------------------------------------------------- cut paths

  ghost predicate Via(ps: seq<Path>, id: Addr) {
    exists k: nat :: k < |ps| && ps[k].nexthop == id
  }

  /** The entry is up and has a path through this neighbour. */
  ghost predicate Through(e: Entry, id: Addr) {
    e.flags == Up && Via(e.paths, id)
  }

  /** ps' is ps without its first path through this neighbour. */
  ghost predicate WithoutFirst(ps: seq<Path>, id: Addr, ps': seq<Path>) {
    exists k: nat ::
      && k < |ps| && ps[k].nexthop == id && ps' == ps[..k] + ps[k + 1..]
      && forall i: nat :: i < k ==> ps[i].nexthop != id
  }

  /** A route without paths: it goes down with this number. */
  predicate IsDown(e: Entry, e': Entry, seqno: nat) {
    e' == e.(seqno := seqno, highestHeard := e'.highestHeard, advHops := Infinite, paths := [], numPaths := 0,
             flags := Down, expire := 0.0, error := e'.error)
  }

  function Larger(a: nat, b: nat): nat {
    if a > b then a else b
  }

  lemma FirstThrough(e: Entry, id: Addr)
    ensures e.flags == Up && PathLookup(e.paths, id) < |e.paths| <==> Through(e, id)
    ensures Through(e, id) ==> WithoutFirst(e.paths, id, PathDelete(e.paths, id))
  {
    var k := PathLookup(e.paths, id);
    if k < |e.paths| { assert e.paths[k].nexthop == id; }
  }

  // ---------------------------------------------------------------- error reports

  /** What an item of an error report with this number does to an entry with a path through its sender. */
  ghost predicate BrokenBy(e: Entry, seqno: nat, from: Addr, e': Entry) {
    var heard := Larger(e.highestHeard, seqno);
    if |e.paths| == 1 then IsDown(e, e', heard) && e'.highestHeard == heard && !e'.error
    else
      && e' == e.(paths := e'.paths, numPaths := e.numPaths - 1, highestHeard := heard)
      && WithoutFirst(e.paths, from, e'.paths)
  }

  ghost predicate Cuts(e: Entry, dst: Addr, u: Unreachable, from: Addr) {
    u.dst == dst && Through(e, from) && u.seqno >= e.seqno
  }

  /** The position of the first item that cuts a path to dst, or |us| if there is none. */
  ghost function FirstCut(e: Entry, dst: Addr, us: seq<Unreachable>, from: Addr): (i: nat)
    ensures i <= |us| && (i < |us| ==> Cuts(e, dst, us[i], from))
    ensures forall k: nat :: k < i ==> !Cuts(e, dst, us[k], from)
  {
    if us == [] then 0
    else if Cuts(e, dst, us[0], from) then 0
    else 1 + FirstCut(e, dst, us[1..], from)
  }

  lemma {:induction false} NoneCut(e: Entry, dst: Addr, us: seq<Unreachable>, from: Addr)
    requires !Through(e, from)
    ensures FirstCut(e, dst, us, from) == |us|
  {
    if us != [] { NoneCut(e, dst, us[1..], from); }
  }

  /** Disjoint paths: with the first one through a neighbour the only one is gone. */
  lemma OnlyOneThrough(e: Entry, from: Addr, e': Entry)
    requires Disjoint(e.paths) && (e'.flags == Down || WithoutFirst(e.paths, from, e'.paths))
    ensures !Through(e', from)
  {
  }

  lemma BreakRouteAt(t: Table, u: Unreachable, from: Addr, d: Addr)
    requires Disjoint(Ent(t, d).paths)
    ensures var e, e' := Ent(t, d), Ent(BreakRoute(t, u, from), d);
            if Cuts(e, d, u, from) then BrokenBy(e, u.seqno, from, e') && !Through(e', from) else e' == e
  {
    var e, e' := Ent(t, d), Ent(BreakRoute(t, u, from), d);
    FirstThrough(e, from);
    if Cuts(e, d, u, from) { OnlyOneThrough(e, from, e'); }
  }

  lemma {:induction false} AfterErrorsAt(t: Table, us: seq<Unreachable>, from: Addr, d: Addr)
    requires Disjoint(Ent(t, d).paths)
    ensures var e, e', i := Ent(t, d), Ent(AfterErrors(t, us, from), d), FirstCut(Ent(t, d), d, us, from);
            if i < |us| then BrokenBy(e, us[i].seqno, from, e') else e' == e
    decreases |us|
  {
    if us != [] {
      var t1 := BreakRoute(t, us[0], from);
      BreakRouteAt(t, us[0], from, d);
      if Cuts(Ent(t, d), d, us[0], from) {
        NoneCut(Ent(t1, d), d, us[1..], from);
        UntouchedAfter(t1, us[1..], from, d);
      } else {
        AfterErrorsAt(t1, us[1..], from, d);
      }
    }
  }

  lemma {:induction false} UntouchedAfter(t: Table, us: seq<Unreachable>, from: Addr, d: Addr)
    requires !Through(Ent(t, d), from)
    ensures Ent(AfterErrors(t, us, from), d) == Ent(t, d)
    decreases |us|
  {
    if us != [] {
      FirstThrough(Ent(t, d), from);
      UntouchedAfter(BreakRoute(t, us[0], from), us[1..], from, d);
    }
  }

  /** The loss of the last path of a route that others may be using is reported in turn, with the largest number
      heard of. */
  ghost predicate Reported(e: Entry, v: Unreachable, us: seq<Unreachable>, from: Addr) {
    var i := FirstCut(e, v.dst, us, from);
    i < |us| && e.error && |e.paths| == 1 && v.seqno == Larger(e.highestHeard, us[i].seqno)
  }

  lemma {:induction false} NoneReported(t: Table, us: seq<Unreachable>, from: Addr, v: Unreachable)
    requires !Through(Ent(t, v.dst), from)
    ensures v !in ErrorReport(t, us, from)
    decreases |us|
  {
    if us != [] {
      FirstThrough(Ent(t, v.dst), from);
      NoneReported(BreakRoute(t, us[0], from), us[1..], from, v);
    }
  }

  lemma ReportItemHas(t: Table, u: Unreachable, from: Addr, v: Unreachable)
    requires Disjoint(Ent(t, v.dst).paths)
    ensures var e := Ent(t, v.dst);
            v in ReportItem(t, u, from)
            <==> Cuts(e, v.dst, u, from) && e.error && |e.paths| == 1 && v.seqno == Larger(e.highestHeard, u.seqno)
  {
    FirstThrough(Ent(t, v.dst), from);
  }

  lemma {:induction false} ErrorReportHas(t: Table, us: seq<Unreachable>, from: Addr, v: Unreachable)
    requires Disjoint(Ent(t, v.dst).paths)
    ensures v in ErrorReport(t, us, from) <==> Reported(Ent(t, v.dst), v, us, from)
    decreases |us|
  {
    if us != [] {
      var t1 := BreakRoute(t, us[0], from);
      BreakRouteAt(t, us[0], from, v.dst);
      ReportItemHas(t, us[0], from, v);
      if Cuts(Ent(t, v.dst), v.dst, us[0], from) {
        NoneReported(t1, us[1..], from, v);
      } else {
        ErrorReportHas(t1, us[1..], from, v);
      }
    }
  }

  /** An error report cuts exactly the paths through its sender to destinations that it names with a number that is
      not smaller; the first such item for a route counts. A route that loses its last path goes down. */
  lemma ErrorRoutes(s: Node, m: Msg, now: real, d: Addr)
    requires m.Rerr? && NodeOk(s)
    ensures var s' := Handle(s, Deliver(m, now));
            var e, e', i := Ent(s.rtable, d), Ent(s'.rtable, d), FirstCut(Ent(s.rtable, d), d, m.unreachable, m.saddr);
            && SameRest(s, s') && s'.rqueue == s.rqueue
            && if i < |m.unreachable| then BrokenBy(e, m.unreachable[i].seqno, m.saddr, e') else e' == e
  {
    assert EntryOk(Ent(s.rtable, d), s.maxPaths);
    AfterErrorsAt(s.rtable, m.unreachable, m.saddr, d);
  }

  lemma ErrorSends(s: Node, m: Msg, now: real) returns (us: seq<Unreachable>)
    requires m.Rerr? && NodeOk(s)
    ensures Handle(s, Deliver(m, now)).outbox == s.outbox + if us == [] then [] else [Rerr(s.index, us)]
    ensures forall v :: v in us <==> Reported(Ent(s.rtable, v.dst), v, m.unreachable, m.saddr)
  {
    us := ErrorReport(s.rtable, m.unreachable, m.saddr);
    forall v ensures v in us <==> Reported(Ent(s.rtable, v.dst), v, m.unreachable, m.saddr) {
      assert EntryOk(Ent(s.rtable, v.dst), s.maxPaths);
      ErrorReportHas(s.rtable, m.unreachable, m.saddr, v);
    }
  }

  // ---------------------------------------------------------------- lost neighbours

  /** What losing the neighbour id does to an entry. */
  ghost predicate LostWith(e: Entry, id: Addr, e': Entry) {
    if !Through(e, id) then e' == e
    else if |e.paths| == 1 then
      IsDown(e, e', Larger(e.seqno + 1, e.highestHeard)) && e'.highestHeard == e.highestHeard && !e'.error
    else e' == e.(paths := e'.paths, numPaths := e.numPaths - 1) && WithoutFirst(e.paths, id, e'.paths)
  }

  lemma FailEntryEffect(e: Entry, id: Addr)
    ensures LostWith(e, id, FailEntry(e, id))
  {
    FirstThrough(e, id);
  }

  /** A route that others may be using loses its last path with neighbour id; v tells it, with its new number. */
  ghost predicate LossOf(t: Table, id: Addr, v: Unreachable) {
    var e := Ent(t, v.dst);
    Through(e, id) && |e.paths| == 1 && e.error && v.seqno == Larger(e.seqno + 1, e.highestHeard)
  }

  lemma FailItemHas(t: Table, d: Addr, id: Addr, v: Unreachable)
    ensures v in FailItem(t, d, id) <==> v.dst == d && LossOf(t, id, v)
  {
    FirstThrough(Ent(t, d), id);
  }

  lemma {:induction false} FailReportHas(t: Table, l: seq<Addr>, id: Addr, v: Unreachable)
    ensures v in FailReport(t, l, id) <==> v.dst in l && LossOf(t, id, v)
  {
    if l != [] {
      FailReportHas(t, l[1..], id, v);
      FailItemHas(t, l[0], id, v);
    }
  }

  lemma FailureEffect(s: Node, id: Addr, d: Addr)
    ensures LostWith(Ent(s.rtable, d), id, Ent(HandleLinkFailure(s, id).rtable, d))
  {
    FailEntryEffect(Ent(s.rtable, d), id);
  }

  /** The messages in which the packets for id in the interface queue take another path, with the entries of s. */
  function Rescued(s: Node, ifq: seq<Queued>, id: Addr): seq<Msg> {
    if ifq == [] then []
    else
      var x := ifq[0];
      var e := Ent(s.rtable, x.p.daddr);
      (if x.nexthop == id && x.isData && x.salvaged < 10 && e.flags == Up && x.p.ttl != 0 && x.p.daddr != s.index
       then [Data(x.p, FirstNexthop(e))] else [])
      + Rescued(s, ifq[1..], id)
  }

  /** Carrying packets does not change where the next ones go. */
  ghost predicate SameWays(s: Node, s': Node) {
    s'.index == s.index && forall d {:trigger Ent(s'.rtable, d)} ::
      Ent(s'.rtable, d).flags == Ent(s.rtable, d).flags && FirstNexthop(Ent(s'.rtable, d)) == FirstNexthop(Ent(s.rtable, d))
  }

  lemma {:induction false} RescuedSame(s: Node, s': Node, ifq: seq<Queued>, id: Addr)
    requires SameWays(s, s')
    ensures Rescued(s', ifq, id) == Rescued(s, ifq, id)
  {
    if ifq != [] {
      assert Ent(s'.rtable, ifq[0].p.daddr).flags == Ent(s.rtable, ifq[0].p.daddr).flags;
      RescuedSame(s, s', ifq[1..], id);
    }
  }

  lemma SalvageOne(s: Node, x: Queued, id: Addr, now: real)
    ensures var s1 := if x.nexthop == id then Salvage(s, x, now) else s;
            && SameRest(s, s1) && s1.rqueue == s.rqueue && SameWays(s, s1)
            && s1.outbox == s.outbox + Rescued(s, [x], id)
  {
    ForwardEffect(s, x.p.daddr, x.p, now);
    assert Rescued(s, [x][1..], id) == [];
  }

  lemma RescuedFirst(s: Node, ifq: seq<Queued>, id: Addr)
    requires ifq != []
    ensures Rescued(s, ifq, id) == Rescued(s, [ifq[0]], id) + Rescued(s, ifq[1..], id)
  {
    assert [ifq[0]][1..] == [];
    assert Rescued(s, [ifq[0]][1..], id) == [];
  }

  /** Salvaging sends exactly the rescued packets, in the order of the queue. */
  lemma {:induction false} SalvageAllEffect(s: Node, ifq: seq<Queued>, id: Addr, now: real)
    ensures var s' := SalvageAll(s, ifq, id, now);
            && SameRest(s, s') && s'.rqueue == s.rqueue && s'.outbox == s.outbox + Rescued(s, ifq, id)
    decreases |ifq|
  {
    if ifq != [] {
      var s1 := if ifq[0].nexthop == id then Salvage(s, ifq[0], now) else s;
      SalvageOne(s, ifq[0], id, now);
      SalvageAllEffect(s1, ifq[1..], id, now);
      RescuedSame(s, s1, ifq[1..], id);
      RescuedFirst(s, ifq, id);
      Concatenation(s.outbox, Rescued(s, [ifq[0]], id), Rescued(s, ifq[1..], id));
    }
  }

  /** A lost neighbour is forgotten, the own number raised, the lost routes told of, if there are any, and then the
      packets that were on their way to it take the paths that are left. */
  lemma LossSends(s: Node, id: Addr, ifq: seq<Queued>, now: real) returns (us: seq<Unreachable>)
    ensures var s', s1 := NbDelete(s, id, ifq, now), HandleLinkFailure(s, id);
            && s'.index == s.index && s'.bid == s.bid && s'.bihead == s.bihead && s'.rqueue == s.rqueue
            && s'.seqno == s.seqno + 2 && s'.nbhead == NbRemove(s.nbhead, id)
            && s'.outbox == s.outbox + (if us == [] then [] else [Rerr(s.index, us)]) + Rescued(s1, ifq, id)
    ensures forall v :: v in us <==> v.dst in s.rlist && LossOf(s.rtable, id, v)
  {
    var s0 := s.(seqno := s.seqno + 2, nbhead := NbRemove(s.nbhead, id));
    us := FailReport(s.rtable, s.rlist, id);
    forall v ensures v in us <==> v.dst in s.rlist && LossOf(s.rtable, id, v) {
      FailReportHas(s.rtable, s.rlist, id, v);
    }
    SalvageAllEffect(HandleLinkFailure(s0, id), ifq, id, now);
    RescuedSame(HandleLinkFailure(s, id), HandleLinkFailure(s0, id), ifq, id);
  }

  lemma OthersKept(ps: seq<Path>, k: nat, h: Addr)
    requires k < |ps| && Via(ps, h) && ps[k].nexthop != h
    ensures Via(ps[..k] + ps[k + 1..], h)
  {
    var i: nat :| i < |ps| && ps[i].nexthop == h;
    assert (ps[..k] + ps[k + 1..])[if i < k then i else i - 1] == ps[i];
  }

  lemma NoneAdded(ps: seq<Path>, k: nat, h: Addr)
    requires k < |ps| && Disjoint(ps) && Via(ps[..k] + ps[k + 1..], h)
    ensures Via(ps, h) && ps[k].nexthop != h
  {
    var r := ps[..k] + ps[k + 1..];
    var i: nat :| i < |r| && r[i].nexthop == h;
    var j := if i < k then i else i + 1;
    assert ps[j] == r[i];
  }

  /** Without its first path through one neighbour a list of disjoint paths has those through all others. */
  lemma OthersStayVia(ps: seq<Path>, id: Addr, ps': seq<Path>, h: Addr)
    requires Disjoint(ps) && WithoutFirst(ps, id, ps')
    ensures Via(ps', h) <==> Via(ps, h) && h != id
  {
    var k: nat :| k < |ps| && ps[k].nexthop == id && ps' == ps[..k] + ps[k + 1..];
    if Via(ps, h) && h != id { OthersKept(ps, k, h); }
    if Via(ps', h) { NoneAdded(ps, k, h); }
  }

  /** Losing a neighbour takes away its path and no other. */
  lemma LossPaths(e: Entry, id: Addr, e': Entry, maxPaths: int, h: Addr)
    requires EntryOk(e, maxPaths) && LostWith(e, id, e')
    ensures Through(e', h) <==> Through(e, h) && h != id
  {
    if Through(e, id) && |e.paths| != 1 { OthersStayVia(e.paths, id, e'.paths, h); }
  }

  lemma SameThrough(e: Entry, e': Entry, h: Addr)
    requires SameEntry(e, e')
    ensures Through(e', h) <==> Through(e, h)
  {
    if Through(e, h) {
      var i: nat :| i < |e.paths| && e.paths[i].nexthop == h;
      assert e'.paths[i].nexthop == h;
    }
  }

  lemma NeighborLost(s: Node, id: Addr, ifq: seq<Queued>, now: real, d: Addr, h: Addr)
    requires NodeOk(s)
    ensures NodeOk(NbDelete(s, id, ifq, now))
    ensures Through(Ent(NbDelete(s, id, ifq, now).rtable, d), h) <==> Through(Ent(s.rtable, d), h) && h != id
  {
    var s0 := s.(seqno := s.seqno + 2, nbhead := NbRemove(s.nbhead, id));
    var s1, s' := HandleLinkFailure(s0, id), NbDelete(s, id, ifq, now);
    NbDeleteQuiet(s, id, ifq, now);
    SalvageSame(s1, ifq, id, now);
    FailureEffect(s0, id, d);
    assert SameEntry(Ent(s1.rtable, d), Ent(s'.rtable, d));
    assert EntryOk(Ent(s.rtable, d), s.maxPaths);
    LossPaths(Ent(s.rtable, d), id, Ent(s1.rtable, d), s.maxPaths, h);
    SameThrough(Ent(s1.rtable, d), Ent(s'.rtable, d), h);
  }

  lemma {:induction false} NeighborsLost(s: Node, nb: seq<Neighbor>, ifq: seq<Queued>, now: real, d: Addr, h: Addr)
    requires NodeOk(s)
    ensures var s' := NbPurge(s, nb, ifq, now);
            && (Through(Ent(s'.rtable, d), h) <==> Through(Ent(s.rtable, d), h) && !TimedOut(nb, h, now))
            && s'.seqno == s.seqno + 2 * CountTimedOut(nb, now)
    decreases |nb|
  {
    if nb != [] {
      TimedOutTail(nb, h, now);
      if nb[0].expire <= now {
        var s1 := NbDelete(s, nb[0].addr, ifq, now);
        NeighborLost(s, nb[0].addr, ifq, now, d, h);
        var us := LossSends(s, nb[0].addr, ifq, now);
        NeighborsLost(s1, nb[1..], Elsewhere(ifq, nb[0].addr), now, d, h);
      } else {
        NeighborsLost(s, nb[1..], ifq, now, d, h);
      }
    }
  }

  /** The neighbour timer takes away exactly the paths through neighbours that were not heard of in time; a route goes
      down exactly when all its paths go through such neighbours. */
  lemma NeighborsPurged(s: Node, ifq: seq<Queued>, now: real, d: Addr)
    requires NodeOk(s)
    ensures var s' := Handle(s, NeighborTimer(ifq, now));
            var e, e' := Ent(s.rtable, d), Ent(s'.rtable, d);
            && (forall h :: Through(e', h) <==> Through(e, h) && !TimedOut(s.nbhead, h, now))
            && (e'.flags == Up <==> exists h :: Through(e, h) && !TimedOut(s.nbhead, h, now))
            && s'.seqno == s.seqno + 2 * CountTimedOut(s.nbhead, now)
  {
    var s' := Handle(s, NeighborTimer(ifq, now));
    var e' := Ent(s'.rtable, d);
    NbPurgeQuiet(s, s.nbhead, ifq, now);
    forall h ensures Through(e', h) <==> Through(Ent(s.rtable, d), h) && !TimedOut(s.nbhead, h, now) {
      NeighborsLost(s, s.nbhead, ifq, now, d, h);
    }
    NeighborsLost(s, s.nbhead, ifq, now, d, 0);
    assert EntryOk(e', s'.maxPaths);
    if e'.flags == Up { assert Through(e', e'.paths[0].nexthop); }
  }

  /** What goes to other neighbours stays in the interface queue, in its order. */
  lemma {:induction false} OthersStay(ifq: seq<Queued>, id: Addr)
    ensures forall x :: x in Elsewhere(ifq, id) <==> x in ifq && x.nexthop != id
    ensures (forall i :: 0 <= i < |ifq| ==> ifq[i].nexthop != id) ==> Elsewhere(ifq, id) == ifq
  {
    if ifq != [] { OthersStay(ifq[1..], id); }
  }

  // ---------------------------------------------------------------- searching

  predicate Waits(e: Entry, now: real) {
    e.flags == Up || e.reqTimeout > now
  }

  function AtMostOne(x: real): real {
    if x > 1.0 then 1.0 else x
  }

  /** The entry after a request: its ring, its count of whole-network requests and its deadline. */
  function Asked(e: Entry, now: real): Entry {
    var ring := WideningRing(e.lastHopCount, e.reqLastTtl);
    var cnt := e.reqCnt + if WholeNetwork(e.lastHopCount, e.reqLastTtl) then 1 else 0;
    e.(reqLastTtl := ring, reqCnt := cnt, expire := 0.0, reqTimeout := now + AtMostOne(Backoff(ring, 0.03, cnt)))
  }

  lemma RequestedFields(e: Entry, now: real)
    ensures Requested(e, now) == Asked(e, now) && RequestTtl(e) == WideningRing(e.lastHopCount, e.reqLastTtl)
  {
  }

  /** What an attempt to ask for dst does: nothing with a route or before the deadline; after more than three
      requests through the whole network the waiting packets are dropped; else one request goes out. */
  ghost predicate Attempted(s: Node, s': Node, dst: Addr, now: real) {
    var e, e' := Ent(s.rtable, dst), Ent(s'.rtable, dst);
    && SameRest(s, s'.(bid := s.bid, seqno := s.seqno))
    && (forall d {:trigger Ent(s'.rtable, d)} :: d != dst ==> Ent(s'.rtable, d) == Ent(s.rtable, d))
    && if Waits(e, now) then
         s'.bid == s.bid && s'.seqno == s.seqno && s'.rqueue == s.rqueue && s'.outbox == s.outbox && e' == e
       else if e.reqCnt >= 4 then
         && s'.bid == s.bid && s'.seqno == s.seqno && s'.outbox == s.outbox && s'.rqueue == Left(s.rqueue, dst, now)
         && e' == e.(reqTimeout := now + 1.0, reqCnt := 0)
       else
         && s'.bid == s.bid + 1 && s'.seqno == s.seqno + 2 && s'.rqueue == s.rqueue && e' == Asked(e, now)
         && s'.outbox == s.outbox + [Rreq(s.index, WideningRing(e.lastHopCount, e.reqLastTtl), 0, s.bid, dst, e.seqno,
                                          s.index, s.seqno + 2, now, 0)]
  }

  lemma AttemptEffect(s: Node, dst: Addr, now: real)
    ensures Attempted(s, SendRequest(s, dst, now), dst, now)
  {
    LeftIsWithout(s.rqueue, dst, now);
    RequestedFields(Ent(s.rtable, dst), now);
  }

  // ---------------------------------------------------------------- data packets

  /** A packet with a route goes along its first path; an own one without a route waits while the node asks for one;
      the loss of a foreign one is reported. */
  lemma ResolveEffect(s: Node, p: Packet, now: real)
    ensures var s', e := Resolve(s, p, now), Ent(s.rtable, p.daddr);
            var goes := p.ttl != 0 && p.daddr != s.index;
            if e.flags == Up then
              && SameRest(s, s') && s'.rqueue == s.rqueue
              && s'.outbox == s.outbox + (if goes then [Data(p, FirstNexthop(e))] else [])
              && Carrying(e, if goes then [p] else [], s.index, now, Ent(s'.rtable, p.daddr))
            else if p.saddr == s.index then Attempted(s.(rqueue := Enque(s.rqueue, p, now)), s', p.daddr, now)
            else
              && SameRest(s, s') && s'.rqueue == s.rqueue && Ent(s'.rtable, p.daddr) == e
              && s'.outbox == s.outbox + [Rerr(s.index, [Unreachable(p.daddr, e.seqno)])]
    ensures forall d {:trigger Ent(Resolve(s, p, now).rtable, d)} ::
              d != p.daddr ==> Ent(Resolve(s, p, now).rtable, d) == Ent(s.rtable, d)
  {
    var s1 := Store(s, p.daddr, Ent(s.rtable, p.daddr));
    ForwardEffect(s1, p.daddr, p, now);
    AttemptEffect(s1.(rqueue := Enque(s.rqueue, p, now)), p.daddr, now);
  }

  /** What becomes of a data packet: one that has come back or has no hops left ends; an own one starts with 30 hops,
      a received one goes on with one less; a broadcast is sent once by its source and goes no further. */
  lemma DataEffect(s: Node, p: Packet, up: bool, now: real)
    ensures var own, broadcast := p.saddr == s.index, p.daddr == 0xffff_ffff;
            RecvData(s, p, up, now)
            == if own && p.numForwards > 0 then s
               else if !own && p.ttl == 1 then s
               else if broadcast && (up || (if own then p.ttl else p.ttl - 1) == 0) then s
               else if broadcast then
                 s.(outbox := s.outbox + [Data(if own then p else p.(ttl := p.ttl - 1), 0xffff_ffff)])
               else Resolve(s, p.(ttl := if own then 30 else p.ttl - 1), now)
  {
  }

  // ---------------------------------------------------------------- the timers

  /** The smallest number for a lost route: odd, above its own and not below what was heard of. */
  predicate NextLost(own: nat, heard: nat, next: nat) {
    next % 2 == 1 && next > own && next >= heard && (next <= own + 2 || next <= heard + 1)
  }

  /** Purging keeps exactly the paths that have not expired. */
  lemma {:induction false} PathPurgeKeeps(ps: seq<Path>, now: real)
    ensures forall p :: p in PathPurge(ps, now) <==> p in ps && p.expire >= now
  {
    if ps != [] { PathPurgeKeeps(ps[1..], now); }
  }

  ghost predicate AllExpired(ps: seq<Path>, now: real) {
    forall p :: p in ps ==> p.expire < now
  }

  /** The timer's look at one route: an expired one loses its expired paths, and with the last of them goes down and
      its packets are dropped; along one in use, waiting packets are sent; for one that is down, they cause a request. */
  lemma PurgeRouteEffect(s: Node, dst: Addr, now: real)
    ensures var s', e := PurgeRoute(s, dst, now), Ent(s.rtable, dst);
            var e' := Ent(s'.rtable, dst);
            && (forall d {:trigger Ent(s'.rtable, d)} :: d != dst ==> Ent(s'.rtable, d) == Ent(s.rtable, d))
            && if e.flags == Up && e.expire < now then
                 && SameRest(s, s') && s'.outbox == s.outbox
                 && if AllExpired(e.paths, now) then
                      && s'.rqueue == Left(s.rqueue, dst, now) && IsDown(e, e', e'.seqno)
                      && NextLost(e.seqno, e.highestHeard, e'.seqno) && e'.highestHeard == e.highestHeard
                      && e'.error == e.error
                    else
                      && s'.rqueue == s.rqueue && (forall p :: p in e'.paths <==> p in e.paths && p.expire >= now)
                      && e' == e.(paths := e'.paths, numPaths := e.numPaths - (|e.paths| - |e'.paths|))
               else if e.flags == Up then
                 && SameRest(s, s') && s'.rqueue == Left(s.rqueue, dst, now)
                 && s'.outbox == s.outbox + AsData(Leaving(s.rqueue, dst, s.index, now), FirstNexthop(e))
                 && Carrying(e, Leaving(s.rqueue, dst, s.index, now), s.index, now, e')
               else if exists k: nat :: k < |s.rqueue| && s.rqueue[k].packet.daddr == dst then
                 Attempted(s, s', dst, now)
               else s' == s
  {
    var e := Ent(s.rtable, dst);
    PathPurgeKeeps(e.paths, now);
    LeftIsWithout(s.rqueue, dst, now);
    AttemptEffect(s, dst, now);
    assert PathPurge(e.paths, now) == [] <==> AllExpired(e.paths, now) by {
      if PathPurge(e.paths, now) != [] { assert PathPurge(e.paths, now)[0] in PathPurge(e.paths, now); }
    }
    if e.flags == Up && !(e.expire < now) {
      FlushSends(s, dst, now);
      FlushCarries(s, dst, now);
    }
  }

  predicate LosesAll(e: Entry, now: real) {
    e.flags == Up && e.expire < now && forall k :: 0 <= k < |e.paths| ==> e.paths[k].expire < now
  }

  /** What the timer's pass does to the standing of a route. */
  predicate LookedAt(e: Entry, e': Entry, now: real) {
    if LosesAll(e, now) then IsDown(e, e', e'.seqno) && NextLost(e.seqno, e.highestHeard, e'.seqno)
    else e'.flags == e.flags && e'.seqno == e.seqno && e'.advHops == e.advHops
  }

  lemma PurgeRouteLooks(s: Node, dst: Addr, now: real)
    ensures LookedAt(Ent(s.rtable, dst), Ent(PurgeRoute(s, dst, now).rtable, dst), now)
  {
    PurgeRouteEffect(s, dst, now);
    assert LosesAll(Ent(s.rtable, dst), now)
      <==> Ent(s.rtable, dst).flags == Up && Ent(s.rtable, dst).expire < now && AllExpired(Ent(s.rtable, dst).paths, now);
  }

  lemma {:induction false} PurgeRoutesAt(s: Node, l: seq<Addr>, now: real, d: Addr)
    requires NoRepeats(l)
    ensures var e, e' := Ent(s.rtable, d), Ent(PurgeRoutes(s, l, now).rtable, d);
            if d in l then LookedAt(e, e', now) else e' == e
    decreases |l|
  {
    if l != [] {
      PurgeRouteEffect(s, l[0], now);
      PurgeRouteLooks(s, l[0], now);
      TailOfList(l);
      PurgeRoutesAt(PurgeRoute(s, l[0], now), l[1..], now, d);
    }
  }

  /** The route timer takes down exactly the routes of its list that have expired with all their paths. */
  lemma RoutesPurged(s: Node, now: real, d: Addr)
    requires NoRepeats(s.rlist)
    ensures var e, e' := Ent(s.rtable, d), Ent(Handle(s, RouteTimer(now)).rtable, d);
            if d in s.rlist then LookedAt(e, e', now) else e' == e
  {
    PurgeRoutesAt(s, s.rlist, now, d);
  }

  /** A hello doubles as a reply: it offers the one-hop path to its sender. */
  lemma HelloIsReply(s: Node, m: Msg, now: real)
    requires m.Hello?
    ensures exists nb ::
              && Handle(s, Deliver(m, now))
                 == Handle(s.(nbhead := nb), Deliver(Rrep(s.index, 0, 0, 0, m.dst, m.dstSeqno, m.dst, m.lifetime, 0.0,
                                                          0, s.index), now))
              && HeardOf(s.nbhead, m.dst, now, nb)
  {
    var i := NbLookup(s.nbhead, m.dst);
    var nb := if i == |s.nbhead| then [Neighbor(m.dst, now + HELLO_INTERVAL * ALLOWED_HELLO_LOSS)] + s.nbhead
              else s.nbhead[i := s.nbhead[i].(expire := now + 1.5 * ALLOWED_HELLO_LOSS * HELLO_INTERVAL)];
    assert HeardOf(s.nbhead, m.dst, now, nb);
  }

  /** A new neighbour is kept for three seconds; a known one, in its first place, for four and a half. */
  ghost predicate HeardOf(nb: seq<Neighbor>, id: Addr, now: real, nb': seq<Neighbor>) {
    if exists k: nat :: k < |nb| && nb[k].addr == id then
      exists k: nat ::
        && k < |nb| && nb[k].addr == id && nb' == nb[k := Neighbor(id, now + 4.5)]
        && forall i: nat :: i < k ==> nb[i].addr != id
    else nb' == [Neighbor(id, now + 3.0)] + nb
  }

  /** The node says hello exactly while it has some route, and is then good for four seconds. */
  lemma SaysHello(s: Node, now: real)
    ensures Handle(s, HelloTimer(now))
         == if exists d :: d in s.rtable && s.rtable[d].flags == Up
            then s.(outbox := s.outbox + [Hello(s.index, s.seqno, 4.0)]) else s
  {
  }

  /** The timer of the cache of requests keeps exactly those whose time is not over. */
  lemma {:induction false} IdsPurged(b: seq<BroadcastId>, now: real)
    ensures forall x :: x in IdPurge(b, now) <==> x in b && x.expire > now
  {
    if b != [] { IdsPurged(b[1..], now); }
  }
}
