/** The AODV routing agent, whose handlers update its fields step by step. Each method's contract says that the new
    state is what the function of the same handler makes of the old one. */
module AodvAgent {
  // Built with AODV_LINK_LAYER_DETECTION and without AODV_LOCAL_REPAIR.

  import opened Common
  import opened RouteQueue
  import opened OnDemand
  import opened Aodv
  import opened AodvSteps

  /** The table when the loop of handle_link_failure still has the routes of list todo before it. */
  function Failed(t: Table, todo: seq<Addr>, id: Addr): Table {
    Partly(t, FailTable(t, id), todo)
  }

  lemma FailNext(t: Table, todo: seq<Addr>, id: Addr)
    requires NoRepeats(todo) && todo != [] && todo[0] in t
    ensures var t', d := Failed(t, todo, id), todo[0];
            && d in t' && t'[d] == t[d] && FailItem(t', d, id) == FailItem(t, d, id)
            && Failed(t, todo[1..], id) == t'[d := FailEntry(t'[d], id)]
  {
    OneMore(t, FailTable(t, id), todo);
  }

  class Agent {
    const index: Addr
    var seqno: nat
    var bid: nat
    var rtable: Table
    var rlist: seq<Addr>
    var nbhead: seq<Neighbor>
    var bihead: seq<BroadcastId>
    var rqueue: seq<Buffered>
    var outbox: seq<Msg>

    function State(): Node
      reads this
    {
      Node(index, seqno, bid, rtable, rlist, nbhead, bihead, rqueue, outbox)
    }

    /** The list of routes has one element for every entry. */
    ghost predicate ListOk()
      reads this
    {
      && (forall d :: d in rlist <==> d in rtable)
      && NoRepeats(rlist)
    }

    ghost predicate Valid()
      reads this
    {
      ListOk() && NodeOk(State())
    }

    constructor (index: Addr)
      ensures Valid() && State() == NewNode(index)
    {
      this.index := index;
      seqno, bid := 2, 1;
      rtable, rlist := map[], [];
      nbhead, bihead, rqueue, outbox := [], [], [], [];
      new;
      assert forall d {:trigger R(State(), d)} :: R(State(), d) == RouteOf(FRESH_ENTRY);
    }

    // -------------------------------------------------------------- routing table and send buffer

    /** rt_add, when there is no entry yet. */
    method RtAdd(dst: Addr)
      requires ListOk()
      modifies this
      ensures ListOk() && dst in rtable
      ensures State() == Aodv.Store(old(State()), dst, Ent(old(rtable), dst))
    {
      if dst !in rtable {
        rtable := rtable[dst := FRESH_ENTRY];
        rlist := [dst] + rlist;
      }
      assert rtable == old(rtable)[dst := Ent(old(rtable), dst)];
    }

    /** Overwrites an entry that is there. */
    method Set(dst: Addr, e: Entry)
      requires ListOk() && dst in rtable
      modifies this
      ensures ListOk() && dst in rtable
      ensures State() == Aodv.Store(old(State()), dst, e)
    {
      rtable := rtable[dst := e];
    }

    method Transmit(m: Msg)
      requires ListOk()
      modifies this
      ensures ListOk() && State() == Send(old(State()), m)
    {
      outbox := outbox + [m];
    }

    lemma ValidSame(s: Node)
      requires ListOk() && NodeOk(s) && s.seqno == seqno && s.rtable == rtable
      ensures Valid()
    {
      NodeOkSame(s, State());
    }

    /** rqueue.deque(dst): drops what has timed out and takes the first packet for dst. */
    method Deque(dst: Addr, now: real) returns (p: Option<Packet>)
      requires ListOk()
      modifies this
      ensures ListOk()
      ensures var q := Purge(old(rqueue), now);
              var i := FindDst(q, dst);
              if i == |q| then p == None && State() == old(State()).(rqueue := q)
              else p == Some(q[i].packet) && State() == old(State()).(rqueue := RemoveAt(q, i))
      ensures p.Some? ==> |rqueue| < |old(rqueue)|
    {
      rqueue, p := TakeFor(rqueue, dst, now);
    }

    /** forward() of a data packet along the route to dst. */
    method Forward(dst: Addr, p: Packet, now: real)
      requires Valid() && dst in rtable && rtable[dst].flags == Up
      modifies this
      ensures Valid() && dst in rtable && rtable[dst].flags == Up
      ensures State() == Aodv.ForwardData(old(State()), dst, p, now)
    {
      ForwardDataSame(State(), dst, p, now);
      Unchanged(State(), Aodv.ForwardData(State(), dst, p, now), None);
      if p.ttl == 0 || p.daddr == index { return; }
      Set(dst, rtable[dst].(expire := now + ACTIVE_ROUTE_TIMEOUT));
      Transmit(Data(p, rtable[dst].nexthop));
    }

    /** Sends every buffered packet for dst on its way. */
    method FlushQueue(dst: Addr, now: real)
      requires Valid() && dst in rtable && rtable[dst].flags == Up
      modifies this
      ensures Valid() && State() == Aodv.Flush(old(State()), dst, now)
      ensures dst in rtable && rtable[dst].flags == Up && RouteOf(rtable[dst]) == old(RouteOf(rtable[dst]))
    {
      ghost var s0 := State();
      FlushSame(s0, dst, now);
      assert R(Aodv.Flush(s0, dst, now), dst) == R(s0, dst);
      var p := Deque(dst, now);
      ValidSame(s0);
      while p.Some?
        invariant Valid() && dst in rtable && rtable[dst].flags == Up
        invariant Aodv.Flush(s0, dst, now)
                  == if p.Some? then Aodv.Flush(Aodv.ForwardData(State(), dst, p.value, now), dst, now) else State()
        decreases if p.Some? then 1 + |rqueue| else 0
      {
        assert rtable[dst].hops != Infinite by { assert RouteOk(R(State(), dst)); }
        Forward(dst, p.value, now);
        ghost var s1 := State();
        p := Deque(dst, now);
        ValidSame(s1);
      }
    }

    /** Drops every buffered packet for dst. */
    method DropQueue(dst: Addr, now: real)
      requires ListOk()
      modifies this
      ensures ListOk() && State() == old(State()).(rqueue := Without(Purge(old(rqueue), now), dst))
    {
      rqueue := DropFor(rqueue, dst, now);
    }

    // -------------------------------------------------------------- broadcast ids

    method IdLookup(src: Addr, id: nat) returns (seen: bool)
      ensures seen == IdSeen(bihead, src, id)
    {
      for i := 0 to |bihead|
        invariant forall k :: 0 <= k < i ==> !(bihead[k].src == src && bihead[k].id == id)
      {
        if bihead[i].src == src && bihead[i].id == id { return true; }
      }
      return false;
    }

    /** The loop of id_purge. */
    static method PurgedIds(b0: seq<BroadcastId>, now: real) returns (b: seq<BroadcastId>)
      ensures b == IdPurge(b0, now)
    {
      b := b0;
      var i := 0;
      while i < |b|
        invariant i <= |b| && b[..i] + IdPurge(b[i..], now) == IdPurge(b0, now)
        decreases |b| - i
      {
        if b[i].expire <= now {
          ghost var c := b;
          b := b[..i] + b[i + 1..];
          assert b[..i] == c[..i] && b[i..] == c[i..][1..];
        } else {
          assert b[..i + 1] == b[..i] + [b[i]] && b[i + 1..] == b[i..][1..];
          i := i + 1;
        }
      }
      assert b[..i] == b && b[i..] == [];
    }

    /** The handler of the broadcast timer. */
    method PurgeIds(now: real)
      requires Valid()
      modifies this
      ensures Valid() && State() == Handle(old(State()), BroadcastTimer(now), false)
    {
      ghost var s0 := State();
      bihead := PurgedIds(bihead, now);
      ValidSame(s0);
    }

    // -------------------------------------------------------------- route requests

    static method TimePerHop(e: Entry) returns (t: real)
      ensures t == PerHopTime(e)
    {
      var numNonZero, total := 0, 0.0;
      for i := 0 to MAX_HISTORY
        invariant numNonZero >= 0
        invariant numNonZero + CountPositive(e.discLatency[i..]) == CountPositive(e.discLatency)
        invariant total + SumPositive(e.discLatency[i..]) == SumPositive(e.discLatency)
      {
        assert e.discLatency[i..][1..] == e.discLatency[i + 1..];
        if e.discLatency[i] > 0.0 {
          numNonZero := numNonZero + 1;
          total := total + e.discLatency[i];
        }
      }
      t := if numNonZero > 0 then total / numNonZero as real else NODE_TRAVERSAL_TIME;
    }

    /** The middle part of sendRequest: the ring to search and the time to wait for an answer. */
    static method PlanRequest(rt0: Entry, now: real) returns (rt: Entry)
      ensures rt == Requested(rt0, now)
    {
      rt := rt0;
      var last := MaxHops(Finite(rt.reqLastTtl), rt.lastHopCount);
      var ttl: nat;
      if last == Finite(0) {
        ttl := TTL_START;
      } else if last.Finite? && last.n < TTL_THRESHOLD {
        ttl := last.n + TTL_INCREMENT;
      } else {
        ttl := NETWORK_DIAMETER;
        rt := rt.(reqCnt := rt.reqCnt + 1);
      }
      rt := rt.(reqLastTtl := ttl);
      var perHop := TimePerHop(rt);
      var timeout := 2.0 * ttl as real * perHop;
      if rt.reqCnt > 0 { timeout := timeout * rt.reqCnt as real; }
      timeout := timeout + now;
      if timeout > now + MAX_RREQ_TIMEOUT { timeout := now + MAX_RREQ_TIMEOUT; }
      rt := rt.(reqTimeout := timeout, expire := 0.0);
    }

    method SendRequest(dst: Addr, now: real)
      requires Valid() && dst in rtable
      modifies this
      ensures Valid() && State() == Aodv.SendRequest(old(State()), dst, now)
    {
      SendRequestLegal(State(), dst, now);
      var rt := rtable[dst];
      if rt.flags == Up {
        assert rt.hops != Infinite by { assert RouteOk(R(State(), dst)); }
        return;
      }
      if rt.reqTimeout > now { return; }
      if rt.reqCnt > RREQ_RETRIES {
        Set(dst, rt.(reqTimeout := now + MAX_RREQ_TIMEOUT, reqCnt := 0));
        DropQueue(dst, now);
        return;
      }
      rt := PlanRequest(rt, now);
      Set(dst, rt);
      var b := bid;
      bid := bid + 1;
      seqno := seqno + 2;
      assert seqno % 2 == 0;
      Transmit(Rreq(index, rt.reqLastTtl, 1, b, dst, rt.seqno, index, seqno, now));
    }

    method SendReply(ipdst: Addr, hopCount: nat, dst: Addr, rpSeqno: nat, lifetime: real, timestamp: real)
      requires ListOk() && ipdst in rtable
      modifies this
      ensures ListOk()
      ensures State() == Aodv.SendReply(old(State()), ipdst, hopCount, dst, rpSeqno, lifetime, timestamp)
    {
      Transmit(Rrep(ipdst, rtable[ipdst].nexthop, NETWORK_DIAMETER, hopCount, dst, rpSeqno, index, lifetime, timestamp));
    }

    method PcInsertAt(dst: Addr, user: Addr)
      requires ListOk() && dst in rtable
      modifies this
      ensures ListOk() && State() == AddPrecursor(old(State()), dst, user)
    {
      Set(dst, rtable[dst].(precursors := PcInsert(rtable[dst].precursors, user)));
    }

    // -------------------------------------------------------------- reception

    method RecvRequest(m: Msg, now: real)
      requires Valid() && m.Rreq? && InputOk(m)
      modifies this
      ensures Valid() && State() == Aodv.RecvRequest(old(State()), m, now)
    {
      RecvRequestLegal(State(), m, now);
      if m.src == index { return; }
      var seen := IdLookup(m.src, m.bcastId);
      if seen { return; }
      bihead := [BroadcastId(m.src, m.bcastId, now + BCAST_ID_SAVE)] + bihead;
      ghost var s1 := State();
      assert forall d {:trigger R(s1, d)} :: R(s1, d) == R(old(State()), d);
      LearnReverse(m, now);
      AnswerRequest(m, now);
    }

    /** The first half of recvRequest: the reverse route. */
    method LearnReverse(m: Msg, now: real)
      requires Valid() && m.Rreq? && InputOk(m)
      modifies this
      ensures Valid() && State() == ReverseRoute(old(State()), m, now) && m.src in rtable
    {
      ReverseRouteLegal(State(), m, now);
      RtAdd(m.src);
      var rt0 := rtable[m.src];
      rt0 := rt0.(expire := MaxReal(rt0.expire, now + REV_ROUTE_LIFE));
      if m.srcSeqno > rt0.seqno || (m.srcSeqno == rt0.seqno && Fewer(Finite(m.hopCount), rt0.hops)) {
        rt0 := RtUpdate(rt0, m.srcSeqno, m.hopCount, m.saddr, MaxReal(rt0.expire, now + REV_ROUTE_LIFE));
        if rt0.reqTimeout > 0.0 {
          rt0 := rt0.(reqCnt := 0, reqTimeout := 0.0, reqLastTtl := m.hopCount, expire := now + ACTIVE_ROUTE_TIMEOUT);
        }
        ghost var e := Ent(old(rtable), m.src);
        ghost var e1 := e.(expire := MaxReal(e.expire, now + REV_ROUTE_LIFE));
        assert rt0 == ReverseEntry(e1, m, now);
        LearnLegal(old(State()), m.src, rt0, m);
        Set(m.src, rt0);
        assert State() == Aodv.Store(old(State()), m.src, rt0);
        assert rtable[m.src].flags == Up;
        FlushQueue(m.src, now);
      } else {
        Set(m.src, rt0);
        assert rtable == old(rtable)[m.src := rt0];
      }
    }

    /** The second half of recvRequest: answer, or pass the request on. */
    method AnswerRequest(m: Msg, now: real)
      requires ListOk() && m.Rreq? && m.src in rtable
      modifies this
      ensures ListOk() && State() == Answer(old(State()), m, now)
    {
      if m.dst == index {
        seqno := Max(seqno, m.dstSeqno) + 1;
        if seqno % 2 == 1 { seqno := seqno + 1; }
        SendReply(m.src, 1, index, seqno, MY_ROUTE_TIMEOUT, m.timestamp);
      } else if m.dst in rtable && rtable[m.dst].hops != Infinite && rtable[m.dst].seqno >= m.dstSeqno {
        var rt, rt0 := rtable[m.dst], rtable[m.src];
        SendReply(m.src, rt.hops.n + 1, m.dst, rt.seqno, CastU32(rt.expire - now), m.timestamp);
        PcInsertAt(m.dst, rt0.nexthop);
        PcInsertAt(m.src, rt.nexthop);
      } else {
        var wanted := m.dstSeqno;
        if m.dst in rtable { wanted := Max(rtable[m.dst].seqno, wanted); }
        if m.ttl - 1 != 0 {
          Transmit(Rreq(index, m.ttl - 1, m.hopCount + 1, m.bcastId, m.dst, wanted, m.src, m.srcSeqno, m.timestamp));
        }
      }
    }

    /** The entry after a reply with better information. */
    static method TakeReply(rt0: Entry, m: Msg, mine: bool, now: real) returns (rt: Entry)
      requires m.Rrep?
      ensures rt == ReplyEntry(rt0, m, mine, now)
    {
      rt := RtUpdate(rt0, m.dstSeqno, m.hopCount, m.src, now + m.lifetime);
      rt := rt.(reqCnt := 0, reqTimeout := 0.0, reqLastTtl := m.hopCount);
      if mine {
        rt := rt.(discLatency := rt.discLatency[rt.histIndx := Latency(now - m.timestamp, m.hopCount)]);
        rt := rt.(histIndx := (rt.histIndx + 1) % MAX_HISTORY);
      }
    }

    method RecvReply(m: Msg, now: real)
      requires Valid() && m.Rrep? && InputOk(m)
      modifies this
      ensures Valid() && State() == Aodv.RecvReply(old(State()), m, now)
    {
      RecvReplyLegal(State(), m, now);
      RtAdd(m.dst);
      var rt := rtable[m.dst];
      if rt.seqno < m.dstSeqno || (rt.seqno == m.dstSeqno && Fewer(Finite(m.hopCount), rt.hops)) {
        rt := TakeReply(rt, m, m.daddr == index, now);
        LearnLegal(old(State()), m.dst, rt, m);
        Set(m.dst, rt);
        assert State() == Aodv.Store(old(State()), m.dst, rt);
        FlushQueue(m.dst, now);
        if m.daddr != index { PassReply(m, now); }
      }
    }

    /** The last part of recvReply: hands the reply on towards the source of the request. */
    method PassReply(m: Msg, now: real)
      requires Valid() && m.Rrep? && m.dst in rtable
      modifies this
      ensures ListOk() && State() == ForwardReply(old(State()), m, now)
    {
      if m.daddr in rtable && rtable[m.daddr].hops != Infinite {
        var rt0 := rtable[m.daddr];
        assert rt0.flags == Up by { assert RouteOk(R(State(), m.daddr)); }
        if m.ttl - 1 != 0 {
          Set(m.daddr, rt0.(expire := now + ACTIVE_ROUTE_TIMEOUT));
          Transmit(m.(nextHop := rt0.nexthop, ttl := m.ttl - 1, hopCount := m.hopCount + 1, src := index));
        }
        PcInsertAt(m.dst, rt0.nexthop);
      }
    }

    /** The body of the loop of recvError: one item of the report. */
    static method BreakOne(t0: Table, u: Unreachable, from: Addr) returns (t: Table, item: seq<Unreachable>)
      requires (forall d :: d in t0 ==> RouteOk(RouteOf(t0[d]))) && LostNumber(u.seqno)
      ensures t == BreakRoute(t0, u, from) && item == ReportItem(t0, u, from)
      ensures t.Keys == t0.Keys && forall d :: d in t ==> RouteOk(RouteOf(t[d]))
    {
      t, item := t0, [];
      if u.dst in t && t[u.dst].hops != Infinite && t[u.dst].nexthop == from && t[u.dst].seqno <= u.seqno {
        var rt := t[u.dst];
        assert rt.flags == Up && rt.seqno % 2 == 0;
        rt := RtDown(rt.(seqno := u.seqno));
        if rt.precursors != [] {
          item := [u];
          rt := rt.(precursors := []);
        }
        t := t[u.dst := rt];
      }
    }

    /** The loop of recvError: takes down the routes through the sender and collects what to report. */
    static method BreakRoutes(t0: Table, us: seq<Unreachable>, from: Addr) returns (t: Table, report: seq<Unreachable>)
      requires forall d :: d in t0 ==> RouteOk(RouteOf(t0[d]))
      requires AllLost(us)
      ensures t == AfterErrors(t0, us, from) && report == ErrorReport(t0, us, from) && t.Keys == t0.Keys
    {
      t, report := t0, [];
      var todo := us;
      while todo != []
        invariant t.Keys == t0.Keys && AllLost(todo) && forall d :: d in t ==> RouteOk(RouteOf(t[d]))
        invariant AfterErrors(t, todo, from) == AfterErrors(t0, us, from)
        invariant report + ErrorReport(t, todo, from) == ErrorReport(t0, us, from)
        decreases |todo|
      {
        ghost var before, told := t, report;
        var item;
        t, item := BreakOne(t, todo[0], from);
        report := report + item;
        todo := todo[1..];
        Concatenation(told, item, ErrorReport(t, todo, from));
      }
      assert report + [] == report;
    }

    method RecvError(m: Msg)
      requires Valid() && m.Rerr? && InputOk(m)
      modifies this
      ensures Valid() && State() == Aodv.RecvError(old(State()), m)
    {
      RecvErrorLegal(State(), m);
      forall d | d in rtable ensures RouteOk(RouteOf(rtable[d])) { assert RouteOk(R(State(), d)); }
      var report;
      rtable, report := BreakRoutes(rtable, m.unreachable, m.saddr);
      if report != [] { Transmit(Rerr(index, report)); }
    }

    /** recvHello and nb_insert. */
    method RecvHello(m: Msg, now: real)
      requires Valid() && m.Hello?
      modifies this
      ensures Valid() && State() == Aodv.RecvHello(old(State()), m, now)
    {
      RaiseSeqno(State(), Aodv.RecvHello(State(), m, now));
      var i := NbLookup(nbhead, m.dst);
      if i == |nbhead| {
        nbhead := [Neighbor(m.dst, now + 1.5 * ALLOWED_HELLO_LOSS * HELLO_INTERVAL)] + nbhead;
        seqno := seqno + 2;
        assert seqno % 2 == 0;
      } else {
        nbhead := nbhead[i := nbhead[i].(expire := now + 1.5 * ALLOWED_HELLO_LOSS * HELLO_INTERVAL)];
      }
    }

    // -------------------------------------------------------------- link failures and timers

    /** The body of the loop of handle_link_failure. */
    static method FailRoute(t: Table, d: Addr, id: Addr) returns (t': Table, item: seq<Unreachable>)
      requires d in t && RouteOk(RouteOf(t[d]))
      ensures t' == t[d := FailEntry(t[d], id)] && item == FailItem(t, d, id)
    {
      var rt := t[d];
      item := [];
      if rt.hops != Infinite && rt.nexthop == id {
        assert rt.flags == Up && rt.seqno % 2 == 0;
        rt := rt.(seqno := rt.seqno + 1);
        item := [Unreachable(d, rt.seqno)];
        rt := RtDown(rt);
      }
      rt := rt.(precursors := PcDelete(rt.precursors, id));
      t' := t[d := rt];
    }

    /** The loop of handle_link_failure over the list of routes. */
    static method FailRoutes(t0: Table, l: seq<Addr>, id: Addr) returns (t: Table, report: seq<Unreachable>)
      requires (forall d :: d in l <==> d in t0) && NoRepeats(l)
      requires forall d :: d in t0 ==> RouteOk(RouteOf(t0[d]))
      ensures t == FailTable(t0, id) && report == FailReport(t0, l, id)
    {
      t, report := t0, [];
      FirstAndLast(t0, FailTable(t0, id), l);
      var todo := l;
      while todo != []
        invariant NoRepeats(todo) && (forall d :: d in todo ==> d in t0) && t == Failed(t0, todo, id)
        invariant report + FailReport(t0, todo, id) == FailReport(t0, l, id)
        decreases |todo|
      {
        ghost var told := report;
        FailNext(t0, todo, id);
        TailOfList(todo);
        var item;
        t, item := FailRoute(t, todo[0], id);
        report := report + item;
        todo := todo[1..];
        Concatenation(told, item, FailReport(t0, todo, id));
      }
      assert report + [] == report;
    }

    method HandleLinkFailure(id: Addr)
      requires Valid()
      modifies this
      ensures Valid() && State() == Aodv.HandleLinkFailure(old(State()), id)
    {
      HandleLinkFailureLegal(State(), id);
      forall d | d in rtable ensures RouteOk(RouteOf(rtable[d])) { assert RouteOk(R(State(), d)); }
      var report;
      rtable, report := FailRoutes(rtable, rlist, id);
      if report != [] { Transmit(Rerr(index, report)); }
    }

    method DeleteNeighbor(id: Addr)
      requires Valid()
      modifies this
      ensures Valid() && State() == NbDelete(old(State()), id)
    {
      RaiseSeqno(State(), State().(seqno := seqno + 2, nbhead := NbRemove(nbhead, id)));
      seqno := seqno + 2;
      assert seqno % 2 == 0;
      nbhead := NbRemove(nbhead, id);
      HandleLinkFailure(id);
    }

    /** nb_purge, the handler of the neighbour timer. */
    method PurgeNeighbors(now: real)
      requires Valid()
      modifies this
      ensures Valid() && State() == Handle(old(State()), NeighborTimer(now), false)
    {
      var nb := nbhead;
      while nb != []
        invariant Valid() && NbPurge(State(), nb, now) == NbPurge(old(State()), old(nbhead), now)
        decreases |nb|
      {
        if nb[0].expire <= now { DeleteNeighbor(nb[0].addr); }
        nb := nb[1..];
      }
    }

    method SendHello()
      requires Valid()
      modifies this
      ensures Valid() && State() == Aodv.SendHello(old(State()))
    {
      Unchanged(State(), State(), None);
      LegalSend(State(), State(), Hello(index, seqno), None);
      Transmit(Hello(index, seqno));
    }

    /** The body of the loop of rt_purge. */
    method PurgeEntry(d: Addr, now: real)
      requires Valid() && d in rtable
      modifies this
      ensures Valid() && State() == PurgeRoute(old(State()), d, now)
    {
      PurgeRouteLegal(State(), d, now);
      var rt := rtable[d];
      if rt.flags == Up && rt.expire < now {
        assert rt.hops != Infinite && rt.seqno % 2 == 0 by { assert RouteOk(R(State(), d)); }
        DropQueue(d, now);
        rt := rt.(seqno := rt.seqno + 1);
        assert rt.seqno % 2 == 1;
        Set(d, RtDown(rt));
      } else if rt.flags == Up {
        assert rt.hops != Infinite by { assert RouteOk(R(State(), d)); }
        FlushQueue(d, now);
      } else if Find(rqueue, d) {
        SendRequest(d, now);
      }
    }

    /** rt_purge, the handler of the route timer. */
    method PurgeTable(now: real)
      requires Valid()
      modifies this
      ensures Valid() && State() == Handle(old(State()), RouteTimer(now), false)
    {
      var l := rlist;
      while l != []
        invariant Valid() && PurgeRoutes(State(), l, now) == PurgeRoutes(old(State()), old(rlist), now)
        invariant forall d :: d in l ==> d in rtable
        decreases |l|
      {
        PurgeRouteKeys(State(), l[0], now);
        PurgeEntry(l[0], now);
        l := l[1..];
      }
    }

    /** rt_resolve. */
    method ResolveRoute(p: Packet, now: real)
      requires Valid()
      modifies this
      ensures Valid() && State() == Resolve(old(State()), p, now)
    {
      ghost var s0 := State();
      ResolveLegal(s0, p, now);
      StoreSame(s0, p.daddr, Ent(s0.rtable, p.daddr));
      Unchanged(s0, Aodv.Store(s0, p.daddr, Ent(s0.rtable, p.daddr)), None);
      RtAdd(p.daddr);
      var rt := rtable[p.daddr];
      assert RouteOk(R(State(), p.daddr));
      if rt.flags == Up {
        Forward(p.daddr, p, now);
      } else if p.saddr == index {
        assert rt.flags != InRepair;
        ghost var s1 := State();
        rqueue := Enque(rqueue, p, now);
        RaiseSeqno(s1, State());
        SendRequest(p.daddr, now);
      } else {
        assert rt.flags == Down;
        Transmit(Rerr(index, [Unreachable(p.daddr, rt.seqno)]));
      }
    }

    /** recv() of a data packet. */
    method RecvData(p: Packet, up: bool, now: real)
      requires Valid()
      modifies this
      ensures Valid() && State() == Aodv.RecvData(old(State()), p, up, now)
    {
      RecvDataLegal(State(), p, up, now);
      var q := p;
      if p.saddr == index && p.numForwards == 0 {
        if p.daddr != IP_BROADCAST { q := p.(ttl := NETWORK_DIAMETER); }
      } else if p.saddr == index {
        return;
      } else {
        q := p.(ttl := p.ttl - 1);
        if q.ttl == 0 { return; }
      }
      if p.daddr != IP_BROADCAST {
        ResolveRoute(q, now);
      } else if q.ttl != 0 && !up {
        Transmit(Data(q, IP_BROADCAST));
      }
    }

    /** rt_ll_failed: the link layer could not deliver p to nextHop. */
    method LinkLayerFailed(p: Packet, isData: bool, nextHop: Addr)
      requires Valid()
      modifies this
      ensures Valid() && State() == LinkFailed(old(State()), p, isData, nextHop, false, 0.0)
    {
      if !isData || p.daddr == IP_BROADCAST { return; }
      if p.daddr !in rtable { return; }
      DeleteNeighbor(nextHop);
    }
  }

  lemma {:induction false} FlushKeys(s: Node, dst: Addr, now: real)
    ensures s.rtable.Keys <= Flush(s, dst, now).rtable.Keys
    decreases |s.rqueue|
  {
    var q := Purge(s.rqueue, now);
    var i := FindDst(q, dst);
    if i < |q| {
      FlushKeys(ForwardData(s.(rqueue := RemoveAt(q, i)), dst, q[i].packet, now), dst, now);
    }
  }

  lemma PurgeRouteKeys(s: Node, dst: Addr, now: real)
    ensures s.rtable.Keys <= PurgeRoute(s, dst, now).rtable.Keys
  {
    FlushKeys(s, dst, now);
  }
}
