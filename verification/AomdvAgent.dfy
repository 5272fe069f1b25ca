/** The AOMDV routing agent, whose handlers update its fields step by step. Each method's contract says that the new
    state is what the function of the same handler makes of the old one. */
module AomdvAgent {
  import opened Common
  import opened RouteQueue
  import opened OnDemand
  import opened Aomdv
  import opened AomdvSteps

  /** The table when the loop of handle_link_failure still has the routes of list todo before it. */
  function Failed(t: Table, todo: seq<Addr>, id: Addr): Table {
    Partly(t, FailTable(t, id), todo)
  }

  lemma FailNext(t: Table, todo: seq<Addr>, id: Addr)
    requires NoRepeats(todo) && todo != [] && todo[0] in t
    ensures var t', d := Failed(t, todo, id), todo[0];
            && d in t' && t'[d] == t[d] && FailItem(t', d, id) == FailItem(t, d, id)
            && Failed(t, todo[1..], id) == t'[d := FailEntry(t'[d], id)]
  {
    OneMore(t, FailTable(t, id), todo);
  }

  lemma StoreTwice(s: Node, dst: Addr, e1: Entry, e2: Entry)
    ensures Store(Store(s, dst, e1), dst, e2) == Store(s, dst, e2)
  {
  }

  class Agent {
    const index: Addr
    const maxPaths: int
    const lenDiff: int
    var seqno: nat
    var bid: nat
    var rtable: Table
    var rlist: seq<Addr>
    var nbhead: seq<Neighbor>
    var bihead: seq<BroadcastId>
    var rqueue: seq<Buffered>
    var outbox: seq<Msg>

    function State(): Node
      reads this
    {
      Node(index, maxPaths, lenDiff, seqno, bid, rtable, rlist, nbhead, bihead, rqueue, outbox)
    }

    /** The list of routes has one element for every entry. */
    ghost predicate ListOk()
      reads this
    {
      (forall d :: d in rlist <==> d in rtable) && NoRepeats(rlist)
    }

    ghost predicate Valid()
      reads this
    {
      ListOk() && NodeOk(State())
    }

    constructor (index: Addr, maxPaths: int, lenDiff: int)
      ensures Valid() && State() == NewNode(index, maxPaths, lenDiff)
    {
      this.index, this.maxPaths, this.lenDiff := index, maxPaths, lenDiff;
      seqno, bid := 2, 1;
      rtable, rlist := map[], [];
      nbhead, bihead, rqueue, outbox := [], [], [], [];
      new;
      forall d ensures EntryOk(Ent(State().rtable, d), maxPaths) { assert Ent(State().rtable, d) == FRESH_ENTRY; }
    }

    // -------------------------------------------------------------- routing table and send buffer

    /** rt_add, when there is no entry yet. */
    method RtAdd(dst: Addr)
      requires ListOk()
      modifies this
      ensures ListOk() && dst in rtable
      ensures State() == Store(old(State()), dst, Ent(old(rtable), dst))
    {
      if dst !in rtable {
        rtable := rtable[dst := FRESH_ENTRY];
        rlist := [dst] + rlist;
      }
      assert rtable == old(rtable)[dst := Ent(old(rtable), dst)];
    }

    /** Overwrites an entry that is there. */
    method Set(dst: Addr, e: Entry)
      requires ListOk() && dst in rtable
      modifies this
      ensures ListOk() && dst in rtable
      ensures State() == Store(old(State()), dst, e)
    {
      rtable := rtable[dst := e];
    }

    method Transmit(m: Msg)
      requires ListOk()
      modifies this
      ensures ListOk() && State() == Send(old(State()), m)
    {
      outbox := outbox + [m];
    }

    /** rqueue.deque(dst): drops what has timed out and takes the first packet for dst. */
    method Deque(dst: Addr, now: real) returns (p: Option<Packet>)
      requires ListOk()
      modifies this
      ensures ListOk()
      ensures var q := Purge(old(rqueue), now);
              var i := FindDst(q, dst);
              if i == |q| then p == None && State() == old(State()).(rqueue := q)
              else p == Some(q[i].packet) && State() == old(State()).(rqueue := RemoveAt(q, i))
      ensures p.Some? ==> |rqueue| < |old(rqueue)|
    {
      rqueue, p := TakeFor(rqueue, dst, now);
    }

    /** Nothing but the send buffer has changed since state s. */
    lemma ValidSame(s: Node)
      requires ListOk() && NodeOk(s) && State() == s.(rqueue := rqueue)
      ensures Valid()
    {
      PurgedSame(s, State());
      SameNodeOk(s, State());
    }

    /** forward() of a data packet along the first path to dst. */
    method Forward(dst: Addr, p: Packet, now: real)
      requires Valid() && dst in rtable && rtable[dst].flags == Up
      modifies this
      ensures Valid() && dst in rtable && rtable[dst].flags == Up
      ensures State() == Aomdv.ForwardData(old(State()), dst, p, now)
    {
      ForwardDataSame(State(), dst, p, now);
      SameNodeOk(State(), Aomdv.ForwardData(State(), dst, p, now));
      if p.ttl == 0 || p.daddr == index { return; }
      var rt := rtable[dst];
      assert rt.paths != [] by { assert EntryOk(Ent(State().rtable, dst), maxPaths); }
      var path := rt.paths[0];
      rt := rt.(paths := [path.(expire := now + ACTIVE_ROUTE_TIMEOUT)] + rt.paths[1..]);
      if p.saddr != index { rt := rt.(error := true); }
      assert rt == Used(rtable[dst], p.saddr != index, now);
      Set(dst, rt);
      Transmit(Data(p, path.nexthop));
    }

    /** Sends every buffered packet for dst on its way. */
    method FlushQueue(dst: Addr, now: real)
      requires Valid() && dst in rtable && rtable[dst].flags == Up
      modifies this
      ensures Valid() && State() == Aomdv.Flush(old(State()), dst, now)
      ensures dst in rtable && rtable[dst].flags == Up
    {
      ghost var s0 := State();
      var p := Deque(dst, now);
      ValidSame(s0);
      while p.Some?
        invariant Valid() && dst in rtable && rtable[dst].flags == Up
        invariant Aomdv.Flush(s0, dst, now)
                  == if p.Some? then Aomdv.Flush(Aomdv.ForwardData(State(), dst, p.value, now), dst, now) else State()
        decreases if p.Some? then 1 + |rqueue| else 0
      {
        Forward(dst, p.value, now);
        ghost var s1 := State();
        p := Deque(dst, now);
        ValidSame(s1);
      }
    }

    /** Drops every buffered packet for dst. */
    method DropQueue(dst: Addr, now: real)
      requires ListOk()
      modifies this
      ensures ListOk() && State() == old(State()).(rqueue := Without(Purge(old(rqueue), now), dst))
    {
      rqueue := DropFor(rqueue, dst, now);
    }

    // -------------------------------------------------------------- broadcast ids

    /** id_get. */
    method FindId(src: Addr, id: nat) returns (i: nat)
      ensures i == IdGet(bihead, src, id)
    {
      i := 0;
      var todo := bihead;
      while i < |bihead| && !(bihead[i].src == src && bihead[i].id == id)
        invariant i <= |bihead| && todo == bihead[i..] && i + IdGet(todo, src, id) == IdGet(bihead, src, id)
      {
        assert todo[1..] == bihead[i + 1..];
        todo := todo[1..];
        i := i + 1;
      }
    }

    /** The loop of id_purge. */
    static method PurgedIds(b0: seq<BroadcastId>, now: real) returns (b: seq<BroadcastId>)
      ensures b == IdPurge(b0, now)
    {
      b := b0;
      var i := 0;
      while i < |b|
        invariant i <= |b| && b[..i] + IdPurge(b[i..], now) == IdPurge(b0, now)
        decreases |b| - i
      {
        if b[i].expire <= now {
          ghost var c := b;
          b := b[..i] + b[i + 1..];
          assert b[..i] == c[..i] && b[i..] == c[i..][1..];
        } else {
          assert b[..i + 1] == b[..i] + [b[i]] && b[i + 1..] == b[i..][1..];
          i := i + 1;
        }
      }
      assert b[..i] == b && b[i..] == [];
    }

    /** The handler of the broadcast timer. */
    method PurgeIds(now: real)
      requires Valid()
      modifies this
      ensures Valid() && State() == Handle(old(State()), BroadcastTimer(now))
    {
      ghost var s0 := State();
      bihead := PurgedIds(bihead, now);
      PurgedSame(s0, State());
      SameNodeOk(s0, State());
    }

    // -------------------------------------------------------------- route requests

    /** The middle part of sendRequest: the ring to search and the time to wait for an answer. */
    static method PlanRequest(rt0: Entry, now: real) returns (rt: Entry)
      ensures rt == Requested(rt0, now)
    {
      var last := MaxHops(Finite(rt0.reqLastTtl), rt0.lastHopCount);
      var ttl: nat, cnt := 0, rt0.reqCnt;
      if last == Finite(0) {
        ttl := TTL_START;
      } else if last.Finite? && last.n < TTL_THRESHOLD {
        ttl := last.n + TTL_INCREMENT;
      } else {
        ttl := NETWORK_DIAMETER;
        cnt := cnt + 1;
      }
      assert ttl == RequestTtl(rt0);
      var timeout := 2.0 * ttl as real * NODE_TRAVERSAL_TIME;
      if cnt > 0 { timeout := timeout * cnt as real; }
      timeout := timeout + now;
      if timeout > now + MAX_RREQ_TIMEOUT { timeout := now + MAX_RREQ_TIMEOUT; }
      rt := rt0.(reqLastTtl := ttl, reqCnt := cnt, reqTimeout := timeout, expire := 0.0);
    }

    method SendRequest(dst: Addr, now: real)
      requires Valid() && dst in rtable
      modifies this
      ensures Valid() && State() == Aomdv.SendRequest(old(State()), dst, now)
    {
      SendRequestQuiet(State(), dst, now);
      var rt := rtable[dst];
      if rt.flags == Up || rt.reqTimeout > now { return; }
      if rt.reqCnt > RREQ_RETRIES {
        Set(dst, rt.(reqTimeout := now + MAX_RREQ_TIMEOUT, reqCnt := 0));
        DropQueue(dst, now);
        return;
      }
      rt := PlanRequest(rt, now);
      Set(dst, rt);
      var b := bid;
      bid := bid + 1;
      seqno := seqno + 2;
      assert seqno % 2 == 0;
      Transmit(Rreq(index, rt.reqLastTtl, 0, b, dst, rt.seqno, index, seqno, now, 0));
    }

    // -------------------------------------------------------------- reception of requests

    /** The reverse path that a request offers. */
    static method TakeReverse(rt0: Entry, maxPaths: int, lenDiff: int, a: Advert, p: Path, forMe: bool)
      returns (o: Offer)
      requires EntryOk(rt0, maxPaths) && AdvertOk(a) && p.nexthop == a.from && p.hopcount == a.hops + 1
      requires forall k :: 0 <= k < |rt0.paths| && rt0.seqno == a.seqno && rt0.paths[k].nexthop == a.from
                 ==> rt0.paths[k].hopcount == a.hops + 1
      ensures o == ReverseOffer(rt0, maxPaths, lenDiff, a.seqno, a.hops, p, forMe)
    {
      if rt0.seqno < a.seqno {
        var rt := rt0.(seqno := a.seqno, advHops := Infinite, paths := [], numPaths := 0, flags := Up);
        rt := AddPath(rt, p);
        assert [] + [p] == [p];
        return Offer(rt, true, false);
      } else if rt0.seqno == a.seqno && Fewer(Finite(a.hops), rt0.advHops) {
        assert rt0.flags == Up;
        var i := DisjointLookup(rt0.paths, p.nexthop, p.lasthop);
        if i < |rt0.paths| {
          assert rt0.paths[i].hopcount == a.hops + 1;
          return Offer(ProlongPath(rt0, i, p.expire), true, false);
        } else if NewDisjoint(rt0.paths, p.nexthop, p.lasthop) {
          var rt, kept := rt0, false;
          if rt.numPaths < maxPaths && !TooLong(rt.paths, p.hopcount, lenDiff) {
            rt, kept := AddPath(rt, p), true;
          }
          return Offer(rt, kept, TooLong(rt.paths, p.hopcount, lenDiff));
        } else {
          var j := LasthopLookup(rt0.paths, p.lasthop);
          return Offer(rt0, false, forMe && (j == |rt0.paths| || p.hopcount > rt0.paths[j].hopcount));
        }
      } else {
        return Offer(rt0, false, true);
      }
    }

    /** The part of recvRequest and recvReply that follows the path update: the route is up, its search is over. */
    method TakeUp(dst: Addr, now: real)
      requires Valid() && dst in rtable && rtable[dst].flags == Up
      modifies this
      ensures Valid() && dst in rtable && rtable[dst].flags == Up
      ensures State() == Aomdv.Flush(Store(old(State()), dst, ResetSearch(old(rtable)[dst])), dst, now)
    {
      ghost var s0 := State();
      var rt := rtable[dst];
      StoreSame(s0, dst, ResetSearch(rt));
      SameNodeOk(s0, Store(s0, dst, ResetSearch(rt)));
      rt := rt.(reqTimeout := 0.0, reqLastTtl := 0, reqCnt := 0);
      Set(dst, rt);
      FlushQueue(dst, now);
    }

    /** id_insert, unless the request is known. */
    method RememberRequest(m: Msg, now: real) returns (seen: bool)
      requires Valid() && m.Rreq?
      modifies this
      ensures Valid() && State() == Remember(old(State()), m, now)
      ensures seen == IdSeen(old(bihead), m.src, m.bcastId)
    {
      ghost var s0 := State();
      var b := FindId(m.src, m.bcastId);
      seen := b < |bihead|;
      if !seen { bihead := [BroadcastId(m.src, m.bcastId, now + BCAST_ID_SAVE, 0)] + bihead; }
      PurgedSame(s0, State());
      SameNodeOk(s0, State());
    }

    /** The first part of recvRequest: the path that the request offers. */
    method LearnReverse(m: Msg, now: real) returns (o: Offer)
      requires Valid() && m.Rreq? && InputOk(m) && Matches(State(), m)
      modifies this
      ensures Valid() && m.src in rtable && rtable[m.src] == o.e && (!o.drop ==> o.e.flags == Up)
      ensures o == OfferOf(old(State()), m, now) && State() == Store(old(State()), m.src, o.e)
    {
      ghost var s0 := State();
      OfferStored(s0, m, now);
      assert EntryOk(Ent(s0.rtable, m.src), maxPaths);
      var firstHop := if m.hopCount == 0 then index else m.firstHop;
      RtAdd(m.src);
      var p := Path(m.saddr, m.hopCount + 1, now + REV_ROUTE_LIFE, firstHop);
      o := TakeReverse(rtable[m.src], maxPaths, lenDiff, AdvertOf(m).value, p, m.dst == index);
      assert o == OfferOf(s0, m, now);
      Set(m.src, o.e);
      StoreTwice(s0, m.src, Ent(s0.rtable, m.src), o.e);
    }

    method RecvRequest(m: Msg, now: real)
      requires Valid() && m.Rreq? && InputOk(m) && Matches(State(), m)
      modifies this
      ensures Valid() && State() == Aomdv.RecvRequest(old(State()), m, now)
    {
      RecvRequestLegal(State(), m, now);
      if m.src == index { return; }
      var seen := RememberRequest(m, now);
      ghost var s1 := State();
      var o := LearnReverse(m, now);
      if o.drop { return; }
      TakeUp(m.src, now);
      StoreTwice(s1, m.src, o.e, ResetSearch(o.e));
      AnswerRequest(m, o.kept, seen, now);
    }

    /** The last part of recvRequest: answer, or pass the request on. */
    method AnswerRequest(m: Msg, haveReverse: bool, seen: bool, now: real)
      requires Valid() && m.Rreq? && m.src in rtable && rtable[m.src].flags == Up
      modifies this
      ensures ListOk() && State() == Answer(old(State()), m, haveReverse, seen, now)
    {
      if m.dst == index {
        if seqno < m.dstSeqno { seqno := m.dstSeqno + 1; }
        if seqno % 2 == 1 { seqno := seqno + 1; }
        Transmit(Rrep(m.src, m.saddr, NETWORK_DIAMETER, 0, index, seqno, index, MY_ROUTE_TIMEOUT,
                      m.timestamp, m.bcastId, m.saddr));
      } else if m.dst in rtable && rtable[m.dst].flags == Up && rtable[m.dst].seqno >= m.dstSeqno {
        assert rtable[m.dst].seqno % 2 == 0 by { assert EntryOk(Ent(State().rtable, m.dst), maxPaths); }
        if haveReverse && IdCount(bihead, m.src, m.bcastId) == 0 { AnswerFromTable(m, now); }
      } else if !seen {
        PassRequest(m);
      }
    }

    method AnswerFromTable(m: Msg, now: real)
      requires Valid() && m.Rreq? && m.dst in rtable && rtable[m.dst].flags == Up
      modifies this
      ensures ListOk() && State() == TableAnswer(old(State()), m, now)
    {
      ghost var s0 := State();
      assert EntryOk(Ent(s0.rtable, m.dst), maxPaths);
      AdvertiseOk(rtable[m.dst], maxPaths);
      bihead := IdMark(bihead, m.src, m.bcastId);
      var rt := rtable[m.dst];
      if rt.advHops == Infinite { rt := rt.(advHops := MaxHopcount(rt.paths)); }
      var path := rt.paths[0];
      rt := rt.(error := true);
      assert rt == Advertise(Ent(s0.rtable, m.dst)).(error := true);
      Set(m.dst, rt);
      Transmit(Rrep(m.src, m.saddr, NETWORK_DIAMETER, rt.advHops.n, m.dst, rt.seqno, index, path.expire - now,
                    m.timestamp, m.bcastId, path.lasthop));
    }

    method PassRequest(m: Msg)
      requires Valid() && m.Rreq? && m.src in rtable && rtable[m.src].flags == Up
      modifies this
      ensures ListOk() && State() == PassOn(old(State()), m)
    {
      ghost var s0 := State();
      assert EntryOk(Ent(s0.rtable, m.src), maxPaths);
      AdvertiseOk(rtable[m.src], maxPaths);
      var wanted := m.dstSeqno;
      if m.dst in rtable { wanted := Max(rtable[m.dst].seqno, wanted); }
      var rt0 := rtable[m.src];
      if rt0.advHops == Infinite { rt0 := rt0.(advHops := MaxHopcount(rt0.paths)); }
      assert rt0 == Advertise(Ent(s0.rtable, m.src));
      Set(m.src, rt0);
      if m.ttl - 1 != 0 {
        Transmit(Rreq(index, m.ttl - 1, rt0.advHops.n, m.bcastId, m.dst, wanted, m.src, m.srcSeqno, m.timestamp,
                      rt0.paths[0].lasthop));
      }
    }

    // -------------------------------------------------------------- reception of replies

    /** The forward path that a reply offers. */
    static method TakeForward(rt0: Entry, maxPaths: int, lenDiff: int, a: Advert, p: Path) returns (o: Offer)
      requires EntryOk(rt0, maxPaths) && AdvertOk(a) && p.nexthop == a.from && p.hopcount == a.hops + 1
      requires forall k :: 0 <= k < |rt0.paths| && rt0.seqno == a.seqno && rt0.paths[k].nexthop == a.from
                 ==> rt0.paths[k].hopcount == a.hops + 1
      ensures o == ForwardOffer(rt0, maxPaths, lenDiff, a.seqno, a.hops, p)
    {
      if rt0.seqno < a.seqno {
        var rt := rt0.(seqno := a.seqno, advHops := Infinite, paths := [], numPaths := 0, flags := Up);
        rt := AddPath(rt, p);
        assert [] + [p] == [p];
        return Offer(rt, true, false);
      } else if rt0.seqno == a.seqno && Fewer(Finite(a.hops), rt0.advHops) {
        assert rt0.flags == Up;
        var i := DisjointLookup(rt0.paths, p.nexthop, p.lasthop);
        if i < |rt0.paths| {
          assert rt0.paths[i].hopcount == a.hops + 1;
          return Offer(ProlongPath(rt0, i, p.expire), true, false);
        } else if NewDisjoint(rt0.paths, p.nexthop, p.lasthop) && rt0.numPaths < maxPaths
                  && !TooLong(rt0.paths, p.hopcount, lenDiff) {
          return Offer(AddPath(rt0, p), true, false);
        } else {
          return Offer(rt0, false, true);
        }
      } else {
        return Offer(rt0, false, true);
      }
    }

    /** The first part of recvReply. */
    method LearnForward(m: Msg, now: real) returns (o: Offer)
      requires Valid() && m.Rrep? && InputOk(m) && Matches(State(), m)
      modifies this
      ensures Valid() && m.dst in rtable && rtable[m.dst] == o.e && (!o.drop ==> o.e.flags == Up)
      ensures o == ReplyOffer(old(State()), m, now) && State() == Store(old(State()), m.dst, o.e)
    {
      ghost var s0 := State();
      ReplyStored(s0, m, now);
      assert EntryOk(Ent(s0.rtable, m.dst), maxPaths);
      RtAdd(m.dst);
      var p := Path(m.src, m.hopCount + 1, now + m.lifetime, m.firstHop);
      o := TakeForward(rtable[m.dst], maxPaths, lenDiff, AdvertOf(m).value, p);
      assert o == ReplyOffer(s0, m, now);
      Set(m.dst, o.e);
      StoreTwice(s0, m.dst, Ent(s0.rtable, m.dst), o.e);
    }

    method RecvReply(m: Msg, now: real)
      requires Valid() && m.Rrep? && InputOk(m) && Matches(State(), m)
      modifies this
      ensures Valid() && State() == Aomdv.RecvReply(old(State()), m, now)
    {
      ghost var s0 := State();
      RecvReplyLegal(s0, m, now);
      if m.dst == index { return; }
      var o := LearnForward(m, now);
      if o.drop { return; }
      TakeUp(m.dst, now);
      StoreTwice(s0, m.dst, o.e, ResetSearch(o.e));
      if m.daddr == index { return; }
      PassReply(m, now);
    }

    /** Whether the reverse route is up and the request has not been answered yet. */
    method MayPass(m: Msg) returns (may: bool)
      requires m.Rrep?
      ensures may == CanForward(State(), m)
    {
      var b := FindId(m.daddr, m.bcastId);
      may := m.daddr in rtable && rtable[m.daddr].flags == Up && b < |bihead| && bihead[b].count == 0;
    }

    /** The last part of recvReply: hands the reply on towards the source of the request. */
    method PassReply(m: Msg, now: real)
      requires Valid() && m.Rrep? && m.dst in rtable && rtable[m.dst].flags == Up
      modifies this
      ensures ListOk() && State() == ForwardReply(old(State()), m, now)
    {
      var may := MayPass(m);
      if !may { return; }
      ghost var s0 := State();
      assert EntryOk(Ent(s0.rtable, m.dst), maxPaths) && EntryOk(Ent(s0.rtable, m.daddr), maxPaths);
      AdvertiseOk(rtable[m.dst], maxPaths);
      bihead := IdMark(bihead, m.daddr, m.bcastId);
      var rt := rtable[m.dst];
      if rt.advHops == Infinite { rt := rt.(advHops := MaxHopcount(rt.paths)); }
      rt := rt.(error := true);
      assert rt == Advertise(Ent(s0.rtable, m.dst)).(error := true);
      Set(m.dst, rt);
      var rt0 := rtable[m.daddr];
      var path := rt0.paths[0];
      Set(m.daddr, rt0.(paths := [path.(expire := now + ACTIVE_ROUTE_TIMEOUT)] + rt0.paths[1..]));
      if m.ttl - 1 != 0 {
        Transmit(Rrep(m.daddr, path.nexthop, m.ttl - 1, rt.advHops.n, m.dst, m.dstSeqno, index, m.lifetime,
                      m.timestamp, m.bcastId, rtable[m.dst].paths[0].lasthop));
      }
    }

    /** recvHello: the neighbour is noted, then the hello is read as a reply. */
    method RecvHello(m: Msg, now: real)
      requires Valid() && m.Hello? && InputOk(m) && Matches(State(), m)
      modifies this
      ensures Valid() && State() == Aomdv.RecvHello(old(State()), m, now)
    {
      ghost var s0 := State();
      var i := NbLookup(nbhead, m.dst);
      if i == |nbhead| {
        nbhead := [Neighbor(m.dst, now + HELLO_INTERVAL * ALLOWED_HELLO_LOSS)] + nbhead;
      } else {
        nbhead := nbhead[i := nbhead[i].(expire := now + 1.5 * ALLOWED_HELLO_LOSS * HELLO_INTERVAL)];
      }
      PurgedSame(s0, State());
      SameNodeOk(s0, State());
      RecvReply(Rrep(index, 0, 0, 0, m.dst, m.dstSeqno, m.dst, m.lifetime, 0.0, 0, index), now);
    }

    // -------------------------------------------------------------- errors and link failures

    static method PathEmpty(rt: Entry) returns (empty: bool)
      requires rt.numPaths == |rt.paths|
      ensures empty == (rt.paths == [])
    {
      if rt.paths != [] {
        assert rt.numPaths > 0;
        return false;
      } else {
        assert rt.numPaths == 0;
        return true;
      }
    }

    /** Takes the path through a neighbour out of an entry. */
    static method DeletePath(rt0: Entry, id: Addr, ghost maxPaths: int) returns (rt: Entry, empty: bool)
      requires EntryOk(rt0, maxPaths) && PathLookup(rt0.paths, id) < |rt0.paths|
      ensures rt == CutPath(rt0, id) && empty == (rt.paths == [])
    {
      PathDeleteParts(rt0.paths, id);
      rt := rt0.(paths := PathDelete(rt0.paths, id), numPaths := rt0.numPaths - 1);
      empty := PathEmpty(rt);
    }

    /** The body of the loop of recvError: one item of the report. */
    static method BreakOne(t0: Table, u: Unreachable, from: Addr, ghost maxPaths: int)
      returns (t: Table, item: seq<Unreachable>)
      requires (forall d :: d in t0 ==> EntryOk(t0[d], maxPaths)) && LostNumber(u.seqno)
      ensures t == BreakRoute(t0, u, from) && item == ReportItem(t0, u, from)
      ensures t.Keys == t0.Keys && forall d :: d in t ==> EntryOk(t[d], maxPaths)
    {
      t, item := t0, [];
      if u.dst in t && t[u.dst].flags == Up && PathLookup(t[u.dst].paths, from) < |t[u.dst].paths|
         && t[u.dst].seqno <= u.seqno {
        assert t[u.dst].seqno % 2 == 0;
        BrokenStep(t[u.dst], u, from, maxPaths, Some(Rerr(from, [u])));
        var rt, empty := DeletePath(t[u.dst], from, maxPaths);
        rt := rt.(highestHeard := Max(rt.highestHeard, u.seqno));
        if empty {
          rt := RtDown(rt.(seqno := rt.highestHeard));
          if rt.error {
            item := [Unreachable(u.dst, rt.seqno)];
            rt := rt.(error := false);
          }
        }
        assert rt == BrokenEntry(t0[u.dst], u, from);
        t := t[u.dst := rt];
      }
    }

    /** The loop of recvError. */
    static method BreakRoutes(t0: Table, us: seq<Unreachable>, from: Addr, ghost maxPaths: int)
      returns (t: Table, report: seq<Unreachable>)
      requires (forall d :: d in t0 ==> EntryOk(t0[d], maxPaths)) && AllLost(us)
      ensures t == AfterErrors(t0, us, from) && report == ErrorReport(t0, us, from) && t.Keys == t0.Keys
    {
      t, report := t0, [];
      var todo := us;
      while todo != []
        invariant t.Keys == t0.Keys && AllLost(todo) && forall d :: d in t ==> EntryOk(t[d], maxPaths)
        invariant AfterErrors(t, todo, from) == AfterErrors(t0, us, from)
        invariant report + ErrorReport(t, todo, from) == ErrorReport(t0, us, from)
        decreases |todo|
      {
        ghost var before, told := t, report;
        var item;
        t, item := BreakOne(t, todo[0], from, maxPaths);
        report := report + item;
        todo := todo[1..];
        Concatenation(told, item, ErrorReport(t, todo, from));
      }
      assert report + [] == report;
    }

    method RecvError(m: Msg)
      requires Valid() && m.Rerr? && InputOk(m)
      modifies this
      ensures Valid() && State() == Aomdv.RecvError(old(State()), m)
    {
      RecvErrorQuiet(State(), m);
      forall d | d in rtable ensures EntryOk(rtable[d], maxPaths) { assert EntryOk(Ent(State().rtable, d), maxPaths); }
      var report;
      rtable, report := BreakRoutes(rtable, m.unreachable, m.saddr, maxPaths);
      if report != [] { Transmit(Rerr(index, report)); }
    }

    /** The body of the loop of handle_link_failure. */
    static method FailRoute(t: Table, d: Addr, id: Addr, ghost maxPaths: int) returns (t': Table, item: seq<Unreachable>)
      requires d in t && EntryOk(t[d], maxPaths)
      ensures t' == t[d := FailEntry(t[d], id)] && item == FailItem(t, d, id)
    {
      var rt := t[d];
      item := [];
      if rt.flags == Up && PathLookup(rt.paths, id) < |rt.paths| {
        assert rt.seqno % 2 == 0;
        var empty;
        rt, empty := DeletePath(rt, id, maxPaths);
        if empty {
          rt := rt.(seqno := rt.seqno + 1);
          rt := rt.(seqno := Max(rt.seqno, rt.highestHeard));
          if rt.error {
            item := [Unreachable(d, rt.seqno)];
            rt := rt.(error := false);
          }
          rt := RtDown(rt);
        }
      }
      t' := t[d := rt];
    }

    /** The loop of handle_link_failure over the list of routes. */
    static method FailRoutes(t0: Table, l: seq<Addr>, id: Addr, ghost maxPaths: int)
      returns (t: Table, report: seq<Unreachable>)
      requires (forall d :: d in l <==> d in t0) && NoRepeats(l)
      requires forall d :: d in t0 ==> EntryOk(t0[d], maxPaths)
      ensures t == FailTable(t0, id) && report == FailReport(t0, l, id)
    {
      t, report := t0, [];
      FirstAndLast(t0, FailTable(t0, id), l);
      var todo := l;
      while todo != []
        invariant NoRepeats(todo) && (forall d :: d in todo ==> d in t0) && t == Failed(t0, todo, id)
        invariant report + FailReport(t0, todo, id) == FailReport(t0, l, id)
        decreases |todo|
      {
        ghost var told := report;
        FailNext(t0, todo, id);
        TailOfList(todo);
        var item;
        t, item := FailRoute(t, todo[0], id, maxPaths);
        report := report + item;
        todo := todo[1..];
        Concatenation(told, item, FailReport(t0, todo, id));
      }
      assert report + [] == report;
    }

    method HandleLinkFailure(id: Addr)
      requires Valid()
      modifies this
      ensures Valid() && State() == Aomdv.HandleLinkFailure(old(State()), id)
    {
      HandleLinkFailureQuiet(State(), id);
      forall d | d in rtable ensures EntryOk(rtable[d], maxPaths) { assert EntryOk(Ent(State().rtable, d), maxPaths); }
      var report;
      rtable, report := FailRoutes(rtable, rlist, id, maxPaths);
      if report != [] { Transmit(Rerr(index, report)); }
    }

    /** The loop of nb_delete over the packets for id in the interface queue; the others stay there. */
    method SalvageQueue(ifq: seq<Queued>, id: Addr, now: real) returns (rest: seq<Queued>)
      requires Valid()
      modifies this
      ensures Valid() && State() == SalvageAll(old(State()), ifq, id, now) && rest == Elsewhere(ifq, id)
    {
      rest := [];
      var l := ifq;
      while l != []
        invariant Valid() && SalvageAll(State(), l, id, now) == SalvageAll(old(State()), ifq, id, now)
        invariant rest + Elsewhere(l, id) == Elsewhere(ifq, id)
        decreases |l|
      {
        var x := l[0];
        if x.nexthop != id {
          rest := rest + [x];
        } else if x.isData && x.p.daddr in rtable {
          if rtable[x.p.daddr].flags == Up && x.salvaged < MAX_SALVAGE_COUNT { Forward(x.p.daddr, x.p, now); }
        }
        l := l[1..];
      }
    }

    /** The first part of nb_delete. */
    method LoseNeighbor(id: Addr)
      requires Valid()
      modifies this
      ensures Valid()
      ensures State() == Aomdv.HandleLinkFailure(
                old(State()).(seqno := old(seqno) + 2, nbhead := NbRemove(old(nbhead), id)), id)
    {
      ghost var s0 := State();
      QuietStart(s0, s0, None);
      seqno := seqno + 2;
      assert seqno % 2 == 0;
      nbhead := NbRemove(nbhead, id);
      QuietRaise(s0, s0, State(), None);
      HandleLinkFailure(id);
    }

    method DeleteNeighbor(id: Addr, ifq: seq<Queued>, now: real) returns (rest: seq<Queued>)
      requires Valid()
      modifies this
      ensures Valid() && State() == NbDelete(old(State()), id, ifq, now) && rest == Elsewhere(ifq, id)
    {
      LoseNeighbor(id);
      rest := SalvageQueue(ifq, id, now);
    }

    /** nb_purge, the handler of the neighbour timer. */
    method PurgeNeighbors(ifq0: seq<Queued>, now: real)
      requires Valid()
      modifies this
      ensures Valid() && State() == Handle(old(State()), NeighborTimer(ifq0, now))
    {
      var nb, ifq := nbhead, ifq0;
      while nb != []
        invariant Valid() && NbPurge(State(), nb, ifq, now) == NbPurge(old(State()), old(nbhead), ifq0, now)
        decreases |nb|
      {
        if nb[0].expire <= now { ifq := DeleteNeighbor(nb[0].addr, ifq, now); }
        nb := nb[1..];
      }
    }

    // -------------------------------------------------------------- route expiry and data packets

    /** The first branch in the loop of rt_purge: the paths of a route that is up are looked through. */
    method ExpireRoute(d: Addr, now: real)
      requires Valid() && d in rtable && rtable[d].flags == Up && rtable[d].expire < now
      modifies this
      ensures ListOk() && State() == PurgeRoute(old(State()), d, now)
    {
      ghost var s0 := State();
      var rt := rtable[d];
      assert EntryOk(Ent(s0.rtable, d), maxPaths);
      rt := Purged(rt, now);
      var empty := PathEmpty(rt);
      if empty {
        DropQueue(d, now);
        var q: int := rt.seqno + 1;
        q := Max(q, rt.highestHeard);
        if q % 2 == 0 { q := q + 1; }
        assert q % 2 == 1;
        rt := RtDown(rt.(seqno := q));
      }
      Set(d, rt);
    }

    /** The body of the loop of rt_purge. */
    method PurgeEntry(d: Addr, now: real)
      requires Valid() && d in rtable
      modifies this
      ensures Valid() && State() == PurgeRoute(old(State()), d, now)
    {
      PurgeRouteQuiet(State(), d, now);
      var rt := rtable[d];
      if rt.flags == Up && rt.expire < now {
        ExpireRoute(d, now);
      } else if rt.flags == Up {
        FlushQueue(d, now);
      } else if Find(rqueue, d) {
        SendRequest(d, now);
      }
    }

    /** rt_purge, the handler of the route timer. */
    method PurgeTable(now: real)
      requires Valid()
      modifies this
      ensures Valid() && State() == Handle(old(State()), RouteTimer(now))
    {
      var l := rlist;
      while l != []
        invariant Valid() && PurgeRoutes(State(), l, now) == PurgeRoutes(old(State()), old(rlist), now)
        invariant forall d :: d in l ==> d in rtable
        decreases |l|
      {
        PurgeRouteKeys(State(), l[0], now);
        PurgeEntry(l[0], now);
        l := l[1..];
      }
    }

    /** rt_has_active_route. */
    static method AnyUp(t: Table, l: seq<Addr>) returns (active: bool)
      requires forall d :: d in l <==> d in t
      ensures active == exists d :: d in t && t[d].flags == Up
    {
      var todo := l;
      while todo != []
        invariant forall d :: d in todo ==> d in l
        invariant forall d :: d in l && d !in todo ==> t[d].flags != Up
      {
        var d := todo[0];
        assert d in todo && d in l;
        if t[d].flags == Up { return true; }
        todo := todo[1..];
      }
      return false;
    }

    /** The handler of the hello timer. */
    method HelloTick()
      requires Valid()
      modifies this
      ensures Valid() && State() == SayHello(old(State()))
    {
      SayHelloQuiet(State());
      var active := AnyUp(rtable, rlist);
      assert active == HasActiveRoute(State());
      if active { Transmit(Hello(index, seqno, (1.0 + ALLOWED_HELLO_LOSS) * HELLO_INTERVAL)); }
    }

    /** rt_resolve. */
    method ResolveRoute(p: Packet, now: real)
      requires Valid()
      modifies this
      ensures Valid() && State() == Resolve(old(State()), p, now)
    {
      ghost var s0 := State();
      ResolveQuiet(s0, p, now);
      StoreSame(s0, p.daddr, Ent(s0.rtable, p.daddr));
      SameNodeOk(s0, Store(s0, p.daddr, Ent(s0.rtable, p.daddr)));
      RtAdd(p.daddr);
      var rt := rtable[p.daddr];
      if rt.flags == Up {
        Forward(p.daddr, p, now);
      } else if p.saddr == index {
        ghost var s1 := State();
        rqueue := Enque(rqueue, p, now);
        ValidSame(s1);
        SendRequest(p.daddr, now);
      } else {
        assert rt.flags == Down;
        Transmit(Rerr(index, [Unreachable(p.daddr, rt.seqno)]));
      }
    }

    /** recv() of a data packet. */
    method RecvData(p: Packet, up: bool, now: real)
      requires Valid()
      modifies this
      ensures Valid() && State() == Aomdv.RecvData(old(State()), p, up, now)
    {
      RecvDataQuiet(State(), p, up, now);
      var q := p;
      if p.saddr == index && p.numForwards == 0 {
        if p.daddr != IP_BROADCAST { q := p.(ttl := NETWORK_DIAMETER); }
      } else if p.saddr == index {
        return;
      } else {
        q := p.(ttl := p.ttl - 1);
        if q.ttl == 0 { return; }
      }
      if p.daddr != IP_BROADCAST {
        ResolveRoute(q, now);
      } else if q.ttl != 0 && !up {
        Transmit(Data(q, IP_BROADCAST));
      }
    }
  }

  lemma {:induction false} FlushKeys(s: Node, dst: Addr, now: real)
    ensures s.rtable.Keys <= Flush(s, dst, now).rtable.Keys
    decreases |s.rqueue|
  {
    var q := Purge(s.rqueue, now);
    var i := FindDst(q, dst);
    if i < |q| {
      FlushKeys(ForwardData(s.(rqueue := RemoveAt(q, i)), dst, q[i].packet, now), dst, now);
    }
  }

  lemma PurgeRouteKeys(s: Node, dst: Addr, now: real)
    ensures s.rtable.Keys <= PurgeRoute(s, dst, now).rtable.Keys
  {
    FlushKeys(s, dst, now);
  }
}
