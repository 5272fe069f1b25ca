/** What AODV messages do. */
module AodvEffects {
  // What each routing message does to a node, told by the routes and the buffer it had before.

  import opened Common
  import opened RouteQueue
  import opened OnDemand
  import opened Aodv
  import opened AodvSteps

  // ---------------------------------------------------------------- the send buffer

  /** Packets on their way through one next hop. */
  function AsData(ps: seq<Packet>, via: Addr): seq<Msg> {
    if ps == [] then [] else [Data(ps[0], via)] + AsData(ps[1..], via)
  }

  /** The data messages that the packets waiting for dst become at node index, in order, sent through via. */
  function Carried(q: seq<Buffered>, dst: Addr, via: Addr, index: Addr, now: real): seq<Msg> {
    AsData(Leaving(q, dst, index, now), via)
  }

  lemma FirstCarried(q: seq<Buffered>, dst: Addr, via: Addr, index: Addr, now: real)
    requires Live(q, now) && Find(q, dst)
    ensures var i := FindDst(q, dst);
            var p := q[i].packet;
            && Carried(q, dst, via, index, now)
               == (if p.ttl != 0 && dst != index then [Data(p, via)] else [])
                  + Carried(RemoveAt(q, i), dst, via, index, now)
            && Left(q, dst, now) == Left(RemoveAt(q, i), dst, now)
  {
    FirstLeaving(q, dst, index, now);
    var p, rest := q[FindDst(q, dst)].packet, Leaving(RemoveAt(q, FindDst(q, dst)), dst, index, now);
    assert ([p] + rest)[1..] == rest;
    assert [] + rest == rest;
  }

  /** Everything but the routes, the buffer and the messages is as it was. */
  predicate SameRest(s: Node, s': Node) {
    s'.index == s.index && s'.seqno == s.seqno && s'.bid == s.bid && s'.nbhead == s.nbhead && s'.bihead == s.bihead
  }

  /** The entries for other destinations, and all of this one but how long it is good for, are as they were. */
  ghost predicate OnlyProlonged(s: Node, s': Node, dst: Addr, expire: real) {
    && Ent(s'.rtable, dst) == Ent(s.rtable, dst).(expire := expire)
    && (forall d {:trigger Ent(s'.rtable, d)} :: d != dst ==> Ent(s'.rtable, d) == Ent(s.rtable, d))
    && (dst in s.rtable ==> s'.rlist == s.rlist)
  }

  lemma ProlongedTrans(s0: Node, s1: Node, s2: Node, dst: Addr, expire1: real, expire2: real)
    requires OnlyProlonged(s0, s1, dst, expire1) && OnlyProlonged(s1, s2, dst, expire2)
    requires dst in s0.rtable ==> dst in s1.rtable
    ensures OnlyProlonged(s0, s2, dst, expire2)
  {
    forall d | d != dst ensures Ent(s2.rtable, d) == Ent(s0.rtable, d) {
      assert Ent(s1.rtable, d) == Ent(s0.rtable, d);
    }
  }

  /** One packet goes on its way along the route to dst. */
  lemma ForwardEffect(s: Node, dst: Addr, p: Packet, now: real)
    ensures var s' := ForwardData(s, dst, p, now);
            && SameRest(s, s') && s'.rqueue == s.rqueue && (dst in s.rtable ==> dst in s'.rtable)
            && if p.ttl == 0 || p.daddr == s.index
               then s'.outbox == s.outbox && OnlyProlonged(s, s', dst, Ent(s.rtable, dst).expire)
               else s'.outbox == s.outbox + [Data(p, R(s, dst).nexthop)] && OnlyProlonged(s, s', dst, now + 10.0)
  {
  }

  /** What flushing does to everything but the table. */
  lemma {:induction false} FlushSends(s: Node, dst: Addr, now: real)
    ensures var s' := Flush(s, dst, now);
            && SameRest(s, s') && s'.rqueue == Left(s.rqueue, dst, now)
            && s'.outbox == s.outbox + Carried(s.rqueue, dst, R(s, dst).nexthop, s.index, now)
    decreases |s.rqueue|
  {
    var q := Purge(s.rqueue, now);
    var via := R(s, dst).nexthop;
    PurgeKeepsLive(s.rqueue, now);
    PurgeLeaving(s.rqueue, dst, s.index, now);
    var i := FindDst(q, dst);
    if i == |q| {
      NoneLeaving(q, dst, s.index, now);
    } else {
      FirstCarried(q, dst, via, s.index, now);
      var s0 := s.(rqueue := RemoveAt(q, i));
      var s1 := ForwardData(s0, dst, q[i].packet, now);
      ForwardEffect(s0, dst, q[i].packet, now);
      assert R(s1, dst).nexthop == via;
      FlushSends(s1, dst, now);
      Concatenation(s.outbox, if q[i].packet.ttl == 0 || dst == s.index then [] else [Data(q[i].packet, via)],
                    Carried(s0.rqueue, dst, via, s.index, now));
    }
  }

  /** What flushing does to the table. */
  lemma {:induction false} FlushProlongs(s: Node, dst: Addr, now: real)
    ensures dst in s.rtable ==> dst in Flush(s, dst, now).rtable
    ensures OnlyProlonged(s, Flush(s, dst, now), dst,
                          if Flush(s, dst, now).outbox == s.outbox then Ent(s.rtable, dst).expire else now + 10.0)
    ensures s.outbox <= Flush(s, dst, now).outbox
    decreases |s.rqueue|
  {
    var q := Purge(s.rqueue, now);
    var i := FindDst(q, dst);
    if i < |q| {
      var s0 := s.(rqueue := RemoveAt(q, i));
      var s1 := ForwardData(s0, dst, q[i].packet, now);
      var s2 := Flush(s1, dst, now);
      ForwardEffect(s0, dst, q[i].packet, now);
      FlushProlongs(s1, dst, now);
      var later := if s2.outbox == s1.outbox then Ent(s1.rtable, dst).expire else now + 10.0;
      ProlongedTrans(s0, s1, s2, dst, Ent(s1.rtable, dst).expire, later);
      assert OnlyProlonged(s, s2, dst, later);
    }
  }

  /** Flushing sends exactly the packets that wait for dst, and prolongs its route if there are any to send. */
  lemma FlushEffect(s: Node, dst: Addr, now: real)
    ensures var s' := Flush(s, dst, now);
            var sent := Carried(s.rqueue, dst, R(s, dst).nexthop, s.index, now);
            && SameRest(s, s') && s'.outbox == s.outbox + sent && s'.rqueue == Left(s.rqueue, dst, now)
            && OnlyProlonged(s, s', dst, if sent == [] then Ent(s.rtable, dst).expire else now + 10.0)
  {
    FlushSends(s, dst, now);
    FlushProlongs(s, dst, now);
  }

  // ---------------------------------------------------------------- replies

  /** A route to dst with this number and hop count is better than the one the node has. */
  predicate News(s: Node, dst: Addr, seqno: nat, hops: nat) {
    var r := R(s, dst);
    seqno > r.seqno || (seqno == r.seqno && (r.hops.Infinite? || hops < r.hops.n))
  }

  /** The neighbour on the way back to the source of the request, if the node has a route to it. */
  function WayBack(s: Node, m: Msg): Option<Addr>
    requires m.Rrep?
  {
    if m.daddr == m.dst then Some(m.src)
    else if R(s, m.daddr).hops.Finite? then Some(R(s, m.daddr).nexthop)
    else None
  }

  predicate PassesReply(s: Node, m: Msg)
    requires m.Rrep?
  {
    m.daddr != s.index && m.ttl != 1 && WayBack(s, m).Some?
  }

  /** What node s makes of a reply that it passes on. */
  function ReplyFrom(s: Node, m: Msg): Msg
    requires m.Rrep? && WayBack(s, m).Some?
  {
    Rrep(m.daddr, WayBack(s, m).value, m.ttl - 1, m.hopCount + 1, m.dst, m.dstSeqno, s.index, m.lifetime, m.timestamp)
  }

  /** A reply that brings nothing new changes no entry and is not passed on. */
  lemma StaleReply(s: Node, m: Msg, now: real, localRepair: bool)
    requires m.Rrep? && !News(s, m.dst, m.dstSeqno, m.hopCount)
    ensures var s' := Handle(s, Deliver(m, now), localRepair);
            && SameRest(s, s') && s'.outbox == s.outbox && s'.rqueue == s.rqueue
            && forall d {:trigger Ent(s'.rtable, d)} :: Ent(s'.rtable, d) == Ent(s.rtable, d)
  {
  }

  /** The node after the route of a fresher reply has been stored and used. */
  function Learning(s: Node, m: Msg, now: real): Node
    requires m.Rrep?
  {
    Flush(Store(s, m.dst, ReplyEntry(Ent(s.rtable, m.dst), m, m.daddr == s.index, now)), m.dst, now)
  }

  lemma LearningEffect(s: Node, m: Msg, now: real)
    requires m.Rrep?
    ensures var s1 := Learning(s, m, now);
            var sent := Carried(s.rqueue, m.dst, m.src, s.index, now);
            && SameRest(s, s1) && s1.outbox == s.outbox + sent && s1.rqueue == Left(s.rqueue, m.dst, now)
            && m.dst in s1.rtable
            && s1.rtable[m.dst] == ReplyEntry(Ent(s.rtable, m.dst), m, m.daddr == s.index, now)
                                   .(expire := now + if sent == [] then m.lifetime else 10.0)
            && forall d {:trigger Ent(s1.rtable, d)} :: d != m.dst ==> Ent(s1.rtable, d) == Ent(s.rtable, d)
  {
    var s0 := Store(s, m.dst, ReplyEntry(Ent(s.rtable, m.dst), m, m.daddr == s.index, now));
    FlushEffect(s0, m.dst, now);
    FlushProlongs(s0, m.dst, now);
  }

  /** What passing a reply on does to an entry: the route that it takes is prolonged, and its next hop becomes
      a user of the route that the reply brings. */
  function Passing(e: Entry, taken: bool, brought: bool, via: Addr, now: real): Entry {
    var e1 := if taken then e.(expire := now + 10.0) else e;
    if brought && via !in e1.precursors then e1.(precursors := [via] + e1.precursors) else e1
  }

  /** The next step of a reply from a node that has the route of the reply. */
  lemma PassingEffect(s: Node, m: Msg, now: real)
    requires m.Rrep?
    ensures var s', r := ForwardReply(s, m, now), R(s, m.daddr);
            if r.hops.Infinite? then s' == s
            else
              && SameRest(s, s') && s'.rqueue == s.rqueue
              && s'.outbox == s.outbox + (if m.ttl == 1 then []
                   else [Rrep(m.daddr, r.nexthop, m.ttl - 1, m.hopCount + 1, m.dst, m.dstSeqno, s.index, m.lifetime,
                              m.timestamp)])
              && forall d {:trigger Ent(s'.rtable, d)} ::
                   Ent(s'.rtable, d) == Passing(Ent(s.rtable, d), m.ttl != 1 && d == m.daddr, d == m.dst, r.nexthop, now)
  {
  }

  /** A fresher reply sends out what was waiting for its destination, and is passed on exactly when it is not
      for this node, has not travelled too far and the node knows the way back. */
  lemma ReplySends(s: Node, m: Msg, now: real, localRepair: bool)
    requires m.Rrep? && News(s, m.dst, m.dstSeqno, m.hopCount)
    ensures var s' := Handle(s, Deliver(m, now), localRepair);
            && SameRest(s, s') && s'.rqueue == Left(s.rqueue, m.dst, now)
            && s'.outbox == s.outbox + Carried(s.rqueue, m.dst, m.src, s.index, now)
                            + if PassesReply(s, m) then [ReplyFrom(s, m)] else []
  {
    LearningEffect(s, m, now);
    var s1 := Learning(s, m, now);
    assert Ent(s1.rtable, m.daddr) == if m.daddr == m.dst then s1.rtable[m.dst] else Ent(s.rtable, m.daddr);
    PassingEffect(s1, m, now);
  }

  /** The entries after a fresher reply: that of its destination is learned, and the reply may be passed on. */
  lemma ReplyEntries(s: Node, m: Msg, now: real, localRepair: bool, d: Addr)
    requires m.Rrep? && News(s, m.dst, m.dstSeqno, m.hopCount)
    ensures var via := WayBack(s, m);
            var e := Ent(Learning(s, m, now).rtable, d);
            Ent(Handle(s, Deliver(m, now), localRepair).rtable, d)
            == if m.daddr == s.index || via.None? then e
               else Passing(e, m.ttl != 1 && d == m.daddr, d == m.dst, via.value, now)
  {
    LearningEffect(s, m, now);
    var s1 := Learning(s, m, now);
    assert Ent(s1.rtable, m.daddr) == if m.daddr == m.dst then s1.rtable[m.dst] else Ent(s.rtable, m.daddr);
    assert Ent(s1.rtable, d) == if d == m.dst then s1.rtable[m.dst] else Ent(s.rtable, d);
    PassingEffect(s1, m, now);
  }

  /** A fresher reply becomes the route to its destination; all other routes stay. */
  lemma ReplyRoutes(s: Node, m: Msg, now: real, localRepair: bool)
    requires m.Rrep? && News(s, m.dst, m.dstSeqno, m.hopCount)
    ensures var s' := Handle(s, Deliver(m, now), localRepair);
            forall d {:trigger R(s', d)} ::
              R(s', d) == if d == m.dst then Route(m.dstSeqno, Finite(m.hopCount), Up, m.src) else R(s, d)
  {
    var s' := Handle(s, Deliver(m, now), localRepair);
    LearningEffect(s, m, now);
    forall d
      ensures R(s', d) == if d == m.dst then Route(m.dstSeqno, Finite(m.hopCount), Up, m.src) else R(s, d)
    {
      ReplyEntries(s, m, now, localRepair, d);
    }
  }

  /** The source of the request takes a sample of the time the search took. */
  predicate Sampled(e: Entry, e': Entry, sample: real) {
    && e'.histIndx == (if e.histIndx == 2 then 0 else e.histIndx + 1)
    && e'.discLatency[e.histIndx] == sample
    && forall k :: 0 <= k < 3 && k != e.histIndx ==> e'.discLatency[k] == e.discLatency[k]
  }

  lemma ReplyEntrySearch(e: Entry, m: Msg, forMe: bool, now: real)
    requires m.Rrep?
    ensures var e' := ReplyEntry(e, m, forMe, now);
            && e'.reqCnt == 0 && e'.reqTimeout == 0.0 && e'.reqLastTtl == m.hopCount
            && e'.lastHopCount == e.lastHopCount && e'.precursors == e.precursors && e'.expire == now + m.lifetime
            && (if forMe then Sampled(e, e', if m.hopCount == 0 then 0.0 else (now - m.timestamp) / m.hopCount as real)
                else e'.discLatency == e.discLatency && e'.histIndx == e.histIndx)
  {
  }

  /** A fresher reply ends the search for its destination; the next hop of the reply becomes a user of the route. */
  lemma ReplyEndsSearch(s: Node, m: Msg, now: real, localRepair: bool)
    requires m.Rrep? && News(s, m.dst, m.dstSeqno, m.hopCount)
    ensures var e, e' := Ent(s.rtable, m.dst), Ent(Handle(s, Deliver(m, now), localRepair).rtable, m.dst);
            && e'.reqCnt == 0 && e'.reqTimeout == 0.0 && e'.reqLastTtl == m.hopCount
            && e'.lastHopCount == e.lastHopCount
            && (if m.daddr != s.index then e'.discLatency == e.discLatency && e'.histIndx == e.histIndx
                else Sampled(e, e', if m.hopCount == 0 then 0.0 else (now - m.timestamp) / m.hopCount as real))
            && (forall x :: x in e'.precursors <==>
                  x in e.precursors || (m.daddr != s.index && WayBack(s, m) == Some(x)))
            && e'.expire == now + if Carried(s.rqueue, m.dst, m.src, s.index, now) == []
                                     && !(PassesReply(s, m) && m.daddr == m.dst) then m.lifetime else 10.0
  {
    LearningEffect(s, m, now);
    assert Ent(Learning(s, m, now).rtable, m.dst) == Learning(s, m, now).rtable[m.dst];
    ReplyEntries(s, m, now, localRepair, m.dst);
    ReplyEntrySearch(Ent(s.rtable, m.dst), m, m.daddr == s.index, now);
  }

  /** Passing a reply on prolongs the route that it takes; no other entry changes. */
  lemma ReplyOthers(s: Node, m: Msg, now: real, localRepair: bool, d: Addr)
    requires m.Rrep? && News(s, m.dst, m.dstSeqno, m.hopCount) && d != m.dst
    ensures var e, e' := Ent(s.rtable, d), Ent(Handle(s, Deliver(m, now), localRepair).rtable, d);
            e' == if d == m.daddr && PassesReply(s, m) then e.(expire := now + 10.0) else e
  {
    LearningEffect(s, m, now);
    ReplyEntries(s, m, now, localRepair, d);
  }

  // ---------------------------------------------------------------- requests

  /** The request is the node's own or has been heard before. */
  ghost predicate Heard(s: Node, m: Msg)
    requires m.Rreq?
  {
    m.src == s.index || exists k: nat :: k < |s.bihead| && s.bihead[k].src == m.src && s.bihead[k].id == m.bcastId
  }

  /** The way back to the source of a request, in the entry e for it. */
  function BackEntry(e: Entry, m: Msg, news: bool, now: real): Entry
    requires m.Rreq?
  {
    var expire := if e.expire > now + 6.0 then e.expire else now + 6.0;
    if !news then e.(expire := expire)
    else
      var e1 := e.(seqno := m.srcSeqno, hops := Finite(m.hopCount), flags := Up, nexthop := m.saddr);
      if e.reqTimeout > 0.0
      then e1.(reqCnt := 0, reqTimeout := 0.0, reqLastTtl := m.hopCount, expire := now + 10.0)
      else e1.(expire := expire)
  }

  /** A request that is new to the node teaches it the way back, and what waits for the source leaves. */
  lemma ReverseEffect(s: Node, m: Msg, now: real)
    requires m.Rreq?
    ensures var s1, news := ReverseRoute(s, m, now), News(s, m.src, m.srcSeqno, m.hopCount);
            var sent := if news then Carried(s.rqueue, m.src, m.saddr, s.index, now) else [];
            var e := BackEntry(Ent(s.rtable, m.src), m, news, now);
            && SameRest(s, s1) && s1.outbox == s.outbox + sent
            && s1.rqueue == (if news then Left(s.rqueue, m.src, now) else s.rqueue)
            && Ent(s1.rtable, m.src) == (if sent == [] then e else e.(expire := now + 10.0))
            && forall d {:trigger Ent(s1.rtable, d)} :: d != m.src ==> Ent(s1.rtable, d) == Ent(s.rtable, d)
  {
    var e0 := Ent(s.rtable, m.src);
    var e := e0.(expire := MaxReal(e0.expire, now + REV_ROUTE_LIFE));
    if BetterThan(m.srcSeqno, m.hopCount, e) {
      FlushEffect(Store(s, m.src, ReverseEntry(e, m, now)), m.src, now);
    }
  }

  /** A destination takes the next even number above its own and the wanted one. */
  predicate NextNumber(own: nat, wanted: nat, next: nat) {
    next % 2 == 0 && next > own && next > wanted && (next <= own + 2 || next <= wanted + 2)
  }

  /** A user that is not yet known is put in front of the others. */
  function Joined(pc: seq<Addr>, user: Addr, joins: bool): seq<Addr> {
    if joins && user !in pc then [user] + pc else pc
  }

  predicate KnowsAnswer(s: Node, m: Msg)
    requires m.Rreq?
  {
    R(s, m.dst).hops.Finite? && R(s, m.dst).seqno >= m.dstSeqno
  }

  /** What a node says to a request, given its routes: it answers, passes the request on, or lets it end. */
  function Saying(s: Node, m: Msg, own: nat, now: real): seq<Msg>
    requires m.Rreq?
  {
    var r, back := R(s, m.dst), R(s, m.src).nexthop;
    if m.dst == s.index then [Rrep(m.src, back, 30, 1, s.index, own, s.index, 10.0, m.timestamp)]
    else if KnowsAnswer(s, m) then
      [Rrep(m.src, back, 30, r.hops.n + 1, m.dst, r.seqno, s.index, CastU32(Ent(s.rtable, m.dst).expire - now),
            m.timestamp)]
    else if m.ttl == 1 then []
    else [Rreq(s.index, m.ttl - 1, m.hopCount + 1, m.bcastId, m.dst,
               if r.seqno > m.dstSeqno then r.seqno else m.dstSeqno, m.src, m.srcSeqno, m.timestamp)]
  }

  /** The cast drops the fraction, and keeps the whole part as it is when it fits into 32 bits. */
  lemma CastDropsFraction(x: real)
    ensures exists z: int ::
      && (if x >= 0.0 then 0 <= z && z as real <= x < (z + 1) as real else z <= 0 && (z - 1) as real < x <= z as real)
      && CastU32(x) == (z % 0x1_0000_0000) as real && (0 <= z < 0x1_0000_0000 ==> CastU32(x) == z as real)
  {
    var z := if x >= 0.0 then x.Floor else -((-x).Floor);
    assert CastU32(x) == (z % 0x1_0000_0000) as real;
  }

  lemma AnswerSays(s: Node, m: Msg, now: real)
    requires m.Rreq?
    ensures var s' := Answer(s, m, now);
            && s'.index == s.index && s'.bid == s.bid && s'.nbhead == s.nbhead && s'.bihead == s.bihead
            && s'.rqueue == s.rqueue && s'.outbox == s.outbox + Saying(s, m, s'.seqno, now)
            && if m.dst == s.index then NextNumber(s.seqno, m.dstSeqno, s'.seqno) else s'.seqno == s.seqno
  {
  }

  /** A node that answers from its table notes on both routes who uses them. */
  lemma AnswerEntries(s: Node, m: Msg, now: real, d: Addr)
    requires m.Rreq?
    ensures var e, answers := Ent(s.rtable, d), m.dst != s.index && KnowsAnswer(s, m);
            Ent(Answer(s, m, now).rtable, d)
            == e.(precursors := Joined(Joined(e.precursors, R(s, m.src).nexthop, answers && d == m.dst),
                                       R(s, m.dst).nexthop, answers && d == m.src))
  {
  }

  /** A request that is the node's own or that it has heard before changes nothing. */
  lemma HeardRequest(s: Node, m: Msg, now: real, localRepair: bool)
    requires m.Rreq? && Heard(s, m)
    ensures Handle(s, Deliver(m, now), localRepair) == s
  {
  }

  lemma NewRequest(s: Node, m: Msg, now: real, localRepair: bool)
    requires m.Rreq? && !Heard(s, m)
    ensures var s1 := s.(bihead := [BroadcastId(m.src, m.bcastId, now + 6.0)] + s.bihead);
            Handle(s, Deliver(m, now), localRepair) == Answer(ReverseRoute(s1, m, now), m, now)
  {
  }

  /** A new request makes the way back the route to its source when it is fresher; all other routes stay. */
  lemma RequestRoutes(s: Node, m: Msg, now: real, localRepair: bool)
    requires m.Rreq? && !Heard(s, m)
    ensures var s' := Handle(s, Deliver(m, now), localRepair);
            forall d {:trigger R(s', d)} ::
              R(s', d) == if d == m.src && News(s, d, m.srcSeqno, m.hopCount)
                          then Route(m.srcSeqno, Finite(m.hopCount), Up, m.saddr) else R(s, d)
  {
    var s' := Handle(s, Deliver(m, now), localRepair);
    var s0 := s.(bihead := [BroadcastId(m.src, m.bcastId, now + 6.0)] + s.bihead);
    NewRequest(s, m, now, localRepair);
    ReverseEffect(s0, m, now);
    forall d
      ensures R(s', d) == if d == m.src && News(s, d, m.srcSeqno, m.hopCount)
                          then Route(m.srcSeqno, Finite(m.hopCount), Up, m.saddr) else R(s, d)
    {
      AnswerEntries(ReverseRoute(s0, m, now), m, now, d);
    }
  }

  /** Noting users does not change what a node says. */
  lemma SaysTheSame(s: Node, s': Node, m: Msg, own: nat, now: real)
    requires m.Rreq? && s'.index == s.index
    requires forall d {:trigger Ent(s'.rtable, d)} ::
               Ent(s'.rtable, d) == Ent(s.rtable, d).(precursors := Ent(s'.rtable, d).precursors)
    ensures Saying(s', m, own, now) == Saying(s, m, own, now)
  {
    assert R(s', m.dst) == R(s, m.dst) && R(s', m.src) == R(s, m.src);
  }

  lemma AnswerSaysAfter(s: Node, m: Msg, now: real)
    requires m.Rreq?
    ensures var s' := Answer(s, m, now); s'.outbox == s.outbox + Saying(s', m, s'.seqno, now)
  {
    var s' := Answer(s, m, now);
    AnswerSays(s, m, now);
    forall d ensures Ent(s'.rtable, d) == Ent(s.rtable, d).(precursors := Ent(s'.rtable, d).precursors) {
      AnswerEntries(s, m, now, d);
    }
    SaysTheSame(s, s', m, s'.seqno, now);
  }

  /** A new request is noted and sends out what was waiting for its source. */
  lemma RequestKeeps(s: Node, m: Msg, now: real, localRepair: bool)
    requires m.Rreq? && !Heard(s, m)
    ensures var s' := Handle(s, Deliver(m, now), localRepair);
            && s'.index == s.index && s'.bid == s.bid && s'.nbhead == s.nbhead
            && s'.bihead == [BroadcastId(m.src, m.bcastId, now + 6.0)] + s.bihead
            && s'.rqueue == (if News(s, m.src, m.srcSeqno, m.hopCount) then Left(s.rqueue, m.src, now) else s.rqueue)
            && if m.dst == s.index then NextNumber(s.seqno, m.dstSeqno, s'.seqno) else s'.seqno == s.seqno
  {
    var s0 := s.(bihead := [BroadcastId(m.src, m.bcastId, now + 6.0)] + s.bihead);
    NewRequest(s, m, now, localRepair);
    ReverseEffect(s0, m, now);
    AnswerSays(ReverseRoute(s0, m, now), m, now);
  }

  /** With the way back in its table the node answers a new request, for itself with a new number or from the table,
      or passes it on, unless it has travelled too far. */
  lemma RequestSends(s: Node, m: Msg, now: real, localRepair: bool)
    requires m.Rreq? && !Heard(s, m)
    ensures var s' := Handle(s, Deliver(m, now), localRepair);
            s'.outbox == s.outbox
              + (if News(s, m.src, m.srcSeqno, m.hopCount)
                 then Carried(s.rqueue, m.src, m.saddr, s.index, now) else [])
              + Saying(s', m, s'.seqno, now)
  {
    var s0 := s.(bihead := [BroadcastId(m.src, m.bcastId, now + 6.0)] + s.bihead);
    NewRequest(s, m, now, localRepair);
    ReverseEffect(s0, m, now);
    AnswerSaysAfter(ReverseRoute(s0, m, now), m, now);
  }

  /** The entry for the source of a new request, apart from who uses it. */
  lemma RequestBackEntry(s: Node, m: Msg, now: real, localRepair: bool)
    requires m.Rreq? && !Heard(s, m)
    ensures var news := News(s, m.src, m.srcSeqno, m.hopCount);
            var e := BackEntry(Ent(s.rtable, m.src), m, news, now);
            var e' := Ent(Handle(s, Deliver(m, now), localRepair).rtable, m.src);
            e' == e.(precursors := e'.precursors,
                     expire := if news && Carried(s.rqueue, m.src, m.saddr, s.index, now) != [] then now + 10.0
                               else e.expire)
  {
    var s0 := s.(bihead := [BroadcastId(m.src, m.bcastId, now + 6.0)] + s.bihead);
    NewRequest(s, m, now, localRepair);
    ReverseEffect(s0, m, now);
    AnswerEntries(ReverseRoute(s0, m, now), m, now, m.src);
  }

  /** A node that answers from its table notes on both routes who uses them from now on. */
  lemma RequestUsers(s: Node, m: Msg, now: real, localRepair: bool, d: Addr)
    requires m.Rreq? && !Heard(s, m)
    ensures var s' := Handle(s, Deliver(m, now), localRepair);
            var answers := m.dst != s.index && KnowsAnswer(s', m);
            var e, e' := Ent(s.rtable, d), Ent(s'.rtable, d);
            && (forall x :: x in e'.precursors <==>
                  x in e.precursors || (answers && d == m.dst && x == R(s', m.src).nexthop)
                  || (answers && d == m.src && x == R(s', m.dst).nexthop))
            && (d != m.src ==> e' == e.(precursors := e'.precursors))
  {
    var s0 := s.(bihead := [BroadcastId(m.src, m.bcastId, now + 6.0)] + s.bihead);
    var s1 := ReverseRoute(s0, m, now);
    NewRequest(s, m, now, localRepair);
    ReverseEffect(s0, m, now);
    AnswerEntries(s1, m, now, d);
    AnswerEntries(s1, m, now, m.src);
    AnswerEntries(s1, m, now, m.dst);
    var s' := Handle(s, Deliver(m, now), localRepair);
    assert R(s', m.src) == R(s1, m.src) && R(s', m.dst) == R(s1, m.dst);
  }
}
