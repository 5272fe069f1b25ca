/** One AODV node as a value. */
module Aodv {
  // Its tables, and what each event handler turns them into. The class in AodvAgent.dfy does the same in
  // place and is proved against these functions.

  import opened Common
  import opened RouteQueue
  import opened OnDemand

  const MAX_RREQ_TIMEOUT := 10.0
  const MAX_HISTORY := 3

  datatype Flag = Down | Up | InRepair

  type Latencies = l: seq<real> | |l| == MAX_HISTORY witness [0.0, 0.0, 0.0]
  type Slot = i: nat | i < MAX_HISTORY

  /** The fields of aodv_rt_entry; rt_dst is the key it is stored under. */
  datatype Entry = Entry(
    seqno: nat, hops: Hops, lastHopCount: Hops, nexthop: Addr, precursors: seq<Addr>,
    expire: real, flags: Flag, reqTimeout: real, reqCnt: nat, reqLastTtl: nat,
    discLatency: Latencies, histIndx: Slot)

  datatype BroadcastId = BroadcastId(src: Addr, id: nat, expire: real)

  datatype Msg =
    | Rreq(saddr: Addr, ttl: int, hopCount: nat, bcastId: nat, dst: Addr, dstSeqno: nat,
           src: Addr, srcSeqno: nat, timestamp: real)
    | Rrep(daddr: Addr, nextHop: Addr, ttl: int, hopCount: nat, dst: Addr, dstSeqno: nat,
           src: Addr, lifetime: real, timestamp: real)
    | Rerr(saddr: Addr, unreachable: seq<Unreachable>)
    | Hello(dst: Addr, dstSeqno: nat)
    | Data(packet: Packet, nextHop: Addr)

  type Table = map<Addr, Entry>

  /** rlist is the order of the linked list of routes, newest first; rtable holds the entries.
      outbox is everything the node has handed to the link layer so far. */
  datatype Node = Node(
    index: Addr, seqno: nat, bid: nat, rtable: Table, rlist: seq<Addr>, nbhead: seq<Neighbor>,
    bihead: seq<BroadcastId>, rqueue: seq<Buffered>, outbox: seq<Msg>)

  function NewNode(index: Addr): Node {
    Node(index, 2, 1, map[], [], [], [], [], [])
  }

  // ---------------------------------------------------------------- routing table

  const FRESH_ENTRY := Entry(0, Infinite, Infinite, 0, [], 0.0, Down, 0.0, 0, 0, [0.0, 0.0, 0.0], 0)

  /** The entry for dst; a missing entry says the same as a newly added one. */
  function Ent(t: Table, dst: Addr): Entry {
    if dst in t then t[dst] else FRESH_ENTRY
  }

  /** Overwrites the entry for dst, adding it at the head of the list when it is missing. */
  function Store(s: Node, dst: Addr, e: Entry): Node {
    s.(rtable := s.rtable[dst := e], rlist := if dst in s.rtable then s.rlist else [dst] + s.rlist)
  }

  function RtUpdate(e: Entry, seqno: nat, metric: nat, nexthop: Addr, expire: real): Entry {
    e.(seqno := seqno, hops := Finite(metric), flags := Up, nexthop := nexthop, expire := expire)
  }

  function RtDown(e: Entry): Entry {
    if e.flags == Down then e
    else e.(lastHopCount := e.hops, hops := Infinite, flags := Down, nexthop := 0, expire := 0.0)
  }

  function PcInsert(pc: seq<Addr>, id: Addr): seq<Addr> {
    if id in pc then pc else [id] + pc
  }

  /** Removes the first occurrence. */
  function PcDelete(pc: seq<Addr>, id: Addr): seq<Addr> {
    if pc == [] then []
    else if pc[0] == id then pc[1..]
    else [pc[0]] + PcDelete(pc[1..], id)
  }

  // ---------------------------------------------------------------- broadcast ids

  predicate IdSeen(b: seq<BroadcastId>, src: Addr, id: nat) {
    exists k :: 0 <= k < |b| && b[k].src == src && b[k].id == id
  }

  function IdInsert(b: seq<BroadcastId>, src: Addr, id: nat, now: real): seq<BroadcastId> {
    [BroadcastId(src, id, now + BCAST_ID_SAVE)] + b
  }

  function IdPurge(b: seq<BroadcastId>, now: real): seq<BroadcastId> {
    if b == [] then []
    else if b[0].expire <= now then IdPurge(b[1..], now)
    else [b[0]] + IdPurge(b[1..], now)
  }

  // ---------------------------------------------------------------- sending

  function Send(s: Node, m: Msg): Node {
    s.(outbox := s.outbox + [m])
  }

  function AddPrecursor(s: Node, dst: Addr, user: Addr): Node {
    var e := Ent(s.rtable, dst);
    Store(s, dst, e.(precursors := PcInsert(e.precursors, user)))
  }

  /** forward() of a data packet along the route to dst. */
  function ForwardData(s: Node, dst: Addr, p: Packet, now: real): Node {
    if p.ttl == 0 || p.daddr == s.index then s
    else
      var e := Ent(s.rtable, dst).(expire := now + ACTIVE_ROUTE_TIMEOUT);
      Send(Store(s, dst, e), Data(p, e.nexthop))
  }

  /** Takes every buffered packet for dst out of the send buffer and forwards it. */
  function Flush(s: Node, dst: Addr, now: real): Node
    decreases |s.rqueue|
  {
    var q := Purge(s.rqueue, now);
    var i := FindDst(q, dst);
    if i == |q| then s.(rqueue := q)
    else Flush(ForwardData(s.(rqueue := RemoveAt(q, i)), dst, q[i].packet, now), dst, now)
  }

  function CountPositive(l: seq<real>): nat {
    if l == [] then 0 else (if l[0] > 0.0 then 1 else 0) + CountPositive(l[1..])
  }

  function SumPositive(l: seq<real>): real {
    if l == [] then 0.0 else (if l[0] > 0.0 then l[0] else 0.0) + SumPositive(l[1..])
  }

  function PerHopTime(e: Entry): real {
    var n := CountPositive(e.discLatency);
    if n > 0 then SumPositive(e.discLatency) / (n as real) else NODE_TRAVERSAL_TIME
  }

  /** How far the last search, or the last known route, reached. */
  function Ring(e: Entry): Hops {
    MaxHops(Finite(e.reqLastTtl), e.lastHopCount)
  }

  predicate NetworkWide(e: Entry) {
    Ring(e).Infinite? || Ring(e).n >= TTL_THRESHOLD
  }

  function RequestTtl(e: Entry): nat {
    if Ring(e) == Finite(0) then TTL_START
    else if NetworkWide(e) then NETWORK_DIAMETER
    else Ring(e).n + TTL_INCREMENT
  }

  /** The entry after a route request for it has gone out. */
  function Requested(e: Entry, now: real): Entry {
    var cnt := if NetworkWide(e) then e.reqCnt + 1 else e.reqCnt;
    var wait := Backoff(RequestTtl(e), PerHopTime(e), cnt);
    e.(reqLastTtl := RequestTtl(e), reqCnt := cnt, expire := 0.0,
       reqTimeout := now + if wait > MAX_RREQ_TIMEOUT then MAX_RREQ_TIMEOUT else wait)
  }

  /** The entry after the search for it has been given up for a while. */
  function GivenUp(e: Entry, now: real): Entry {
    e.(reqTimeout := now + MAX_RREQ_TIMEOUT, reqCnt := 0)
  }

  datatype RequestAction = HasRoute | TooSoon | GiveUp | SendRreq

  function RequestDecision(e: Entry, now: real): RequestAction {
    if e.flags == Up then HasRoute
    else if e.reqTimeout > now then TooSoon
    else if e.reqCnt > RREQ_RETRIES then GiveUp
    else SendRreq
  }

  function SendRequest(s: Node, dst: Addr, now: real): Node {
    var e := Ent(s.rtable, dst);
    match RequestDecision(e, now)
    case HasRoute => s
    case TooSoon => s
    case GiveUp => Store(s, dst, GivenUp(e, now)).(rqueue := Without(Purge(s.rqueue, now), dst))
    case SendRreq =>
      var s1 := Store(s, dst, Requested(e, now)).(bid := s.bid + 1, seqno := s.seqno + 2);
      Send(s1, Rreq(s.index, RequestTtl(e), 1, s.bid, dst, e.seqno, s.index, s1.seqno, now))
  }

  function SendReply(s: Node, ipdst: Addr, hopCount: nat, dst: Addr, seqno: nat,
                     lifetime: real, timestamp: real): Node {
    Send(s, Rrep(ipdst, Ent(s.rtable, ipdst).nexthop, NETWORK_DIAMETER, hopCount, dst, seqno,
                 s.index, lifetime, timestamp))
  }

  // ---------------------------------------------------------------- reception

  function RecvRequest(s: Node, m: Msg, now: real): Node
    requires m.Rreq?
  {
    if m.src == s.index || IdSeen(s.bihead, m.src, m.bcastId) then s
    else
      var s1 := s.(bihead := IdInsert(s.bihead, m.src, m.bcastId, now));
      Answer(ReverseRoute(s1, m, now), m, now)
  }

  predicate BetterThan(seqno: nat, hopCount: nat, e: Entry) {
    Fresher(seqno, Finite(hopCount), e.seqno, e.hops)
  }

  function ReverseEntry(e: Entry, m: Msg, now: real): Entry
    requires m.Rreq?
  {
    var e1 := RtUpdate(e, m.srcSeqno, m.hopCount, m.saddr, MaxReal(e.expire, now + REV_ROUTE_LIFE));
    if e1.reqTimeout > 0.0
    then e1.(reqCnt := 0, reqTimeout := 0.0, reqLastTtl := m.hopCount, expire := now + ACTIVE_ROUTE_TIMEOUT)
    else e1
  }

  /** Learns the way back to the source of a request. */
  function ReverseRoute(s: Node, m: Msg, now: real): Node
    requires m.Rreq?
  {
    var e0 := Ent(s.rtable, m.src);
    var e := e0.(expire := MaxReal(e0.expire, now + REV_ROUTE_LIFE));
    if BetterThan(m.srcSeqno, m.hopCount, e)
    then Flush(Store(s, m.src, ReverseEntry(e, m, now)), m.src, now)
    else Store(s, m.src, e)
  }

  /** The own number of a destination that answers a request asking for at least wanted. */
  function AnswerSeqno(own: nat, wanted: nat): nat {
    var next := Max(own, wanted) + 1;
    if next % 2 == 1 then next + 1 else next
  }

  predicate CanAnswer(t: Table, m: Msg)
    requires m.Rreq?
  {
    m.dst in t && Ent(t, m.dst).hops != Infinite && Ent(t, m.dst).seqno >= m.dstSeqno
  }

  /** The cast of a lifetime to an unsigned 32-bit integer. */
  function CastU32(x: real): real {
    if x >= 0.0 then (x.Floor % 0x1_0000_0000) as real
    else (-((-x).Floor) % 0x1_0000_0000) as real
  }

  /** The destination of a request answers it with a new number of its own. */
  function OwnAnswer(s: Node, m: Msg): Node
    requires m.Rreq?
  {
    var s1 := s.(seqno := AnswerSeqno(s.seqno, m.dstSeqno));
    SendReply(s1, m.src, 1, s.index, s1.seqno, MY_ROUTE_TIMEOUT, m.timestamp)
  }

  /** A node on the way answers from its table. */
  function TableAnswer(s: Node, m: Msg, now: real): Node
    requires m.Rreq? && CanAnswer(s.rtable, m)
  {
    var rt := Ent(s.rtable, m.dst);
    var s1 := SendReply(s, m.src, rt.hops.n + 1, m.dst, rt.seqno, CastU32(rt.expire - now), m.timestamp);
    AddPrecursor(AddPrecursor(s1, m.dst, Ent(s.rtable, m.src).nexthop), m.src, rt.nexthop)
  }

  /** A node that cannot answer passes the request on, asking for the largest number it knows. */
  function PassedOn(s: Node, m: Msg): Msg
    requires m.Rreq?
  {
    m.(saddr := s.index, ttl := m.ttl - 1, hopCount := m.hopCount + 1,
       dstSeqno := if m.dst in s.rtable then Max(s.rtable[m.dst].seqno, m.dstSeqno) else m.dstSeqno)
  }

  function Answer(s: Node, m: Msg, now: real): Node
    requires m.Rreq?
  {
    if m.dst == s.index then OwnAnswer(s, m)
    else if CanAnswer(s.rtable, m) then TableAnswer(s, m, now)
    else if m.ttl - 1 == 0 then s
    else Send(s, PassedOn(s, m))
  }

  /** Seconds per hop; a reply that claims no hops at all counts as no sample. */
  function Latency(elapsed: real, hops: nat): real {
    if hops == 0 then 0.0 else elapsed / hops as real
  }

  function ReplyEntry(e: Entry, m: Msg, forMe: bool, now: real): Entry
    requires m.Rrep?
  {
    var e1 := RtUpdate(e, m.dstSeqno, m.hopCount, m.src, now + m.lifetime)
              .(reqCnt := 0, reqTimeout := 0.0, reqLastTtl := m.hopCount);
    if forMe
    then e1.(discLatency := e1.discLatency[e1.histIndx := Latency(now - m.timestamp, m.hopCount)],
             histIndx := (e1.histIndx + 1) % MAX_HISTORY)
    else e1
  }

  function RecvReply(s: Node, m: Msg, now: real): Node
    requires m.Rrep?
  {
    var e := Ent(s.rtable, m.dst);
    if !BetterThan(m.dstSeqno, m.hopCount, e) then Store(s, m.dst, e)
    else
      var s1 := Flush(Store(s, m.dst, ReplyEntry(e, m, m.daddr == s.index, now)), m.dst, now);
      if m.daddr == s.index then s1 else ForwardReply(s1, m, now)
  }

  /** Passes a reply on towards the source of the request it answers. */
  function ForwardReply(s: Node, m: Msg, now: real): Node
    requires m.Rrep?
  {
    var rt0 := Ent(s.rtable, m.daddr);
    if m.daddr !in s.rtable || rt0.hops == Infinite then s
    else
      var s1 := if m.ttl - 1 == 0 then s
                else Send(Store(s, m.daddr, rt0.(expire := now + ACTIVE_ROUTE_TIMEOUT)),
                          m.(nextHop := rt0.nexthop, ttl := m.ttl - 1, hopCount := m.hopCount + 1, src := s.index));
      AddPrecursor(s1, m.dst, rt0.nexthop)
  }

  predicate Breaks(e: Entry, u: Unreachable, from: Addr) {
    e.hops != Infinite && e.nexthop == from && e.seqno <= u.seqno
  }

  function BrokenEntry(e: Entry, u: Unreachable): Entry {
    RtDown(e.(seqno := u.seqno)).(precursors := [])
  }

  /** One item of an error report from a neighbour. */
  function BreakRoute(t: Table, u: Unreachable, from: Addr): Table {
    if u.dst in t && Breaks(t[u.dst], u, from) then t[u.dst := BrokenEntry(t[u.dst], u)] else t
  }

  function AfterErrors(t: Table, us: seq<Unreachable>, from: Addr): Table {
    if us == [] then t else AfterErrors(BreakRoute(t, us[0], from), us[1..], from)
  }

  function ReportItem(t: Table, u: Unreachable, from: Addr): seq<Unreachable> {
    if u.dst in t && Breaks(t[u.dst], u, from) && t[u.dst].precursors != [] then [u] else []
  }

  /** What the node itself reports in turn: the routes it lost that others used. */
  function ErrorReport(t: Table, us: seq<Unreachable>, from: Addr): seq<Unreachable> {
    if us == [] then []
    else ReportItem(t, us[0], from) + ErrorReport(BreakRoute(t, us[0], from), us[1..], from)
  }

  function SendError(s: Node, us: seq<Unreachable>): Node {
    if us == [] then s else Send(s, Rerr(s.index, us))
  }

  function RecvError(s: Node, m: Msg): Node
    requires m.Rerr?
  {
    SendError(s.(rtable := AfterErrors(s.rtable, m.unreachable, m.saddr)),
              ErrorReport(s.rtable, m.unreachable, m.saddr))
  }

  function RecvHello(s: Node, m: Msg, now: real): Node
    requires m.Hello?
  {
    var expire := now + 1.5 * ALLOWED_HELLO_LOSS * HELLO_INTERVAL;
    var i := NbLookup(s.nbhead, m.dst);
    if i == |s.nbhead|
    then s.(nbhead := [Neighbor(m.dst, expire)] + s.nbhead, seqno := s.seqno + 2)
    else s.(nbhead := s.nbhead[i := s.nbhead[i].(expire := expire)])
  }

  // ---------------------------------------------------------------- neighbours and link failures

  predicate Fails(e: Entry, id: Addr) {
    e.hops != Infinite && e.nexthop == id
  }

  function FailEntry(e: Entry, id: Addr): Entry {
    var e1 := if Fails(e, id) then RtDown(e.(seqno := e.seqno + 1)) else e;
    e1.(precursors := PcDelete(e1.precursors, id))
  }

  function FailTable(t: Table, id: Addr): Table {
    map d | d in t :: FailEntry(t[d], id)
  }

  function FailItem(t: Table, d: Addr, id: Addr): seq<Unreachable> {
    if d in t && Fails(t[d], id) then [Unreachable(d, t[d].seqno + 1)] else []
  }

  /** The routes of list l that are lost with neighbour id. */
  function FailReport(t: Table, l: seq<Addr>, id: Addr): seq<Unreachable> {
    if l == [] then []
    else FailItem(t, l[0], id) + FailReport(t, l[1..], id)
  }

  function HandleLinkFailure(s: Node, id: Addr): Node {
    SendError(s.(rtable := FailTable(s.rtable, id)), FailReport(s.rtable, s.rlist, id))
  }

  function NbDelete(s: Node, id: Addr): Node {
    HandleLinkFailure(s.(seqno := s.seqno + 2, nbhead := NbRemove(s.nbhead, id)), id)
  }

  /** nb_purge: drops every neighbour of the list nb that was not heard of in time. */
  function NbPurge(s: Node, nb: seq<Neighbor>, now: real): Node
    decreases |nb|
  {
    if nb == [] then s
    else NbPurge(if nb[0].expire <= now then NbDelete(s, nb[0].addr) else s, nb[1..], now)
  }

  function SendHello(s: Node): Node {
    Send(s, Hello(s.index, s.seqno))
  }

  // ---------------------------------------------------------------- data packets and route expiry

  function Resolve(s: Node, p: Packet, now: real): Node {
    var e := Ent(s.rtable, p.daddr);
    var s1 := Store(s, p.daddr, e);
    if e.flags == Up then ForwardData(s1, p.daddr, p, now)
    else if p.saddr == s.index then SendRequest(s1.(rqueue := Enque(s1.rqueue, p, now)), p.daddr, now)
    else if e.flags == InRepair then s1.(rqueue := Enque(s1.rqueue, p, now))
    else Send(s1, Rerr(s.index, [Unreachable(p.daddr, e.seqno)]))
  }

  /** forward() of a broadcast packet; one that has come up from the network goes to the agents of this node. */
  function ForwardBroadcast(s: Node, p: Packet, up: bool): Node {
    if p.ttl == 0 || up then s else Send(s, Data(p, IP_BROADCAST))
  }

  /** recv() of a data packet, from the node's own agents or, up, from a neighbour. */
  function RecvData(s: Node, p: Packet, up: bool, now: real): Node {
    if p.saddr == s.index && p.numForwards == 0 then
      if p.daddr != IP_BROADCAST then Resolve(s, p.(ttl := NETWORK_DIAMETER), now) else ForwardBroadcast(s, p, up)
    else if p.saddr == s.index || p.ttl - 1 == 0 then s
    else if p.daddr != IP_BROADCAST then Resolve(s, p.(ttl := p.ttl - 1), now)
    else ForwardBroadcast(s, p.(ttl := p.ttl - 1), up)
  }

  function ExpireEntry(e: Entry): Entry {
    RtDown(e.(seqno := e.seqno + 1))
  }

  /** rt_purge on the entry for dst. */
  function PurgeRoute(s: Node, dst: Addr, now: real): Node {
    var e := Ent(s.rtable, dst);
    if e.flags == Up && e.expire < now then
      Store(s, dst, ExpireEntry(e)).(rqueue := Without(Purge(s.rqueue, now), dst))
    else if e.flags == Up then Flush(s, dst, now)
    else if Find(s.rqueue, dst) then SendRequest(s, dst, now)
    else s
  }

  /** rt_purge on the entries of list l, one after the other. */
  function PurgeRoutes(s: Node, l: seq<Addr>, now: real): Node
    decreases |l|
  {
    if l == [] then s else PurgeRoutes(PurgeRoute(s, l[0], now), l[1..], now)
  }

  // ---------------------------------------------------------------- local repair

  /** The state of a route whose repair has been started with the packet that found it broken. */
  function LocalRepair(s: Node, p: Packet, now: real): Node {
    var s1 := s.(rqueue := Enque(s.rqueue, p, now));
    SendRequest(Store(s1, p.daddr, Ent(s1.rtable, p.daddr).(flags := InRepair)), p.daddr, now)
  }

  /** The timer of a repair that has not succeeded in time. */
  function RepairTimeout(s: Node, dst: Addr): Node {
    var e := Ent(s.rtable, dst);
    if dst in s.rtable && e.flags != Up then Store(s, dst, RtDown(e)) else s
  }

  predicate RepairsLocally(e: Entry, p: Packet) {
    e.hops.Finite? && p.numForwards > e.hops.n
  }

  /** rt_ll_failed: the link layer could not deliver p to nextHop.
      localRepair is the build option AODV_LOCAL_REPAIR. */
  function LinkFailed(s: Node, p: Packet, isData: bool, nextHop: Addr, localRepair: bool, now: real): Node {
    if !isData || p.daddr == IP_BROADCAST || p.daddr !in s.rtable then s
    else if localRepair && RepairsLocally(Ent(s.rtable, p.daddr), p) then LocalRepair(s, p, now)
    else NbDelete(s, nextHop)
  }

  // ---------------------------------------------------------------- events

  datatype Event =
    | Deliver(m: Msg, now: real)
    | Originate(p: Packet, now: real)
    | LinkFailure(p: Packet, isData: bool, nextHop: Addr, now: real)
    | RouteTimer(now: real)
    | BroadcastTimer(now: real)
    | NeighborTimer(now: real)
    | HelloTimer(now: real)
    | RepairTimer(dst: Addr, now: real)

  /** What a node becomes when an event happens to it. */
  function Handle(s: Node, ev: Event, localRepair: bool): Node {
    match ev
    case Deliver(m, now) =>
      (match m
       case Rreq(_, _, _, _, _, _, _, _, _) => RecvRequest(s, m, now)
       case Rrep(_, _, _, _, _, _, _, _, _) => RecvReply(s, m, now)
       case Rerr(_, _) => RecvError(s, m)
       case Hello(_, _) => RecvHello(s, m, now)
       case Data(p, _) => RecvData(s, ReceptionCounted(p), true, now))
    case Originate(p, now) => RecvData(s, p, false, now)
    case LinkFailure(p, isData, nextHop, now) => LinkFailed(s, p, isData, nextHop, localRepair, now)
    case RouteTimer(now) => PurgeRoutes(s, s.rlist, now)
    case BroadcastTimer(now) => s.(bihead := IdPurge(s.bihead, now))
    case NeighborTimer(now) => NbPurge(s, s.nbhead, now)
    case HelloTimer(now) => SendHello(s)
    case RepairTimer(dst, now) => if localRepair then RepairTimeout(s, dst) else s
  }
}
