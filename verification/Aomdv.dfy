/** One AOMDV node as a value. */
module Aomdv {
  // Several paths per destination, and what each event turns them into. Built with
  // AOMDV_NODE_DISJOINT_PATHS and without link-layer detection.

  import opened Common
  import opened RouteQueue
  import opened OnDemand

  const MAX_RREQ_TIMEOUT := 1.0
  const MAX_SALVAGE_COUNT := 10

  datatype Flag = Down | Up

  datatype Path = Path(nexthop: Addr, hopcount: nat, expire: real, lasthop: Addr)

  /** The fields of aomdv_rt_entry; rt_dst is the key it is stored under. */
  datatype Entry = Entry(
    seqno: nat, advHops: Hops, lastHopCount: Hops, paths: seq<Path>, numPaths: int,
    highestHeard: nat, error: bool, flags: Flag, expire: real,
    reqTimeout: real, reqCnt: nat, reqLastTtl: nat)

  datatype BroadcastId = BroadcastId(src: Addr, id: nat, expire: real, count: nat)

  datatype Msg =
    | Rreq(saddr: Addr, ttl: int, hopCount: nat, bcastId: nat, dst: Addr, dstSeqno: nat,
           src: Addr, srcSeqno: nat, timestamp: real, firstHop: Addr)
    | Rrep(daddr: Addr, nextHop: Addr, ttl: int, hopCount: nat, dst: Addr, dstSeqno: nat,
           src: Addr, lifetime: real, timestamp: real, bcastId: nat, firstHop: Addr)
    | Rerr(saddr: Addr, unreachable: seq<Unreachable>)
    | Hello(dst: Addr, dstSeqno: nat, lifetime: real)
    | Data(packet: Packet, nextHop: Addr)

  type Table = map<Addr, Entry>

  /** maxPaths and lenDiff are the bound variables aomdv_max_paths_ and aomdv_prim_alt_path_len_diff_.
      outbox is everything the node has handed to the link layer so far. */
  datatype Node = Node(
    index: Addr, maxPaths: int, lenDiff: int, seqno: nat, bid: nat, rtable: Table, rlist: seq<Addr>,
    nbhead: seq<Neighbor>, bihead: seq<BroadcastId>, rqueue: seq<Buffered>, outbox: seq<Msg>)

  function NewNode(index: Addr, maxPaths: int, lenDiff: int): Node {
    Node(index, maxPaths, lenDiff, 2, 1, map[], [], [], [], [], [])
  }

  // ---------------------------------------------------------------- path lists

  /** The position of the first path through a next hop, or |ps| if there is none. */
  function PathLookup(ps: seq<Path>, nexthop: Addr): (i: nat)
    ensures i <= |ps|
    ensures i < |ps| ==> ps[i].nexthop == nexthop
    ensures forall k :: 0 <= k < i ==> ps[k].nexthop != nexthop
  {
    if ps == [] then 0 else if ps[0].nexthop == nexthop then 0 else 1 + PathLookup(ps[1..], nexthop)
  }

  function LasthopLookup(ps: seq<Path>, lasthop: Addr): (i: nat)
    ensures i <= |ps|
    ensures i < |ps| ==> ps[i].lasthop == lasthop
    ensures forall k :: 0 <= k < i ==> ps[k].lasthop != lasthop
  {
    if ps == [] then 0 else if ps[0].lasthop == lasthop then 0 else 1 + LasthopLookup(ps[1..], lasthop)
  }

  function DisjointLookup(ps: seq<Path>, nexthop: Addr, lasthop: Addr): (i: nat)
    ensures i <= |ps|
    ensures i < |ps| ==> ps[i].nexthop == nexthop && ps[i].lasthop == lasthop
    ensures forall k :: 0 <= k < i ==> !(ps[k].nexthop == nexthop && ps[k].lasthop == lasthop)
  {
    if ps == [] then 0
    else if ps[0].nexthop == nexthop && ps[0].lasthop == lasthop then 0
    else 1 + DisjointLookup(ps[1..], nexthop, lasthop)
  }

  predicate NewDisjoint(ps: seq<Path>, nexthop: Addr, lasthop: Addr) {
    forall k :: 0 <= k < |ps| ==> ps[k].nexthop != nexthop && ps[k].lasthop != lasthop
  }

  /** Removes the first path through a next hop. */
  function PathDelete(ps: seq<Path>, nexthop: Addr): seq<Path> {
    var i := PathLookup(ps, nexthop);
    if i < |ps| then ps[..i] + ps[i + 1..] else ps
  }

  /** The paths that have not expired, in their old order. */
  function PathPurge(ps: seq<Path>, now: real): (r: seq<Path>)
    ensures |r| <= |ps|
  {
    if ps == [] then []
    else if ps[0].expire < now then PathPurge(ps[1..], now)
    else [ps[0]] + PathPurge(ps[1..], now)
  }

  function MaxCount(ps: seq<Path>): (n: nat)
    ensures forall k :: 0 <= k < |ps| ==> ps[k].hopcount <= n
  {
    if ps == [] then 0 else Max(ps[0].hopcount, MaxCount(ps[1..]))
  }

  /** path_get_max_hopcount. */
  function MaxHopcount(ps: seq<Path>): Hops {
    if MaxCount(ps) == 0 then Infinite else Finite(MaxCount(ps))
  }

  /** path_get_min_hopcount. */
  function MinHopcount(ps: seq<Path>): Hops {
    if ps == [] then Infinite
    else if Fewer(MinHopcount(ps[1..]), Finite(ps[0].hopcount)) then MinHopcount(ps[1..])
    else Finite(ps[0].hopcount)
  }

  /** A path of this length differs too much from the shortest one. */
  predicate TooLong(ps: seq<Path>, hopcount: nat, lenDiff: int) {
    MinHopcount(ps).Finite? && hopcount - MinHopcount(ps).n > lenDiff
  }

  // ---------------------------------------------------------------- routing table

  const FRESH_ENTRY := Entry(0, Infinite, Infinite, [], 0, 0, false, Down, 0.0, 0.0, 0, 0)

  /** The entry for dst; a missing entry says the same as a newly added one. */
  function Ent(t: Table, dst: Addr): Entry {
    if dst in t then t[dst] else FRESH_ENTRY
  }

  /** Overwrites the entry for dst, adding it at the head of the list when it is missing. */
  function Store(s: Node, dst: Addr, e: Entry): Node {
    s.(rtable := s.rtable[dst := e], rlist := if dst in s.rtable then s.rlist else [dst] + s.rlist)
  }

  /** path_insert, at the end of the list. */
  function AddPath(e: Entry, p: Path): Entry {
    var e1 := e.(paths := e.paths + [p], numPaths := e.numPaths + 1);
    e1.(lastHopCount := MaxHopcount(e1.paths))
  }

  /** A newer number drops all paths and starts again with one. */
  function Renew(e: Entry, seqno: nat, p: Path): Entry {
    e.(seqno := seqno, advHops := Infinite, flags := Up, paths := [p], numPaths := 1,
       lastHopCount := MaxHopcount([p]))
  }

  function RtDown(e: Entry): Entry {
    if e.flags == Down then e
    else e.(flags := Down, advHops := Infinite, paths := [], numPaths := 0, expire := 0.0)
  }

  /** Fixes the hop count that the node tells others for this number. */
  function Advertise(e: Entry): Entry {
    if e.advHops == Infinite then e.(advHops := MaxHopcount(e.paths)) else e
  }

  function ResetSearch(e: Entry): Entry {
    e.(reqTimeout := 0.0, reqLastTtl := 0, reqCnt := 0)
  }

  // ---------------------------------------------------------------- broadcast ids

  /** The position of the cached id, or |b| if there is none. */
  function IdGet(b: seq<BroadcastId>, src: Addr, id: nat): (i: nat)
    ensures i <= |b|
    ensures i < |b| ==> b[i].src == src && b[i].id == id
  {
    if b == [] then 0 else if b[0].src == src && b[0].id == id then 0 else 1 + IdGet(b[1..], src, id)
  }

  predicate IdSeen(b: seq<BroadcastId>, src: Addr, id: nat) {
    IdGet(b, src, id) < |b|
  }

  function IdCount(b: seq<BroadcastId>, src: Addr, id: nat): nat {
    var i := IdGet(b, src, id);
    if i < |b| then b[i].count else 0
  }

  /** Marks a request as answered. */
  function IdMark(b: seq<BroadcastId>, src: Addr, id: nat): seq<BroadcastId> {
    var i := IdGet(b, src, id);
    if i < |b| then b[i := b[i].(count := 1)] else b
  }

  function IdPurge(b: seq<BroadcastId>, now: real): seq<BroadcastId> {
    if b == [] then []
    else if b[0].expire <= now then IdPurge(b[1..], now)
    else [b[0]] + IdPurge(b[1..], now)
  }

  // ---------------------------------------------------------------- sending

  function Send(s: Node, m: Msg): Node {
    s.(outbox := s.outbox + [m])
  }

  /** The entry after its first path has carried a packet. */
  function Used(e: Entry, byOther: bool, now: real): Entry {
    if e.paths == [] then e
    else e.(paths := [e.paths[0].(expire := now + ACTIVE_ROUTE_TIMEOUT)] + e.paths[1..], error := e.error || byOther)
  }

  function FirstNexthop(e: Entry): Addr {
    if e.paths == [] then 0 else e.paths[0].nexthop
  }

  function FirstLasthop(e: Entry): Addr {
    if e.paths == [] then 0 else e.paths[0].lasthop
  }

  /** forward() of a data packet along the first path to dst. */
  function ForwardData(s: Node, dst: Addr, p: Packet, now: real): Node {
    if p.ttl == 0 || p.daddr == s.index then s
    else
      var e := Ent(s.rtable, dst);
      Send(Store(s, dst, Used(e, p.saddr != s.index, now)), Data(p, FirstNexthop(e)))
  }

  /** Takes every buffered packet for dst out of the send buffer and forwards it. */
  function Flush(s: Node, dst: Addr, now: real): Node
    decreases |s.rqueue|
  {
    var q := Purge(s.rqueue, now);
    var i := FindDst(q, dst);
    if i == |q| then s.(rqueue := q)
    else Flush(ForwardData(s.(rqueue := RemoveAt(q, i)), dst, q[i].packet, now), dst, now)
  }

  function Ring(e: Entry): Hops {
    MaxHops(Finite(e.reqLastTtl), e.lastHopCount)
  }

  predicate NetworkWide(e: Entry) {
    Ring(e).Infinite? || Ring(e).n >= TTL_THRESHOLD
  }

  function RequestTtl(e: Entry): nat {
    if Ring(e) == Finite(0) then TTL_START
    else if NetworkWide(e) then NETWORK_DIAMETER
    else Ring(e).n + TTL_INCREMENT
  }

  /** The entry after a route request for it has gone out; no latency samples are ever taken. */
  function Requested(e: Entry, now: real): Entry {
    var cnt := if NetworkWide(e) then e.reqCnt + 1 else e.reqCnt;
    var wait := Backoff(RequestTtl(e), NODE_TRAVERSAL_TIME, cnt);
    e.(reqLastTtl := RequestTtl(e), reqCnt := cnt, expire := 0.0,
       reqTimeout := now + if wait > MAX_RREQ_TIMEOUT then MAX_RREQ_TIMEOUT else wait)
  }

  function SendRequest(s: Node, dst: Addr, now: real): Node {
    var e := Ent(s.rtable, dst);
    if e.flags == Up || e.reqTimeout > now then s
    else if e.reqCnt > RREQ_RETRIES then
      Store(s, dst, e.(reqTimeout := now + MAX_RREQ_TIMEOUT, reqCnt := 0))
      .(rqueue := Without(Purge(s.rqueue, now), dst))
    else
      var s1 := Store(s, dst, Requested(e, now)).(bid := s.bid + 1, seqno := s.seqno + 2);
      Send(s1, Rreq(s.index, RequestTtl(e), 0, s.bid, dst, e.seqno, s.index, s1.seqno, now, 0))
  }

  // ---------------------------------------------------------------- reception of requests

  /** How the path offered by a message fits in: the entry afterwards, whether the path is now among
      its paths, and whether the message is to be dropped. */
  datatype Offer = Offer(e: Entry, kept: bool, drop: bool)

  function ProlongPath(e: Entry, i: nat, until: real): Entry
    requires i < |e.paths|
  {
    e.(paths := e.paths[i := e.paths[i].(expire := MaxReal(e.paths[i].expire, until))])
  }

  /** The reverse path offered by a request; forMe tells whether the request asks for this node. */
  function ReverseOffer(e: Entry, maxPaths: int, lenDiff: int, seqno: nat, hopCount: nat,
                        p: Path, forMe: bool): Offer {
    if e.seqno < seqno then Offer(Renew(e, seqno, p), true, false)
    else if e.seqno == seqno && Fewer(Finite(hopCount), e.advHops) then
      var i := DisjointLookup(e.paths, p.nexthop, p.lasthop);
      if i < |e.paths| then Offer(ProlongPath(e, i, p.expire), true, false)
      else if NewDisjoint(e.paths, p.nexthop, p.lasthop) then
        var add := e.numPaths < maxPaths && !TooLong(e.paths, p.hopcount, lenDiff);
        var e1 := if add then AddPath(e, p) else e;
        Offer(e1, add, TooLong(e1.paths, p.hopcount, lenDiff))
      else
        var j := LasthopLookup(e.paths, p.lasthop);
        Offer(e, false, forMe && (j == |e.paths| || p.hopcount > e.paths[j].hopcount))
    else Offer(e, false, true)
  }

  /** A request that passes nobody yet starts its path at the node that hears it first. */
  function FirstHop(s: Node, m: Msg): Addr
    requires m.Rreq?
  {
    if m.hopCount == 0 then s.index else m.firstHop
  }

  function OfferOf(s: Node, m: Msg, now: real): Offer
    requires m.Rreq?
  {
    ReverseOffer(Ent(s.rtable, m.src), s.maxPaths, s.lenDiff, m.srcSeqno, m.hopCount,
                 Path(m.saddr, m.hopCount + 1, now + REV_ROUTE_LIFE, FirstHop(s, m)), m.dst == s.index)
  }

  function Remember(s: Node, m: Msg, now: real): Node
    requires m.Rreq?
  {
    if IdSeen(s.bihead, m.src, m.bcastId) then s
    else s.(bihead := [BroadcastId(m.src, m.bcastId, now + BCAST_ID_SAVE, 0)] + s.bihead)
  }

  function RecvRequest(s: Node, m: Msg, now: real): Node
    requires m.Rreq?
  {
    if m.src == s.index then s
    else
      var s1 := Remember(s, m, now);
      var o := OfferOf(s1, m, now);
      if o.drop then Store(s1, m.src, o.e)
      else
        var s2 := Flush(Store(s1, m.src, ResetSearch(o.e)), m.src, now);
        Answer(s2, m, o.kept, IdSeen(s.bihead, m.src, m.bcastId), now)
  }

  /** The own number of a destination that answers a request asking for at least wanted. */
  function AnswerSeqno(own: nat, wanted: nat): nat {
    var next := if own < wanted then wanted + 1 else own;
    if next % 2 == 1 then next + 1 else next
  }

  function OwnAnswer(s: Node, m: Msg): Node
    requires m.Rreq?
  {
    var s1 := s.(seqno := AnswerSeqno(s.seqno, m.dstSeqno));
    Send(s1, Rrep(m.src, m.saddr, NETWORK_DIAMETER, 0, s.index, s1.seqno, s.index, MY_ROUTE_TIMEOUT,
                  m.timestamp, m.bcastId, m.saddr))
  }

  predicate CanAnswer(t: Table, m: Msg)
    requires m.Rreq?
  {
    m.dst in t && t[m.dst].flags == Up && t[m.dst].seqno >= m.dstSeqno
  }

  /** A node on the way answers once per request, with the hop count it advertises. */
  function TableAnswer(s: Node, m: Msg, now: real): Node
    requires m.Rreq?
  {
    var rt := Advertise(Ent(s.rtable, m.dst)).(error := true);
    var s1 := Store(s, m.dst, rt).(bihead := IdMark(s.bihead, m.src, m.bcastId));
    var lifetime := if rt.paths == [] then 0.0 else rt.paths[0].expire - now;
    var hops := if rt.advHops.Finite? then rt.advHops.n else 0;
    Send(s1, Rrep(m.src, m.saddr, NETWORK_DIAMETER, hops, m.dst, rt.seqno, s.index, lifetime,
                  m.timestamp, m.bcastId, FirstLasthop(rt)))
  }

  /** A node that cannot answer passes the request on with its own advertised hop count. */
  function PassOn(s: Node, m: Msg): Node
    requires m.Rreq?
  {
    var rt0 := Advertise(Ent(s.rtable, m.src));
    var s1 := Store(s, m.src, rt0);
    var hops := if rt0.advHops.Finite? then rt0.advHops.n else 0;
    if m.ttl - 1 == 0 then s1
    else
      Send(s1, Rreq(s.index, m.ttl - 1, hops, m.bcastId, m.dst,
                    if m.dst in s.rtable then Max(s.rtable[m.dst].seqno, m.dstSeqno) else m.dstSeqno,
                    m.src, m.srcSeqno, m.timestamp, FirstLasthop(rt0)))
  }

  function Answer(s: Node, m: Msg, haveReverse: bool, seen: bool, now: real): Node
    requires m.Rreq?
  {
    if m.dst == s.index then OwnAnswer(s, m)
    else if CanAnswer(s.rtable, m) then
      if haveReverse && IdCount(s.bihead, m.src, m.bcastId) == 0 then TableAnswer(s, m, now) else s
    else if seen then s
    else PassOn(s, m)
  }

  // ---------------------------------------------------------------- reception of replies

  function ForwardOffer(e: Entry, maxPaths: int, lenDiff: int, seqno: nat, hopCount: nat, p: Path): Offer {
    if e.seqno < seqno then Offer(Renew(e, seqno, p), true, false)
    else if e.seqno == seqno && Fewer(Finite(hopCount), e.advHops) then
      var i := DisjointLookup(e.paths, p.nexthop, p.lasthop);
      if i < |e.paths| then Offer(ProlongPath(e, i, p.expire), true, false)
      else if NewDisjoint(e.paths, p.nexthop, p.lasthop) && e.numPaths < maxPaths
              && !TooLong(e.paths, p.hopcount, lenDiff)
      then Offer(AddPath(e, p), true, false)
      else Offer(e, false, true)
    else Offer(e, false, true)
  }

  function ReplyOffer(s: Node, m: Msg, now: real): Offer
    requires m.Rrep?
  {
    ForwardOffer(Ent(s.rtable, m.dst), s.maxPaths, s.lenDiff, m.dstSeqno, m.hopCount,
                 Path(m.src, m.hopCount + 1, now + m.lifetime, m.firstHop))
  }

  function RecvReply(s: Node, m: Msg, now: real): Node
    requires m.Rrep?
  {
    if m.dst == s.index then s
    else
      var o := ReplyOffer(s, m, now);
      if o.drop then Store(s, m.dst, o.e)
      else
        var s1 := Flush(Store(s, m.dst, ResetSearch(o.e)), m.dst, now);
        if m.daddr == s.index then s1 else ForwardReply(s1, m, now)
  }

  predicate CanForward(s: Node, m: Msg)
    requires m.Rrep?
  {
    && m.daddr in s.rtable && s.rtable[m.daddr].flags == Up
    && IdSeen(s.bihead, m.daddr, m.bcastId) && IdCount(s.bihead, m.daddr, m.bcastId) == 0
  }

  /** Passes a reply on towards the source of its request, once per request, with the own advertised hop count. */
  function ForwardReply(s: Node, m: Msg, now: real): Node
    requires m.Rrep?
  {
    if !CanForward(s, m) then s
    else
      var rt := Advertise(Ent(s.rtable, m.dst)).(error := true);
      var s1 := Store(s, m.dst, rt).(bihead := IdMark(s.bihead, m.daddr, m.bcastId));
      var rt0 := Used(Ent(s1.rtable, m.daddr), false, now);
      var s2 := Store(s1, m.daddr, rt0);
      var hops := if rt.advHops.Finite? then rt.advHops.n else 0;
      if m.ttl - 1 == 0 then s2
      else
        Send(s2, Rrep(m.daddr, FirstNexthop(rt0), m.ttl - 1, hops, m.dst, m.dstSeqno, s.index, m.lifetime,
                      m.timestamp, m.bcastId, FirstLasthop(Ent(s2.rtable, m.dst))))
  }

  // ---------------------------------------------------------------- errors, neighbours, link failures

  predicate Breaks(e: Entry, u: Unreachable, from: Addr) {
    e.flags == Up && PathLookup(e.paths, from) < |e.paths| && e.seqno <= u.seqno
  }

  /** An entry without the path through a failed neighbour. */
  function CutPath(e: Entry, id: Addr): Entry {
    e.(paths := PathDelete(e.paths, id), numPaths := e.numPaths - 1)
  }

  function BrokenEntry(e: Entry, u: Unreachable, from: Addr): Entry {
    var e1 := CutPath(e, from).(highestHeard := Max(e.highestHeard, u.seqno));
    if e1.paths != [] then e1
    else RtDown(e1.(seqno := e1.highestHeard)).(error := false)
  }

  function BreakRoute(t: Table, u: Unreachable, from: Addr): Table {
    if u.dst in t && Breaks(t[u.dst], u, from) then t[u.dst := BrokenEntry(t[u.dst], u, from)] else t
  }

  function AfterErrors(t: Table, us: seq<Unreachable>, from: Addr): Table {
    if us == [] then t else AfterErrors(BreakRoute(t, us[0], from), us[1..], from)
  }

  /** Reported in turn: a route that lost its last path and that others may be using. */
  function ReportItem(t: Table, u: Unreachable, from: Addr): seq<Unreachable> {
    if u.dst in t && Breaks(t[u.dst], u, from) && t[u.dst].error && BrokenEntry(t[u.dst], u, from).paths == []
    then [Unreachable(u.dst, BrokenEntry(t[u.dst], u, from).seqno)] else []
  }

  function ErrorReport(t: Table, us: seq<Unreachable>, from: Addr): seq<Unreachable> {
    if us == [] then []
    else ReportItem(t, us[0], from) + ErrorReport(BreakRoute(t, us[0], from), us[1..], from)
  }

  function SendError(s: Node, us: seq<Unreachable>): Node {
    if us == [] then s else Send(s, Rerr(s.index, us))
  }

  function RecvError(s: Node, m: Msg): Node
    requires m.Rerr?
  {
    SendError(s.(rtable := AfterErrors(s.rtable, m.unreachable, m.saddr)),
              ErrorReport(s.rtable, m.unreachable, m.saddr))
  }

  /** A hello doubles as a reply for the neighbour itself. */
  function HelloAsReply(s: Node, m: Msg): Msg
    requires m.Hello?
  {
    Rrep(s.index, 0, 0, 0, m.dst, m.dstSeqno, m.dst, m.lifetime, 0.0, 0, s.index)
  }

  function RecvHello(s: Node, m: Msg, now: real): Node
    requires m.Hello?
  {
    var i := NbLookup(s.nbhead, m.dst);
    var nb := if i == |s.nbhead| then [Neighbor(m.dst, now + HELLO_INTERVAL * ALLOWED_HELLO_LOSS)] + s.nbhead
              else s.nbhead[i := s.nbhead[i].(expire := now + 1.5 * ALLOWED_HELLO_LOSS * HELLO_INTERVAL)];
    RecvReply(s.(nbhead := nb), HelloAsReply(s, m), now)
  }

  predicate Fails(e: Entry, id: Addr) {
    e.flags == Up && PathLookup(e.paths, id) < |e.paths|
  }

  function FailEntry(e: Entry, id: Addr): Entry {
    if !Fails(e, id) then e
    else
      var e1 := CutPath(e, id);
      if e1.paths != [] then e1
      else RtDown(e1.(seqno := Max(e1.seqno + 1, e1.highestHeard))).(error := false)
  }

  function FailTable(t: Table, id: Addr): Table {
    map d | d in t :: FailEntry(t[d], id)
  }

  function FailItem(t: Table, d: Addr, id: Addr): seq<Unreachable> {
    if d in t && Fails(t[d], id) && t[d].error && FailEntry(t[d], id).paths == []
    then [Unreachable(d, FailEntry(t[d], id).seqno)] else []
  }

  /** The routes of list l that lose their last path with neighbour id and that others may be using. */
  function FailReport(t: Table, l: seq<Addr>, id: Addr): seq<Unreachable> {
    if l == [] then [] else FailItem(t, l[0], id) + FailReport(t, l[1..], id)
  }

  function HandleLinkFailure(s: Node, id: Addr): Node {
    SendError(s.(rtable := FailTable(s.rtable, id)), FailReport(s.rtable, s.rlist, id))
  }

  /** A packet that waits in the interface queue on its way to nexthop, and how often it has been salvaged. */
  datatype Queued = Queued(p: Packet, nexthop: Addr, isData: bool, salvaged: nat)

  /** A packet for a lost neighbour takes another path to its destination, if there is one. */
  function Salvage(s: Node, x: Queued, now: real): Node {
    if x.isData && x.p.daddr in s.rtable && s.rtable[x.p.daddr].flags == Up && x.salvaged < MAX_SALVAGE_COUNT
    then ForwardData(s, x.p.daddr, x.p, now)
    else s
  }

  /** All packets for id in the interface queue, one after the other. */
  function SalvageAll(s: Node, ifq: seq<Queued>, id: Addr, now: real): Node
    decreases |ifq|
  {
    if ifq == [] then s
    else SalvageAll(if ifq[0].nexthop == id then Salvage(s, ifq[0], now) else s, ifq[1..], id, now)
  }

  /** The interface queue without the packets for id. */
  function Elsewhere(ifq: seq<Queued>, id: Addr): seq<Queued> {
    if ifq == [] then []
    else if ifq[0].nexthop == id then Elsewhere(ifq[1..], id)
    else [ifq[0]] + Elsewhere(ifq[1..], id)
  }

  function NbDelete(s: Node, id: Addr, ifq: seq<Queued>, now: real): Node {
    SalvageAll(HandleLinkFailure(s.(seqno := s.seqno + 2, nbhead := NbRemove(s.nbhead, id)), id), ifq, id, now)
  }

  function NbPurge(s: Node, nb: seq<Neighbor>, ifq: seq<Queued>, now: real): Node
    decreases |nb|
  {
    if nb == [] then s
    else if nb[0].expire <= now
    then NbPurge(NbDelete(s, nb[0].addr, ifq, now), nb[1..], Elsewhere(ifq, nb[0].addr), now)
    else NbPurge(s, nb[1..], ifq, now)
  }

  predicate HasActiveRoute(s: Node) {
    exists d :: d in s.rtable && s.rtable[d].flags == Up
  }

  /** The hello timer: silent while the node has no route. */
  function SayHello(s: Node): Node {
    if HasActiveRoute(s) then Send(s, Hello(s.index, s.seqno, (1.0 + ALLOWED_HELLO_LOSS) * HELLO_INTERVAL)) else s
  }

  // ---------------------------------------------------------------- data packets and route expiry

  function Resolve(s: Node, p: Packet, now: real): Node {
    var e := Ent(s.rtable, p.daddr);
    var s1 := Store(s, p.daddr, e);
    if e.flags == Up then ForwardData(s1, p.daddr, p, now)
    else if p.saddr == s.index then SendRequest(s1.(rqueue := Enque(s1.rqueue, p, now)), p.daddr, now)
    else Send(s1, Rerr(s.index, [Unreachable(p.daddr, e.seqno)]))
  }

  /** forward() of a broadcast packet; one that has come up from the network goes to the agents of this node. */
  function ForwardBroadcast(s: Node, p: Packet, up: bool): Node {
    if p.ttl == 0 || up then s else Send(s, Data(p, IP_BROADCAST))
  }

  /** recv() of a data packet, from the node's own agents or, up, from a neighbour. */
  function RecvData(s: Node, p: Packet, up: bool, now: real): Node {
    if p.saddr == s.index && p.numForwards == 0 then
      if p.daddr != IP_BROADCAST then Resolve(s, p.(ttl := NETWORK_DIAMETER), now) else ForwardBroadcast(s, p, up)
    else if p.saddr == s.index || p.ttl - 1 == 0 then s
    else if p.daddr != IP_BROADCAST then Resolve(s, p.(ttl := p.ttl - 1), now)
    else ForwardBroadcast(s, p.(ttl := p.ttl - 1), up)
  }

  /** The number of a route whose last path has expired. */
  function ExpiredSeqno(e: Entry): nat {
    var q := Max(e.seqno + 1, e.highestHeard);
    if q % 2 == 0 then q + 1 else q
  }

  /** An entry without its expired paths. */
  function Purged(e: Entry, now: real): Entry {
    var ps := PathPurge(e.paths, now);
    e.(paths := ps, numPaths := e.numPaths - (|e.paths| - |ps|))
  }

  /** rt_purge on the entry for dst. */
  function PurgeRoute(s: Node, dst: Addr, now: real): Node {
    var e := Ent(s.rtable, dst);
    if e.flags == Up && e.expire < now then
      var e1 := Purged(e, now);
      if e1.paths != [] then Store(s, dst, e1)
      else Store(s, dst, RtDown(e1.(seqno := ExpiredSeqno(e1)))).(rqueue := Without(Purge(s.rqueue, now), dst))
    else if e.flags == Up then Flush(s, dst, now)
    else if Find(s.rqueue, dst) then SendRequest(s, dst, now)
    else s
  }

  function PurgeRoutes(s: Node, l: seq<Addr>, now: real): Node
    decreases |l|
  {
    if l == [] then s else PurgeRoutes(PurgeRoute(s, l[0], now), l[1..], now)
  }

  // ---------------------------------------------------------------- events

  datatype Event =
    | Deliver(m: Msg, now: real)
    | Originate(p: Packet, now: real)
    | RouteTimer(now: real)
    | BroadcastTimer(now: real)
    | NeighborTimer(ifq: seq<Queued>, now: real)
    | HelloTimer(now: real)

  function Handle(s: Node, ev: Event): Node {
    match ev
    case Deliver(m, now) =>
      (match m
       case Rreq(_, _, _, _, _, _, _, _, _, _) => RecvRequest(s, m, now)
       case Rrep(_, _, _, _, _, _, _, _, _, _, _) => RecvReply(s, m, now)
       case Rerr(_, _) => RecvError(s, m)
       case Hello(_, _, _) => RecvHello(s, m, now)
       case Data(p, _) => RecvData(s, ReceptionCounted(p), true, now))
    case Originate(p, now) => RecvData(s, p, false, now)
    case RouteTimer(now) => PurgeRoutes(s, s.rlist, now)
    case BroadcastTimer(now) => s.(bihead := IdPurge(s.bihead, now))
    case NeighborTimer(ifq, now) => NbPurge(s, s.nbhead, ifq, now)
    case HelloTimer(now) => SayHello(s)
  }
}
