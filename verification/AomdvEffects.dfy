/** What AOMDV messages do. */
module AomdvEffects {
  // What each routing message does to a node, told by the paths and the buffer it had before.

  import opened Common
  import opened RouteQueue
  import opened OnDemand
  import opened Aomdv
  import opened AomdvSteps

  // ---------------------------------------------------------------- offered paths

  /** The list has a path with these two hops. */
  ghost predicate Listed(ps: seq<Path>, p: Path) {
    exists k: nat :: k < |ps| && ps[k].nexthop == p.nexthop && ps[k].lasthop == p.lasthop
  }

  ghost predicate SharesHop(ps: seq<Path>, p: Path) {
    exists k: nat :: k < |ps| && (ps[k].nexthop == p.nexthop || ps[k].lasthop == p.lasthop)
  }

  /** Some path of the list is more than lenDiff hops shorter. */
  ghost predicate MuchLonger(ps: seq<Path>, p: Path, lenDiff: int) {
    exists k: nat :: k < |ps| && p.hopcount - ps[k].hopcount > lenDiff
  }

  /** There is room for one more path, this one shares no hop with the others, and it is not too long. */
  ghost predicate Fits(ps: seq<Path>, p: Path, maxPaths: int, lenDiff: int) {
    |ps| < maxPaths && !SharesHop(ps, p) && !MuchLonger(ps, p, lenDiff)
  }

  /** The offer is for the number of the entry and beats the hop count that it advertises. */
  predicate Current(e: Entry, seqno: nat, hopCount: nat) {
    seqno == e.seqno && (e.advHops.Infinite? || hopCount < e.advHops.n)
  }

  /** ps' is ps with the first path like p kept until p expires, if p lasts longer. */
  ghost predicate Prolonged(ps: seq<Path>, p: Path, ps': seq<Path>) {
    |ps'| == |ps| && exists k: nat ::
      && k < |ps| && ps[k].nexthop == p.nexthop && ps[k].lasthop == p.lasthop
      && (forall i: nat :: i < k ==> ps[i].nexthop != p.nexthop || ps[i].lasthop != p.lasthop)
      && ps' == ps[k := ps[k].(expire := if p.expire > ps[k].expire then p.expire else ps[k].expire)]
  }

  /** What an offer with the number of the entry does to it: a known path is kept longer, a fitting one is put
      behind the others, and any other leaves the entry alone. */
  ghost predicate TakesIn(e: Entry, p: Path, maxPaths: int, lenDiff: int, e': Entry) {
    if Listed(e.paths, p) then e' == e.(paths := e'.paths) && Prolonged(e.paths, p, e'.paths)
    else if Fits(e.paths, p, maxPaths, lenDiff) then
      e' == e.(paths := e.paths + [p], numPaths := |e.paths| + 1, lastHopCount := MaxHopcount(e.paths + [p]))
    else e' == e
  }

  /** A newer number leaves exactly the offered path, and nothing advertised. */
  ghost predicate StartsAgain(e: Entry, seqno: nat, p: Path, e': Entry) {
    e' == e.(seqno := seqno, advHops := Infinite, flags := Up, paths := [p], numPaths := 1,
             lastHopCount := if p.hopcount == 0 then Infinite else Finite(p.hopcount))
  }

  lemma {:induction false} TooLongMeans(ps: seq<Path>, p: Path, lenDiff: int)
    ensures TooLong(ps, p.hopcount, lenDiff) <==> MuchLonger(ps, p, lenDiff)
    ensures MinHopcount(ps).Infinite? <==> ps == []
  {
    if ps != [] {
      TooLongMeans(ps[1..], p, lenDiff);
      if MuchLonger(ps[1..], p, lenDiff) {
        var k: nat :| k < |ps[1..]| && p.hopcount - ps[1..][k].hopcount > lenDiff;
        assert ps[k + 1] == ps[1..][k];
      }
      if MuchLonger(ps, p, lenDiff) && p.hopcount - ps[0].hopcount <= lenDiff {
        var k: nat :| k < |ps| && p.hopcount - ps[k].hopcount > lenDiff;
        assert ps[1..][k - 1] == ps[k];
      }
    }
  }

  lemma FirstListed(ps: seq<Path>, p: Path)
    ensures DisjointLookup(ps, p.nexthop, p.lasthop) < |ps| <==> Listed(ps, p)
    ensures NewDisjoint(ps, p.nexthop, p.lasthop) <==> !SharesHop(ps, p)
    ensures Listed(ps, p) ==> SharesHop(ps, p)
  {
  }

  lemma KeptIsListed(e: Entry, p: Path, maxPaths: int, lenDiff: int, e': Entry)
    requires TakesIn(e, p, maxPaths, lenDiff, e')
    ensures Listed(e'.paths, p) <==> Listed(e.paths, p) || Fits(e.paths, p, maxPaths, lenDiff)
  {
    if Listed(e.paths, p) {
      var k: nat :| k < |e.paths| && e.paths[k].nexthop == p.nexthop && e.paths[k].lasthop == p.lasthop;
      assert e'.paths[k].nexthop == p.nexthop && e'.paths[k].lasthop == p.lasthop;
    } else if Fits(e.paths, p, maxPaths, lenDiff) {
      assert e'.paths[|e.paths|] == p;
    }
  }

  lemma ProlongsFirst(e: Entry, p: Path)
    requires Listed(e.paths, p)
    ensures DisjointLookup(e.paths, p.nexthop, p.lasthop) < |e.paths|
    ensures var e' := ProlongPath(e, DisjointLookup(e.paths, p.nexthop, p.lasthop), p.expire);
            e' == e.(paths := e'.paths) && Prolonged(e.paths, p, e'.paths)
  {
    FirstListed(e.paths, p);
    var k := DisjointLookup(e.paths, p.nexthop, p.lasthop);
    assert e.paths[k].nexthop == p.nexthop && e.paths[k].lasthop == p.lasthop;
  }

  lemma OnePath(p: Path)
    ensures MaxHopcount([p]) == if p.hopcount == 0 then Infinite else Finite(p.hopcount)
  {
    assert [p][1..] == [];
    assert MaxCount([p]) == Max(p.hopcount, MaxCount([p][1..]));
  }

  /** The forward path that a reply offers: taken in if it is listed already or fits, dropped if it is not listed
      afterwards. */
  lemma ForwardOfferTakesIn(e: Entry, maxPaths: int, lenDiff: int, seqno: nat, hopCount: nat, p: Path)
    requires e.numPaths == |e.paths|
    ensures var o := ForwardOffer(e, maxPaths, lenDiff, seqno, hopCount, p);
            if seqno > e.seqno then StartsAgain(e, seqno, p, o.e) && !o.drop
            else if Current(e, seqno, hopCount) then
              TakesIn(e, p, maxPaths, lenDiff, o.e) && (o.drop <==> !Listed(o.e.paths, p))
            else o.e == e && o.drop
  {
    var o := ForwardOffer(e, maxPaths, lenDiff, seqno, hopCount, p);
    OnePath(p);
    if seqno <= e.seqno && Current(e, seqno, hopCount) {
      FirstListed(e.paths, p);
      TooLongMeans(e.paths, p, lenDiff);
      if Listed(e.paths, p) { ProlongsFirst(e, p); }
      KeptIsListed(e, p, maxPaths, lenDiff, o.e);
    }
  }

  /** Every path with the last hop of p is shorter. */
  ghost predicate LongestToLasthop(ps: seq<Path>, p: Path) {
    forall k: nat :: k < |ps| && ps[k].lasthop == p.lasthop ==> ps[k].hopcount < p.hopcount
  }

  /** The reverse path that a request offers is taken in alike; kept tells whether it is listed afterwards. A request
      for this node is not dropped for a path that shares a hop unless the path is longer than those with its last
      hop; and one that offers a path which shares none is dropped exactly when the path is too long. */
  lemma ReverseOfferTakesIn(e: Entry, maxPaths: int, lenDiff: int, seqno: nat, hopCount: nat, p: Path, forMe: bool)
    requires e.numPaths == |e.paths| && Disjoint(e.paths)
    ensures var o := ReverseOffer(e, maxPaths, lenDiff, seqno, hopCount, p, forMe);
            if seqno > e.seqno then StartsAgain(e, seqno, p, o.e) && o.kept && !o.drop
            else if Current(e, seqno, hopCount) then
              && TakesIn(e, p, maxPaths, lenDiff, o.e) && (o.kept <==> Listed(o.e.paths, p))
              && (o.drop <==>
                    if Listed(e.paths, p) then false
                    else if SharesHop(e.paths, p) then forMe && LongestToLasthop(e.paths, p)
                    else MuchLonger(o.e.paths, p, lenDiff))
            else o.e == e && !o.kept && o.drop
  {
    var o := ReverseOffer(e, maxPaths, lenDiff, seqno, hopCount, p, forMe);
    OnePath(p);
    if seqno <= e.seqno && Current(e, seqno, hopCount) {
      FirstListed(e.paths, p);
      TooLongMeans(e.paths, p, lenDiff);
      if Listed(e.paths, p) { ProlongsFirst(e, p); }
      KeptIsListed(e, p, maxPaths, lenDiff, o.e);
      TooLongMeans(o.e.paths, p, lenDiff);
      OneToLasthop(e.paths, p);
    }
  }

  lemma OneToLasthop(ps: seq<Path>, p: Path)
    requires Disjoint(ps)
    ensures var j := LasthopLookup(ps, p.lasthop);
            j == |ps| || p.hopcount > ps[j].hopcount <==> LongestToLasthop(ps, p)
  {
    var j := LasthopLookup(ps, p.lasthop);
    if j < |ps| {
      assert forall k: nat :: k < |ps| && ps[k].lasthop == p.lasthop ==> k == j;
    }
  }

  /** All old paths keep their places when a current offer is taken in, and at most one joins them at the end. */
  lemma OldPathsStay(e: Entry, p: Path, maxPaths: int, lenDiff: int, e': Entry)
    requires TakesIn(e, p, maxPaths, lenDiff, e')
    ensures |e.paths| <= |e'.paths| <= |e.paths| + 1
    ensures forall k :: 0 <= k < |e.paths| ==>
              && e'.paths[k] == e.paths[k].(expire := e'.paths[k].expire)
              && e'.paths[k].expire >= e.paths[k].expire
    ensures |e'.paths| == |e.paths| + 1 ==> e'.paths[|e.paths|] == p
    ensures Listed(e'.paths, p) <==> Listed(e.paths, p) || Fits(e.paths, p, maxPaths, lenDiff)
  {
    KeptIsListed(e, p, maxPaths, lenDiff, e');
  }

  // ---------------------------------------------------------------- the send buffer

  /** Packets on their way through one next hop. */
  function AsData(ps: seq<Packet>, via: Addr): seq<Msg> {
    if ps == [] then [] else [Data(ps[0], via)] + AsData(ps[1..], via)
  }

  predicate SameRest(s: Node, s': Node) {
    && s'.index == s.index && s'.maxPaths == s.maxPaths && s'.lenDiff == s.lenDiff && s'.seqno == s.seqno
    && s'.bid == s.bid && s'.nbhead == s.nbhead && s'.bihead == s.bihead
  }

  /** An entry after these packets have gone along its first path. */
  ghost predicate Carrying(e: Entry, ps: seq<Packet>, index: Addr, now: real, e': Entry) {
    if ps == [] || e.paths == [] then e' == e
    else
      && e' == e.(paths := [e.paths[0].(expire := now + 10.0)] + e.paths[1..], error := e'.error)
      && (e'.error <==> e.error || exists k: nat :: k < |ps| && ps[k].saddr != index)
  }

  lemma CarryingMore(e: Entry, p: Packet, ps: seq<Packet>, index: Addr, now: real, e1: Entry, e': Entry)
    requires Carrying(e, [p], index, now, e1) && Carrying(e1, ps, index, now, e')
    ensures Carrying(e, [p] + ps, index, now, e')
  {
    var all := [p] + ps;
    assert all[0] == p && forall k: nat :: k < |ps| ==> all[k + 1] == ps[k];
    if exists k: nat :: k < |all| && all[k].saddr != index {
      var k: nat :| k < |all| && all[k].saddr != index;
      assert k > 0 ==> ps[k - 1] == all[k];
    }
  }

  /** One packet goes on its way along the first path to dst. */
  lemma ForwardEffect(s: Node, dst: Addr, p: Packet, now: real)
    ensures var s', goes := ForwardData(s, dst, p, now), p.ttl != 0 && p.daddr != s.index;
            && SameRest(s, s') && s'.rqueue == s.rqueue
            && s'.outbox == s.outbox + (if goes then [Data(p, FirstNexthop(Ent(s.rtable, dst)))] else [])
            && Carrying(Ent(s.rtable, dst), if goes then [p] else [], s.index, now, Ent(s'.rtable, dst))
            && forall d {:trigger Ent(s'.rtable, d)} :: d != dst ==> Ent(s'.rtable, d) == Ent(s.rtable, d)
  {
    assert [p][0] == p;
  }

  lemma FirstSent(q: seq<Buffered>, dst: Addr, via: Addr, index: Addr, now: real)
    requires Live(q, now) && Find(q, dst)
    ensures var i := FindDst(q, dst);
            var p, r := q[i].packet, Leaving(RemoveAt(q, i), dst, index, now);
            && AsData(Leaving(q, dst, index, now), via)
               == (if p.ttl != 0 && dst != index then [Data(p, via)] else []) + AsData(r, via)
            && Left(q, dst, now) == Left(RemoveAt(q, i), dst, now)
  {
    FirstLeaving(q, dst, index, now);
    var p, rest := q[FindDst(q, dst)].packet, Leaving(RemoveAt(q, FindDst(q, dst)), dst, index, now);
    assert ([p] + rest)[1..] == rest;
    assert [] + rest == rest;
  }

  /** What flushing does to everything but the table. */
  lemma {:induction false} FlushSends(s: Node, dst: Addr, now: real)
    ensures var s' := Flush(s, dst, now);
            && SameRest(s, s') && s'.rqueue == Left(s.rqueue, dst, now)
            && s'.outbox == s.outbox + AsData(Leaving(s.rqueue, dst, s.index, now), FirstNexthop(Ent(s.rtable, dst)))
    decreases |s.rqueue|
  {
    var q := Purge(s.rqueue, now);
    var via := FirstNexthop(Ent(s.rtable, dst));
    PurgeKeepsLive(s.rqueue, now);
    PurgeLeaving(s.rqueue, dst, s.index, now);
    var i := FindDst(q, dst);
    if i == |q| {
      NoneLeaving(q, dst, s.index, now);
    } else {
      FirstSent(q, dst, via, s.index, now);
      var s0 := s.(rqueue := RemoveAt(q, i));
      var s1 := ForwardData(s0, dst, q[i].packet, now);
      ForwardEffect(s0, dst, q[i].packet, now);
      assert FirstNexthop(Ent(s1.rtable, dst)) == via;
      FlushSends(s1, dst, now);
      Concatenation(s.outbox, if q[i].packet.ttl == 0 || dst == s.index then [] else [Data(q[i].packet, via)],
                    AsData(Leaving(s0.rqueue, dst, s.index, now), via));
    }
  }

  /** What flushing does to the table. */
  lemma {:induction false} FlushCarries(s: Node, dst: Addr, now: real)
    ensures var s' := Flush(s, dst, now);
            && Carrying(Ent(s.rtable, dst), Leaving(s.rqueue, dst, s.index, now), s.index, now, Ent(s'.rtable, dst))
            && forall d {:trigger Ent(s'.rtable, d)} :: d != dst ==> Ent(s'.rtable, d) == Ent(s.rtable, d)
    decreases |s.rqueue|
  {
    var q := Purge(s.rqueue, now);
    PurgeKeepsLive(s.rqueue, now);
    PurgeLeaving(s.rqueue, dst, s.index, now);
    var i := FindDst(q, dst);
    if i == |q| {
      NoneLeaving(q, dst, s.index, now);
    } else {
      FirstLeaving(q, dst, s.index, now);
      var p, s0 := q[i].packet, s.(rqueue := RemoveAt(q, i));
      var s1 := ForwardData(s0, dst, p, now);
      ForwardEffect(s0, dst, p, now);
      FlushCarries(s1, dst, now);
      var rest := Leaving(s0.rqueue, dst, s.index, now);
      assert [] + rest == rest;
      if p.ttl != 0 && dst != s.index {
        CarryingMore(Ent(s.rtable, dst), p, rest, s.index, now, Ent(s1.rtable, dst), Ent(Flush(s1, dst, now).rtable, dst));
      }
    }
  }

  // ---------------------------------------------------------------- replies

  function SearchOver(e: Entry): Entry {
    e.(reqTimeout := 0.0, reqLastTtl := 0, reqCnt := 0)
  }

  /** The first place for this request in the list has not been marked as answered. */
  ghost predicate Unanswered(b: seq<BroadcastId>, src: Addr, id: nat) {
    exists k: nat ::
      && k < |b| && b[k].src == src && b[k].id == id && b[k].count == 0
      && forall i: nat :: i < k ==> b[i].src != src || b[i].id != id
  }

  ghost predicate Known(b: seq<BroadcastId>, src: Addr, id: nat) {
    exists k: nat :: k < |b| && b[k].src == src && b[k].id == id
  }

  /** b' is b with the first place for this request marked. */
  ghost predicate Marked(b: seq<BroadcastId>, src: Addr, id: nat, b': seq<BroadcastId>) {
    exists k: nat ::
      && k < |b| && b[k].src == src && b[k].id == id && b' == b[k := b[k].(count := 1)]
      && forall i: nat :: i < k ==> b[i].src != src || b[i].id != id
  }

  lemma {:induction false} IdGetFirst(b: seq<BroadcastId>, src: Addr, id: nat)
    ensures forall k: nat :: k < IdGet(b, src, id) ==> b[k].src != src || b[k].id != id
  {
    if b != [] && !(b[0].src == src && b[0].id == id) { IdGetFirst(b[1..], src, id); }
  }

  lemma IdsMean(b: seq<BroadcastId>, src: Addr, id: nat)
    ensures IdSeen(b, src, id) <==> Known(b, src, id)
    ensures IdSeen(b, src, id) && IdCount(b, src, id) == 0 <==> Unanswered(b, src, id)
    ensures Known(b, src, id) ==> Marked(b, src, id, IdMark(b, src, id))
  {
    IdGetFirst(b, src, id);
    var i := IdGet(b, src, id);
    if i < |b| { assert b[i].src == src && b[i].id == id; }
  }

  /** The hop count that the entry tells others from now on. */
  function Advertised(e: Entry): Entry {
    e.(advHops := if e.advHops.Finite? then e.advHops else MaxHopcount(e.paths))
  }

  function Told(e: Entry): nat {
    if e.advHops.Finite? then e.advHops.n else 0
  }

  /** The reply offers a path that the node takes in. */
  ghost predicate Accepts(s: Node, m: Msg, now: real)
    requires m.Rrep?
  {
    var e, p := Ent(s.rtable, m.dst), Path(m.src, m.hopCount + 1, now + m.lifetime, m.firstHop);
    && m.dst != s.index
    && (m.dstSeqno > e.seqno
        || (Current(e, m.dstSeqno, m.hopCount) && (Listed(e.paths, p) || Fits(e.paths, p, s.maxPaths, s.lenDiff))))
  }

  /** The entry for the destination of the reply after its path has been taken in. */
  ghost predicate Improved(s: Node, m: Msg, now: real, e': Entry)
    requires m.Rrep?
  {
    var e, p := Ent(s.rtable, m.dst), Path(m.src, m.hopCount + 1, now + m.lifetime, m.firstHop);
    if m.dstSeqno > e.seqno then StartsAgain(e, m.dstSeqno, p, e') else TakesIn(e, p, s.maxPaths, s.lenDiff, e')
  }

  lemma ReplyOfferMeans(s: Node, m: Msg, now: real)
    requires m.Rrep? && Ent(s.rtable, m.dst).numPaths == |Ent(s.rtable, m.dst).paths| && m.dst != s.index
    ensures ReplyOffer(s, m, now).drop <==> !Accepts(s, m, now)
    ensures if Accepts(s, m, now) then Improved(s, m, now, ReplyOffer(s, m, now).e)
            else ReplyOffer(s, m, now).e == Ent(s.rtable, m.dst)
  {
    var e, p := Ent(s.rtable, m.dst), Path(m.src, m.hopCount + 1, now + m.lifetime, m.firstHop);
    ForwardOfferTakesIn(e, s.maxPaths, s.lenDiff, m.dstSeqno, m.hopCount, p);
    if m.dstSeqno == e.seqno && Current(e, m.dstSeqno, m.hopCount) {
      KeptIsListed(e, p, s.maxPaths, s.lenDiff, ReplyOffer(s, m, now).e);
    }
  }

  /** A reply that offers no path the node takes in changes nothing and is not passed on. */
  lemma DroppedReply(s: Node, m: Msg, now: real)
    requires m.Rrep? && Ent(s.rtable, m.dst).numPaths == |Ent(s.rtable, m.dst).paths| && !Accepts(s, m, now)
    ensures var s' := Handle(s, Deliver(m, now));
            && SameRest(s, s') && s'.outbox == s.outbox && s'.rqueue == s.rqueue
            && forall d {:trigger Ent(s'.rtable, d)} :: Ent(s'.rtable, d) == Ent(s.rtable, d)
  {
    if m.dst != s.index { ReplyOfferMeans(s, m, now); }
  }

  /** The node after the path of a reply has been taken in and used, where e is the entry with that path. */
  lemma TakenIn(s: Node, dst: Addr, e: Entry, now: real)
    ensures var s1 := Flush(Store(s, dst, ResetSearch(e)), dst, now);
            && SameRest(s, s1) && s1.rqueue == Left(s.rqueue, dst, now)
            && s1.outbox == s.outbox + AsData(Leaving(s.rqueue, dst, s.index, now), FirstNexthop(e))
            && Carrying(SearchOver(e), Leaving(s.rqueue, dst, s.index, now), s.index, now, Ent(s1.rtable, dst))
            && forall d {:trigger Ent(s1.rtable, d)} :: d != dst ==> Ent(s1.rtable, d) == Ent(s.rtable, d)
  {
    FlushSends(Store(s, dst, ResetSearch(e)), dst, now);
    FlushCarries(Store(s, dst, ResetSearch(e)), dst, now);
  }

  /** A node with a route to the source of a request that it has not answered yet passes the reply on. */
  ghost predicate MayPass(s: Node, m: Msg)
    requires m.Rrep?
  {
    Ent(s.rtable, m.daddr).flags == Up && Unanswered(s.bihead, m.daddr, m.bcastId)
  }

  /** What the node says when it passes a reply on, given its entries. */
  function ReplyFrom(s: Node, m: Msg): Msg
    requires m.Rrep?
  {
    Rrep(m.daddr, FirstNexthop(Ent(s.rtable, m.daddr)), m.ttl - 1, Told(Ent(s.rtable, m.dst)), m.dst, m.dstSeqno,
         s.index, m.lifetime, m.timestamp, m.bcastId, FirstLasthop(Ent(s.rtable, m.dst)))
  }

  function FirstUsed(e: Entry, now: real): Entry {
    if e.paths == [] then e else e.(paths := [e.paths[0].(expire := now + 10.0)] + e.paths[1..])
  }

  lemma PassingEffect(s: Node, m: Msg, now: real)
    requires m.Rrep?
    ensures var s' := ForwardReply(s, m, now);
            if !MayPass(s, m) then s' == s
            else
              && SameRest(s, s'.(bihead := s.bihead)) && Marked(s.bihead, m.daddr, m.bcastId, s'.bihead)
              && s'.rqueue == s.rqueue
              && s'.outbox == s.outbox + (if m.ttl == 1 then [] else [ReplyFrom(s', m)])
              && forall d {:trigger Ent(s'.rtable, d)} ::
                   var e := if d == m.dst then Advertised(Ent(s.rtable, d)).(error := true) else Ent(s.rtable, d);
                   Ent(s'.rtable, d) == if d == m.daddr then FirstUsed(e, now) else e
  {
    IdsMean(s.bihead, m.daddr, m.bcastId);
  }

  /** The entry for d while the node considers passing the reply on: e for the destination of the reply. */
  function Meanwhile(s: Node, m: Msg, e: Entry, d: Addr): Entry
    requires m.Rrep?
  {
    if d == m.dst then e else Ent(s.rtable, d)
  }

  ghost predicate Passes(s: Node, m: Msg, e: Entry)
    requires m.Rrep?
  {
    m.daddr != s.index && Meanwhile(s, m, e, m.daddr).flags == Up && Unanswered(s.bihead, m.daddr, m.bcastId)
  }

  /** What becomes of the entries when a reply is or is not passed on; c is the entry for its destination. */
  ghost predicate AfterPassing(s: Node, m: Msg, passes: bool, c: Entry, now: real, s': Node)
    requires m.Rrep?
  {
    forall d {:trigger Ent(s'.rtable, d)} ::
      var c0 := Meanwhile(s, m, c, d);
      var c1 := if passes && d == m.dst then Advertised(c0).(error := true) else c0;
      Ent(s'.rtable, d) == if passes && d == m.daddr then FirstUsed(c1, now) else c1
  }

  lemma PassOrNot(s: Node, s1: Node, m: Msg, e: Entry, c: Entry, now: real)
    requires m.Rrep? && SameRest(s, s1) && c.flags == e.flags
    requires forall d {:trigger Ent(s1.rtable, d)} :: Ent(s1.rtable, d) == Meanwhile(s, m, c, d)
    ensures var s' := if m.daddr == s.index then s1 else ForwardReply(s1, m, now);
            && SameRest(s, s'.(bihead := s.bihead)) && s'.rqueue == s1.rqueue
            && s'.outbox == s1.outbox + (if Passes(s, m, e) && m.ttl != 1 then [ReplyFrom(s', m)] else [])
            && (if Passes(s, m, e) then Marked(s.bihead, m.daddr, m.bcastId, s'.bihead) else s'.bihead == s.bihead)
            && AfterPassing(s, m, Passes(s, m, e), c, now, s')
  {
    PassingEffect(s1, m, now);
    assert Ent(s1.rtable, m.daddr) == Meanwhile(s, m, c, m.daddr);
    assert m.daddr != s.index ==> (MayPass(s1, m) <==> Passes(s, m, e));
  }

  /** A reply whose path the node takes in: the path leads to entry e; the packets that wait leave along its first
      path, which makes it c; and the reply is passed on, once per request, with what the node itself advertises. */
  lemma AcceptedReply(s: Node, m: Msg, now: real) returns (e: Entry, c: Entry)
    requires m.Rrep? && Ent(s.rtable, m.dst).numPaths == |Ent(s.rtable, m.dst).paths| && Accepts(s, m, now)
    ensures Improved(s, m, now, e)
    ensures Carrying(SearchOver(e), Leaving(s.rqueue, m.dst, s.index, now), s.index, now, c)
    ensures var s' := Handle(s, Deliver(m, now));
            && SameRest(s, s'.(bihead := s.bihead)) && s'.rqueue == Left(s.rqueue, m.dst, now)
            && s'.outbox == s.outbox + AsData(Leaving(s.rqueue, m.dst, s.index, now), FirstNexthop(e))
                            + (if Passes(s, m, e) && m.ttl != 1 then [ReplyFrom(s', m)] else [])
            && (if Passes(s, m, e) then Marked(s.bihead, m.daddr, m.bcastId, s'.bihead) else s'.bihead == s.bihead)
            && AfterPassing(s, m, Passes(s, m, e), c, now, s')
  {
    ReplyOfferMeans(s, m, now);
    e := ReplyOffer(s, m, now).e;
    var s1 := Flush(Store(s, m.dst, ResetSearch(e)), m.dst, now);
    TakenIn(s, m.dst, e, now);
    c := Ent(s1.rtable, m.dst);
    assert c.flags == e.flags;
    PassOrNot(s, s1, m, e, c, now);
    assert Handle(s, Deliver(m, now)) == if m.daddr == s.index then s1 else ForwardReply(s1, m, now);
  }

  // ---------------------------------------------------------------- requests

  /** The path back that a request offers. */
  function BackPath(s: Node, m: Msg, now: real): Path
    requires m.Rreq?
  {
    Path(m.saddr, m.hopCount + 1, now + 6.0, if m.hopCount == 0 then s.index else m.firstHop)
  }

  /** What a request does to the entry for its source, whether the path back is then listed, and whether the
      request ends here. */
  ghost predicate Offered(s: Node, m: Msg, now: real, e': Entry, kept: bool, drop: bool)
    requires m.Rreq?
  {
    var e, p := Ent(s.rtable, m.src), BackPath(s, m, now);
    if m.srcSeqno > e.seqno then StartsAgain(e, m.srcSeqno, p, e') && kept && !drop
    else if Current(e, m.srcSeqno, m.hopCount) then
      && TakesIn(e, p, s.maxPaths, s.lenDiff, e') && (kept <==> Listed(e'.paths, p))
      && (drop <==> if Listed(e.paths, p) then false
                    else if SharesHop(e.paths, p) then m.dst == s.index && LongestToLasthop(e.paths, p)
                    else MuchLonger(e'.paths, p, s.lenDiff))
    else e' == e && !kept && drop
  }

  lemma OfferOfMeans(s: Node, m: Msg, now: real)
    requires m.Rreq? && EntryOk(Ent(s.rtable, m.src), s.maxPaths)
    ensures var o := OfferOf(s, m, now); Offered(s, m, now, o.e, o.kept, o.drop)
  {
    ReverseOfferTakesIn(Ent(s.rtable, m.src), s.maxPaths, s.lenDiff, m.srcSeqno, m.hopCount, BackPath(s, m, now),
                        m.dst == s.index);
  }

  /** The cache of requests with this one in it. */
  ghost predicate Noted(b: seq<BroadcastId>, m: Msg, now: real, b': seq<BroadcastId>)
    requires m.Rreq?
  {
    if Known(b, m.src, m.bcastId) then b' == b else b' == [BroadcastId(m.src, m.bcastId, now + 6.0, 0)] + b
  }

  /** A node's own request comes back to it without effect. */
  lemma OwnRequest(s: Node, m: Msg, now: real)
    requires m.Rreq? && m.src == s.index
    ensures Handle(s, Deliver(m, now)) == s
  {
  }

  /** A request that is dropped is noted and leaves its path, if that was taken in; nothing else happens. */
  lemma DroppedRequest(s: Node, m: Msg, now: real) returns (e: Entry, kept: bool, drop: bool)
    requires m.Rreq? && m.src != s.index && EntryOk(Ent(s.rtable, m.src), s.maxPaths)
    ensures Offered(s, m, now, e, kept, drop)
    ensures var s' := Handle(s, Deliver(m, now));
            drop ==>
              && SameRest(s, s'.(bihead := s.bihead)) && Noted(s.bihead, m, now, s'.bihead)
              && s'.outbox == s.outbox && s'.rqueue == s.rqueue
              && forall d {:trigger Ent(s'.rtable, d)} :: Ent(s'.rtable, d) == if d == m.src then e else Ent(s.rtable, d)
  {
    OfferOfMeans(s, m, now);
    var o := OfferOf(Remember(s, m, now), m, now);
    assert o == OfferOf(s, m, now);
    e, kept, drop := o.e, o.kept, o.drop;
    IdsMean(s.bihead, m.src, m.bcastId);
  }

  /** The next even number from the own one, or above the wanted one when that is larger. */
  predicate NextNumber(own: nat, wanted: nat, next: nat) {
    next % 2 == 0 && next >= own && (wanted > own ==> next > wanted)
    && (next <= own + 1 || (wanted > own && next <= wanted + 2))
  }

  predicate HasAnswer(s: Node, m: Msg)
    requires m.Rreq?
  {
    Ent(s.rtable, m.dst).flags == Up && Ent(s.rtable, m.dst).seqno >= m.dstSeqno
  }

  /** What a node says to a request that was not dropped, given its entries once it is done; ready tells that it has a
      path back for it and has not answered it yet. */
  function Saying(s: Node, m: Msg, ready: bool, seen: bool, now: real): seq<Msg>
    requires m.Rreq?
  {
    var e, back := Ent(s.rtable, m.dst), Ent(s.rtable, m.src);
    if m.dst == s.index then
      [Rrep(m.src, m.saddr, 30, 0, s.index, s.seqno, s.index, 10.0, m.timestamp, m.bcastId, m.saddr)]
    else if HasAnswer(s, m) then
      if ready then
        [Rrep(m.src, m.saddr, 30, Told(e), m.dst, e.seqno, s.index,
              if e.paths == [] then 0.0 else e.paths[0].expire - now, m.timestamp, m.bcastId, FirstLasthop(e))]
      else []
    else if seen || m.ttl == 1 then []
    else
      [Rreq(s.index, m.ttl - 1, Told(back), m.bcastId, m.dst, if e.seqno > m.dstSeqno then e.seqno else m.dstSeqno,
            m.src, m.srcSeqno, m.timestamp, FirstLasthop(back))]
  }

  /** The entry for d after the answer: answering fixes what is told of the destination, passing on what is told of
      the source. */
  function Spoken(s: Node, m: Msg, ready: bool, seen: bool, d: Addr): Entry
    requires m.Rreq?
  {
    var e := Ent(s.rtable, d);
    if m.dst == s.index then e
    else if HasAnswer(s, m) then if ready && d == m.dst then Advertised(e).(error := true) else e
    else if !seen && d == m.src then Advertised(e)
    else e
  }

  lemma AnswerEntries(s: Node, m: Msg, kept: bool, seen: bool, now: real, d: Addr)
    requires m.Rreq?
    ensures Ent(Answer(s, m, kept, seen, now).rtable, d)
         == Spoken(s, m, kept && IdCount(s.bihead, m.src, m.bcastId) == 0, seen, d)
  {
  }

  lemma AnswerSays(s: Node, m: Msg, kept: bool, seen: bool, now: real)
    requires m.Rreq?
    ensures var s' := Answer(s, m, kept, seen, now);
            var ready := kept && IdCount(s.bihead, m.src, m.bcastId) == 0;
            && SameRest(s, s'.(bihead := s.bihead, seqno := s.seqno)) && s'.rqueue == s.rqueue
            && s'.outbox == s.outbox + Saying(s', m, ready, seen, now)
            && (if m.dst == s.index then NextNumber(s.seqno, m.dstSeqno, s'.seqno) else s'.seqno == s.seqno)
            && s'.bihead == if m.dst != s.index && HasAnswer(s, m) && ready then IdMark(s.bihead, m.src, m.bcastId)
                            else s.bihead
  {
  }

  /** The node after the path back of a request has been taken in and used. */
  function Listening(s: Node, m: Msg, now: real): Node
    requires m.Rreq?
  {
    Flush(Store(Remember(s, m, now), m.src, ResetSearch(OfferOf(s, m, now).e)), m.src, now)
  }

  /** The path leads to entry e; the packets that wait for the source leave along its first path. */
  lemma ListeningEffect(s: Node, m: Msg, now: real)
    requires m.Rreq?
    ensures var s1, e := Listening(s, m, now), OfferOf(s, m, now).e;
            && SameRest(s, s1.(bihead := s.bihead)) && Noted(s.bihead, m, now, s1.bihead)
            && s1.rqueue == Left(s.rqueue, m.src, now)
            && s1.outbox == s.outbox + AsData(Leaving(s.rqueue, m.src, s.index, now), FirstNexthop(e))
            && Carrying(SearchOver(e), Leaving(s.rqueue, m.src, s.index, now), s.index, now, Ent(s1.rtable, m.src))
            && forall d {:trigger Ent(s1.rtable, d)} :: d != m.src ==> Ent(s1.rtable, d) == Ent(s.rtable, d)
  {
    IdsMean(s.bihead, m.src, m.bcastId);
    TakenIn(Remember(s, m, now), m.src, OfferOf(s, m, now).e, now);
  }

  /** A request whose path is taken in or does no harm: what waits for its source leaves, and then the node answers
      it, for itself or once from its table, or passes it on when it has not heard it before. */
  lemma AcceptedRequest(s: Node, m: Msg, now: real) returns (e: Entry, kept: bool, drop: bool, s1: Node)
    requires m.Rreq? && m.src != s.index && EntryOk(Ent(s.rtable, m.src), s.maxPaths)
    ensures Offered(s, m, now, e, kept, drop)
    ensures SameRest(s, s1.(bihead := s.bihead)) && Noted(s.bihead, m, now, s1.bihead)
    ensures Carrying(SearchOver(e), Leaving(s.rqueue, m.src, s.index, now), s.index, now, Ent(s1.rtable, m.src))
    ensures forall d {:trigger Ent(s1.rtable, d)} :: d != m.src ==> Ent(s1.rtable, d) == Ent(s.rtable, d)
    ensures var s', seen := Handle(s, Deliver(m, now)), Known(s.bihead, m.src, m.bcastId);
            var ready := kept && Unanswered(s1.bihead, m.src, m.bcastId);
            !drop ==>
              && SameRest(s, s'.(bihead := s.bihead, seqno := s.seqno)) && s'.rqueue == Left(s.rqueue, m.src, now)
              && s'.outbox == s.outbox + AsData(Leaving(s.rqueue, m.src, s.index, now), FirstNexthop(e))
                              + Saying(s', m, ready, seen, now)
              && (if m.dst == s.index then NextNumber(s.seqno, m.dstSeqno, s'.seqno) else s'.seqno == s.seqno)
              && (if m.dst != s.index && HasAnswer(s1, m) && ready
                  then Marked(s1.bihead, m.src, m.bcastId, s'.bihead) else s'.bihead == s1.bihead)
              && forall d {:trigger Ent(s'.rtable, d)} :: Ent(s'.rtable, d) == Spoken(s1, m, ready, seen, d)
  {
    OfferOfMeans(s, m, now);
    ListeningEffect(s, m, now);
    var o, seen := OfferOf(s, m, now), IdSeen(s.bihead, m.src, m.bcastId);
    e, kept, drop, s1 := o.e, o.kept, o.drop, Listening(s, m, now);
    IdsMean(s.bihead, m.src, m.bcastId);
    IdsMean(s1.bihead, m.src, m.bcastId);
    NotedIsKnown(s.bihead, m, now, s1.bihead);
    if !drop {
      RequestIsAnswer(s, m, now);
      AnswerSays(s1, m, kept, seen, now);
      forall d ensures Ent(Answer(s1, m, kept, seen, now).rtable, d)
                    == Spoken(s1, m, kept && Unanswered(s1.bihead, m.src, m.bcastId), seen, d)
      {
        AnswerEntries(s1, m, kept, seen, now, d);
      }
    }
  }

  lemma NotedIsKnown(b: seq<BroadcastId>, m: Msg, now: real, b': seq<BroadcastId>)
    requires m.Rreq? && Noted(b, m, now, b')
    ensures Known(b', m.src, m.bcastId)
  {
    if !Known(b, m.src, m.bcastId) { assert b'[0].src == m.src && b'[0].id == m.bcastId; }
  }

  lemma RequestIsAnswer(s: Node, m: Msg, now: real)
    requires m.Rreq? && m.src != s.index && !OfferOf(s, m, now).drop
    ensures Handle(s, Deliver(m, now))
         == Answer(Listening(s, m, now), m, OfferOf(s, m, now).kept, IdSeen(s.bihead, m.src, m.bcastId), now)
  {
    assert OfferOf(Remember(s, m, now), m, now) == OfferOf(s, m, now);
  }
}
