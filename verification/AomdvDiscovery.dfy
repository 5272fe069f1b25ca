/** AOMDV finds two paths. */
module AomdvDiscovery {
  // One request that goes out along two disjoint paths comes back along both.

  import opened Common
  import opened RouteQueue
  import opened OnDemand
  import opened Aomdv
  import opened AomdvSteps
  import opened AomdvEffects
  import opened AomdvUpkeep
  import opened AomdvIds
  import Net = AomdvNetwork

  // ---------------------------------------------------------------- one node

  /** A single path, whatever its timer says. */
  predicate OnePathVia(e: Entry, nexthop: Addr, hopcount: nat, lasthop: Addr) {
    && e.flags == Up && |e.paths| == 1
    && e.paths[0].nexthop == nexthop && e.paths[0].hopcount == hopcount && e.paths[0].lasthop == lasthop
  }

  lemma CarryingOne(e: Entry, ps: seq<Packet>, index: Addr, now: real, c: Entry)
    requires Carrying(SearchOver(e), ps, index, now, c) && |e.paths| == 1
    ensures c.flags == e.flags && c.seqno == e.seqno && c.advHops == e.advHops && c.numPaths == e.numPaths
    ensures c.paths == [e.paths[0].(expire := c.paths[0].expire)]
  {
  }

  lemma AdvertisesOne(c: Entry)
    requires |c.paths| == 1 && c.advHops.Infinite? && c.paths[0].hopcount > 0
    ensures Told(Advertised(c)) == c.paths[0].hopcount
  {
    OnePath(c.paths[0]);
    assert c.paths == [c.paths[0]];
  }

  /** Node s has not heard of the request and of no number as large as the one that its source gives. */
  ghost predicate NotYet(s: Node, m: Msg)
    requires m.Rreq?
  {
    !Known(s.bihead, m.src, m.bcastId) && Ent(s.rtable, m.src).seqno < m.srcSeqno
  }

  predicate Blank(s: Node, dst: Addr, wanted: nat) {
    Ent(s.rtable, dst).flags == Down && Ent(s.rtable, dst).seqno <= wanted
  }

  /** Node s can pass an answer to this request on through via. */
  ghost predicate Back(s: Node, src: Addr, id: nat, via: Addr) {
    Ent(s.rtable, src).flags == Up && FirstNexthop(Ent(s.rtable, src)) == via && Unanswered(s.bihead, src, id)
  }

  function LastHop(index: Addr, m: Msg): Addr
    requires m.Rreq?
  {
    if m.hopCount == 0 then index else m.firstHop
  }

  lemma NotedIsUnanswered(b: seq<BroadcastId>, m: Msg, now: real, b': seq<BroadcastId>)
    requires m.Rreq? && Noted(b, m, now, b') && !Known(b, m.src, m.bcastId)
    ensures Unanswered(b', m.src, m.bcastId)
  {
    assert b'[0].src == m.src && b'[0].id == m.bcastId && b'[0].count == 0;
  }

  /** A node on the way hears a new request: it learns the way back and passes the request on. */
  lemma Hears(s: Node, m: Msg, now: real)
    requires m.Rreq? && m.src != s.index && m.dst != s.index && m.src != m.dst && m.ttl != 1
    requires EntryOk(Ent(s.rtable, m.src), s.maxPaths) && NotYet(s, m) && Blank(s, m.dst, m.dstSeqno)
    ensures var s' := Handle(s, Deliver(m, now));
            && Back(s', m.src, m.bcastId, m.saddr) && Ent(s'.rtable, m.dst) == Ent(s.rtable, m.dst)
            && Rreq(s.index, m.ttl - 1, m.hopCount + 1, m.bcastId, m.dst, m.dstSeqno, m.src, m.srcSeqno, m.timestamp,
                    LastHop(s.index, m)) in s'.outbox
  {
    var s' := Handle(s, Deliver(m, now));
    var e, kept, drop, s1 := AcceptedRequest(s, m, now);
    var c := Ent(s1.rtable, m.src);
    CarryingOne(e, Leaving(s.rqueue, m.src, s.index, now), s.index, now, c);
    AdvertisesOne(c);
    NotedIsUnanswered(s.bihead, m, now, s1.bihead);
    var ready := kept && Unanswered(s1.bihead, m.src, m.bcastId);
    assert !HasAnswer(s1, m);
    assert Ent(s'.rtable, m.src) == Spoken(s1, m, ready, false, m.src) == Advertised(c);
    assert Ent(s'.rtable, m.dst) == Spoken(s1, m, ready, false, m.dst) == Ent(s.rtable, m.dst);
    var said := Saying(s', m, ready, false, now);
    assert |said| == 1 && said[0] in s'.outbox;
  }

  /** The destination takes the path back of a request as its only one, or as one more that is good enough. */
  ghost predicate WillAnswer(s: Node, m: Msg, now: real)
    requires m.Rreq?
  {
    var e, p := Ent(s.rtable, m.src), BackPath(s, m, now);
    e.seqno < m.srcSeqno
    || (e.seqno == m.srcSeqno && e.advHops.Infinite? && s.lenDiff >= 0
        && !SharesHop(e.paths, p) && !MuchLonger(e.paths, p, s.lenDiff))
  }

  lemma NotDropped(s: Node, m: Msg, now: real, e: Entry, kept: bool, drop: bool)
    requires m.Rreq? && WillAnswer(s, m, now) && Offered(s, m, now, e, kept, drop)
    ensures !drop
  {
    var e0, p := Ent(s.rtable, m.src), BackPath(s, m, now);
    if Listed(e0.paths, p) { FirstListed(e0.paths, p); }
  }

  /** The destination hears the request and answers it. */
  lemma Answers(s: Node, m: Msg, now: real)
    requires m.Rreq? && m.dst == s.index && m.src != s.index && EntryOk(Ent(s.rtable, m.src), s.maxPaths)
    requires WillAnswer(s, m, now)
    ensures var s' := Handle(s, Deliver(m, now));
            && NextNumber(s.seqno, m.dstSeqno, s'.seqno) && s'.lenDiff == s.lenDiff && s'.maxPaths == s.maxPaths
            && Rrep(m.src, m.saddr, 30, 0, s.index, s'.seqno, s.index, 10.0, m.timestamp, m.bcastId, m.saddr) in s'.outbox
            && (Ent(s.rtable, m.src).seqno < m.srcSeqno ==>
                  var e' := Ent(s'.rtable, m.src);
                  && e'.seqno == m.srcSeqno && e'.advHops.Infinite?
                  && OnePathVia(e', m.saddr, m.hopCount + 1, LastHop(s.index, m)))
  {
    var s' := Handle(s, Deliver(m, now));
    var e, kept, drop, s1 := AcceptedRequest(s, m, now);
    NotDropped(s, m, now, e, kept, drop);
    var ready := kept && Unanswered(s1.bihead, m.src, m.bcastId);
    var said := Saying(s', m, ready, Known(s.bihead, m.src, m.bcastId), now);
    assert |said| == 1 && said[0] in s'.outbox;
    var c := Ent(s1.rtable, m.src);
    assert Ent(s'.rtable, m.src) == c;
    if Ent(s.rtable, m.src).seqno < m.srcSeqno {
      CarryingOne(e, Leaving(s.rqueue, m.src, s.index, now), s.index, now, c);
    }
  }

  /** A node on the way gets a newer answer and passes it on. */
  lemma PassesAnswer(s: Node, r: Msg, now: real, via: Addr)
    requires r.Rrep? && r.dst != s.index && r.daddr != s.index && r.daddr != r.dst && r.ttl != 1
    requires EntryOk(Ent(s.rtable, r.dst), s.maxPaths) && Ent(s.rtable, r.dst).seqno < r.dstSeqno
    requires Back(s, r.daddr, r.bcastId, via)
    ensures Rrep(r.daddr, via, r.ttl - 1, r.hopCount + 1, r.dst, r.dstSeqno, s.index, r.lifetime, r.timestamp, r.bcastId,
                 r.firstHop) in Handle(s, Deliver(r, now)).outbox
  {
    var s' := Handle(s, Deliver(r, now));
    var e, c := AcceptedReply(s, r, now);
    CarryingOne(e, Leaving(s.rqueue, r.dst, s.index, now), s.index, now, c);
    AdvertisesOne(c);
    assert Passes(s, r, e);
    assert Ent(s'.rtable, r.dst) == Advertised(c).(error := true);
    assert Ent(s'.rtable, r.daddr) == FirstUsed(Ent(s.rtable, r.daddr), now);
    assert ReplyFrom(s', r) in s'.outbox;
  }

  /** The source gets its first answer: the path is its only one. */
  lemma TakesFirst(s: Node, r: Msg, now: real)
    requires r.Rrep? && r.daddr == s.index && r.dst != s.index
    requires EntryOk(Ent(s.rtable, r.dst), s.maxPaths) && Ent(s.rtable, r.dst).seqno < r.dstSeqno
    ensures var s' := Handle(s, Deliver(r, now));
            var e' := Ent(s'.rtable, r.dst);
            && e'.seqno == r.dstSeqno && e'.advHops.Infinite? && OnePathVia(e', r.src, r.hopCount + 1, r.firstHop)
            && SameRest(s, s') && s.outbox <= s'.outbox
            && AsData(Leaving(s.rqueue, r.dst, s.index, now), r.src) <= s'.outbox[|s.outbox|..]
  {
    var e, c := AcceptedReply(s, r, now);
    CarryingOne(e, Leaving(s.rqueue, r.dst, s.index, now), s.index, now, c);
    assert !Passes(s, r, e);
  }

  /** The source gets a second answer with the same number: its path joins the first one. */
  lemma TakesSecond(s: Node, r: Msg, now: real, first: Path)
    requires r.Rrep? && r.daddr == s.index && r.dst != s.index && s.maxPaths >= 2
    requires var e := Ent(s.rtable, r.dst);
             && e.seqno == r.dstSeqno && e.advHops.Infinite? && e.numPaths == 1 && e.paths == [first]
             && first.nexthop != r.src && first.lasthop != r.firstHop && r.hopCount + 1 - first.hopcount <= s.lenDiff
    ensures var e' := Ent(Handle(s, Deliver(r, now)).rtable, r.dst);
            && |e'.paths| == 2 && e'.paths[0] == first.(expire := e'.paths[0].expire)
            && e'.paths[1] == Path(r.src, r.hopCount + 1, now + r.lifetime, r.firstHop) && e'.flags == Ent(s.rtable, r.dst).flags
  {
    var e0, p := Ent(s.rtable, r.dst), Path(r.src, r.hopCount + 1, now + r.lifetime, r.firstHop);
    assert !Listed(e0.paths, p) && Fits(e0.paths, p, s.maxPaths, s.lenDiff);
    var e, c := AcceptedReply(s, r, now);
    assert !Passes(s, r, e);
  }

  // ---------------------------------------------------------------- messages along paths

  predicate Beside(i: nat, j: nat) {
    i == j + 1 || j == i + 1
  }

  /** A message that node p[i] has sent, for everybody or for p[j], reaches its neighbour p[j] on the path. */
  ghost predicate Hop(net: Net.Network, net': Net.Network, p: seq<Addr>, i: nat, j: nat, m: Msg, now: real) {
    && i < |p| && j < |p| && Beside(i, j) && p[i] in net && p[j] in net
    && m in net[p[i]].outbox && (m.Rrep? ==> m.nextHop == p[j])
    && net' == net[p[j] := Handle(net[p[j]], Deliver(m, now))]
  }

  ghost predicate SomeHop(net: Net.Network, net': Net.Network, ps: set<seq<Addr>>, now: real) {
    exists p, i: nat, j: nat, m :: p in ps && Hop(net, net', p, i, j, m, now)
  }

  /** From place k of the run on, messages go from neighbour to neighbour along these paths and nothing else happens. */
  ghost predicate Along(run: seq<Net.Network>, k: nat, ps: set<seq<Addr>>, now: real) {
    forall x: nat :: k <= x < |run| - 1 ==> SomeHop(run[x], run[x + 1], ps, now)
  }

  function Last(run: seq<Net.Network>): Net.Network
    requires run != []
  {
    run[|run| - 1]
  }

  /** A run whose part from place k on keeps to the paths. */
  ghost predicate Going(run: seq<Net.Network>, k: nat, ps: set<seq<Addr>>, now: real) {
    Net.Run(run) && k < |run| && Along(run, k, ps, now)
  }

  /** run' goes on from run, and only the nodes ns have taken part. */
  ghost predicate GoesOn(run: seq<Net.Network>, run': seq<Net.Network>, ns: seq<Addr>) {
    && run != [] && |run| <= |run'| && run'[..|run|] == run && Last(run').Keys == Last(run).Keys
    && forall n {:trigger Last(run')[n]} :: n in Last(run) && n !in ns ==> Last(run')[n] == Last(run)[n]
  }

  lemma GoesOnTrans(run0: seq<Net.Network>, run1: seq<Net.Network>, run2: seq<Net.Network>, ns: seq<Addr>)
    requires GoesOn(run0, run1, ns) && GoesOn(run1, run2, ns)
    ensures GoesOn(run0, run2, ns)
  {
    assert run2[..|run0|] == run2[..|run1|][..|run0|];
    forall n | n in Last(run0) && n !in ns ensures Last(run2)[n] == Last(run0)[n] {
      assert Last(run1)[n] == Last(run0)[n];
    }
  }

  lemma HopIsStep(net: Net.Network, net': Net.Network, p: seq<Addr>, i: nat, j: nat, m: Msg, now: real)
    requires Hop(net, net', p, i, j, m, now)
    ensures Net.Step(net, net')
  {
    var x := p[i];
    var k :| 0 <= k < |net[x].outbox| && net[x].outbox[k] == m;
    assert x in net && net[x].outbox[k] == m;
    assert Net.Sent(net, m);
    assert Net.StepAt(net, net', p[j], Deliver(m, now));
  }

  lemma AppendStep(run: seq<Net.Network>, net': Net.Network)
    requires Net.Run(run) && Net.Step(Last(run), net')
    ensures Net.Run(run + [net'])
  {
    var run' := run + [net'];
    forall x | 0 <= x < |run'| - 1 ensures Net.Step(run'[x], run'[x + 1]) {
      if x < |run| - 1 { assert Net.Step(run[x], run[x + 1]); }
    }
  }

  lemma AppendHop(run: seq<Net.Network>, net': Net.Network, k: nat, ps: set<seq<Addr>>, now: real)
    requires k < |run| && Along(run, k, ps, now) && SomeHop(Last(run), net', ps, now)
    ensures Along(run + [net'], k, ps, now)
  {
    var run' := run + [net'];
    forall x: nat | k <= x < |run'| - 1 ensures SomeHop(run'[x], run'[x + 1], ps, now) {
      if x < |run| - 1 { assert SomeHop(run[x], run[x + 1], ps, now); }
    }
  }

  /** The run after one more hop, and the invariant there. */
  lemma OneMoreHop(run: seq<Net.Network>, k: nat, ps: set<seq<Addr>>, p: seq<Addr>, i: nat, j: nat, m: Msg, now: real)
    returns (run': seq<Net.Network>)
    requires Going(run, k, ps, now) && p in ps && i < |p| && j < |p| && Beside(i, j)
    requires p[i] in Last(run) && p[j] in Last(run) && m in Last(run)[p[i]].outbox && (m.Rrep? ==> m.nextHop == p[j])
    ensures Going(run', k, ps, now) && Net.Inv(Last(run')) && GoesOn(run, run', [p[j]]) && |run'| == |run| + 1
    ensures Last(run') == Last(run)[p[j] := Handle(Last(run)[p[j]], Deliver(m, now))]
  {
    var net' := Last(run)[p[j] := Handle(Last(run)[p[j]], Deliver(m, now))];
    run' := run + [net'];
    assert Hop(Last(run), net', p, i, j, m, now);
    HopIsStep(Last(run), net', p, i, j, m, now);
    AppendStep(run, net');
    AppendHop(run, net', k, ps, now);
    Net.RunInv(run', |run'| - 1);
  }

  // ---------------------------------------------------------------- out along one path

  ghost predicate OnPath(net: Net.Network, p: seq<Addr>) {
    |p| >= 2 && NoRepeats(p) && forall i: nat :: i < |p| ==> p[i] in net
  }

  /** The way back that the path offers to its end. */
  ghost predicate EndWillAnswer(s: Node, p: seq<Addr>, seqno: nat)
    requires |p| >= 2
  {
    var e := Ent(s.rtable, p[0]);
    e.seqno < seqno
    || (e.seqno == seqno && e.advHops.Infinite? && s.lenDiff >= 0
        && forall x: nat :: x < |e.paths| ==>
             && e.paths[x].nexthop != p[|p| - 2] && e.paths[x].lasthop != p[1]
             && |p| - 1 - e.paths[x].hopcount <= s.lenDiff)
  }

  /** The request for the end of the path has come as far as place i. */
  ghost predicate Outward(net: Net.Network, p: seq<Addr>, i: nat, m: Msg) {
    && OnPath(net, p) && i < |p| - 1 && m in net[p[i]].outbox
    && m.Rreq? && m.saddr == p[i] && m.src == p[0] && m.dst == p[|p| - 1] && m.hopCount == i
    && m.ttl >= |p| - 1 - i && (i > 0 ==> m.firstHop == p[1])
    && (forall j: nat :: 0 < j <= i ==> Back(net[p[j]], p[0], m.bcastId, p[j - 1]))
    && (forall j: nat :: 0 < j < |p| - 1 ==> Blank(net[p[j]], m.dst, m.dstSeqno))
    && (forall j: nat :: i < j < |p| - 1 ==> NotYet(net[p[j]], m))
    && EndWillAnswer(net[p[|p| - 1]], p, m.srcSeqno)
  }

  /** The next node on the path has heard the request and become s'. */
  lemma OutwardKept(net: Net.Network, p: seq<Addr>, i: nat, m: Msg, s': Node, m': Msg)
    requires Outward(net, p, i, m) && i + 2 < |p| && m' in s'.outbox
    requires m'.Rreq? && m'.saddr == p[i + 1] && m'.hopCount == i + 1 && m'.ttl == m.ttl - 1 && m'.firstHop == p[1]
    requires m'.src == m.src && m'.dst == m.dst && m'.bcastId == m.bcastId && m'.srcSeqno == m.srcSeqno
    requires m'.dstSeqno == m.dstSeqno && Back(s', m.src, m.bcastId, p[i]) && Blank(s', m.dst, m.dstSeqno)
    ensures Outward(net[p[i + 1] := s'], p, i + 1, m')
  {
    var net' := net[p[i + 1] := s'];
    assert forall j: nat :: j < |p| && j != i + 1 ==> p[j] != p[i + 1];
    assert forall j: nat :: j < |p| && j != i + 1 ==> net'[p[j]] == net[p[j]];
  }

  lemma HeardNext(net: Net.Network, p: seq<Addr>, i: nat, m: Msg, now: real) returns (m': Msg)
    requires Net.Inv(net) && Outward(net, p, i, m) && i + 2 < |p|
    ensures Outward(net[p[i + 1] := Handle(net[p[i + 1]], Deliver(m, now))], p, i + 1, m')
    ensures m'.bcastId == m.bcastId && m'.srcSeqno == m.srcSeqno && m'.dstSeqno == m.dstSeqno
  {
    var n := p[i + 1];
    var s := net[n];
    assert NotYet(s, m) && Blank(s, m.dst, m.dstSeqno) && s.index == n && NodeOk(s);
    assert EntryOk(Ent(s.rtable, m.src), s.maxPaths);
    assert p[0] != n && p[|p| - 1] != n && p[0] != p[|p| - 1];
    Hears(s, m, now);
    m' := Rreq(n, m.ttl - 1, i + 1, m.bcastId, m.dst, m.dstSeqno, m.src, m.srcSeqno, m.timestamp, LastHop(n, m));
    OutwardKept(net, p, i, m, Handle(s, Deliver(m, now)), m');
  }

  /** One node of the path has taken part. */
  lemma GoesOnWith(run: seq<Net.Network>, run': seq<Net.Network>, ns: seq<Addr>, i: nat)
    requires i < |ns| && GoesOn(run, run', [ns[i]])
    ensures GoesOn(run, run', ns)
  {
    forall n | n in Last(run) && n !in ns ensures Last(run')[n] == Last(run)[n] {
      assert n !in [ns[i]];
    }
  }

  lemma OutwardStep(run: seq<Net.Network>, k: nat, ps: set<seq<Addr>>, p: seq<Addr>, i: nat, m: Msg, now: real)
    returns (run': seq<Net.Network>, m': Msg)
    requires Going(run, k, ps, now) && p in ps && Net.Inv(Last(run)) && Outward(Last(run), p, i, m) && i + 2 < |p|
    ensures Going(run', k, ps, now) && Net.Inv(Last(run')) && GoesOn(run, run', p[1..])
    ensures Outward(Last(run'), p, i + 1, m')
    ensures m'.bcastId == m.bcastId && m'.srcSeqno == m.srcSeqno && m'.dstSeqno == m.dstSeqno
    ensures p[|p| - 1] in Last(run) && Last(run')[p[|p| - 1]] == Last(run)[p[|p| - 1]]
  {
    m' := HeardNext(Last(run), p, i, m, now);
    run' := OneMoreHop(run, k, ps, p, i, i + 1, m, now);
    GoesOnWith(run, run', p[1..], i);
    assert p[|p| - 1] != p[i + 1];
  }

  // ---------------------------------------------------------------- home along one path

  /** The answer has come back as far as place c; whoever is between there and the start will pass it on. */
  ghost predicate Homeward(net: Net.Network, p: seq<Addr>, c: nat, r: Msg) {
    && OnPath(net, p) && 0 < c < |p| && r in net[p[c]].outbox
    && r.Rrep? && r.daddr == p[0] && r.nextHop == p[c - 1] && r.dst == p[|p| - 1] && r.src == p[c] && r.ttl >= c
    && r.hopCount == |p| - 1 - c && r.firstHop == p[|p| - 2]
    && (forall j: nat :: 0 < j < c ==> Back(net[p[j]], p[0], r.bcastId, p[j - 1]))
    && (forall j: nat :: 0 < j < c ==> Ent(net[p[j]].rtable, r.dst).seqno < r.dstSeqno)
  }

  /** A route that is down with a number not above an even one is below it. */
  lemma BlankIsOlder(s: Node, dst: Addr, wanted: nat, seqno: nat)
    requires NodeOk(s) && Blank(s, dst, wanted) && seqno >= wanted && seqno % 2 == 0 && seqno >= 2
    ensures Ent(s.rtable, dst).seqno < seqno
  {
    assert EntryOk(Ent(s.rtable, dst), s.maxPaths);
  }

  /** The end of the path has become s' and answers with r. */
  lemma TurnsBack(net: Net.Network, p: seq<Addr>, m: Msg, s': Node, r: Msg)
    requires Net.Inv(net) && |p| <= 31 && |p| >= 2 && Outward(net, p, |p| - 2, m) && r in s'.outbox
    requires r.Rrep? && r.daddr == m.src && r.nextHop == p[|p| - 2] && r.ttl == 30 && r.hopCount == 0 && r.dst == m.dst
    requires r.src == m.dst && r.bcastId == m.bcastId && r.firstHop == p[|p| - 2]
    requires r.dstSeqno >= m.dstSeqno && r.dstSeqno % 2 == 0 && r.dstSeqno >= 2
    ensures Homeward(net[p[|p| - 1] := s'], p, |p| - 1, r)
  {
    var net' := net[p[|p| - 1] := s'];
    assert forall j: nat :: j < |p| - 1 ==> p[j] != p[|p| - 1];
    assert forall j: nat :: j < |p| - 1 ==> net'[p[j]] == net[p[j]];
    forall j: nat | 0 < j < |p| - 1 ensures Ent(net'[p[j]].rtable, r.dst).seqno < r.dstSeqno {
      BlankIsOlder(net[p[j]], m.dst, m.dstSeqno, r.dstSeqno);
    }
  }

  lemma EndAnswers(s: Node, p: seq<Addr>, m: Msg, now: real)
    requires m.Rreq? && |p| >= 2 && EndWillAnswer(s, p, m.srcSeqno)
    requires m.src == p[0] && m.saddr == p[|p| - 2] && m.hopCount == |p| - 2 && s.index == p[|p| - 1]
    requires m.hopCount > 0 ==> m.firstHop == p[1]
    ensures WillAnswer(s, m, now)
  {
  }

  /** What the end of the path has learned of its start, when the request was the first to tell it of this number. */
  ghost predicate EndHeard(s: Node, p: seq<Addr>, seqno: nat)
    requires |p| >= 2
  {
    var e := Ent(s.rtable, p[0]);
    e.seqno == seqno && e.advHops.Infinite? && OnePathVia(e, p[|p| - 2], |p| - 1, p[1])
  }

  lemma AnsweredAtEnd(net: Net.Network, p: seq<Addr>, m: Msg, now: real) returns (r: Msg)
    requires Net.Inv(net) && |p| <= 31 && |p| >= 2 && Outward(net, p, |p| - 2, m)
    ensures var d := p[|p| - 1];
            var s' := Handle(net[d], Deliver(m, now));
            && Homeward(net[d := s'], p, |p| - 1, r) && r.bcastId == m.bcastId
            && NextNumber(net[d].seqno, m.dstSeqno, r.dstSeqno) && s'.seqno == r.dstSeqno && s'.lenDiff == net[d].lenDiff
            && (Ent(net[d].rtable, p[0]).seqno < m.srcSeqno ==> EndHeard(s', p, m.srcSeqno))
  {
    var d := p[|p| - 1];
    var s := net[d];
    assert s.index == d && NodeOk(s) && p[0] != d;
    assert EntryOk(Ent(s.rtable, m.src), s.maxPaths);
    EndAnswers(s, p, m, now);
    Answers(s, m, now);
    var s' := Handle(s, Deliver(m, now));
    r := Rrep(m.src, m.saddr, 30, 0, d, s'.seqno, d, 10.0, m.timestamp, m.bcastId, m.saddr);
    TurnsBack(net, p, m, s', r);
  }

  /** The request goes out along the path, and the end answers it. */
  lemma GoOut(run: seq<Net.Network>, k: nat, ps: set<seq<Addr>>, p: seq<Addr>, i: nat, m: Msg, now: real)
    returns (run': seq<Net.Network>, r: Msg)
    requires Going(run, k, ps, now) && p in ps && Net.Inv(Last(run)) && |p| <= 31 && Outward(Last(run), p, i, m)
    ensures Going(run', k, ps, now) && Net.Inv(Last(run')) && GoesOn(run, run', p[1..])
    ensures Homeward(Last(run'), p, |p| - 1, r) && r.bcastId == m.bcastId
    ensures var d := p[|p| - 1];
            && NextNumber(Last(run)[d].seqno, m.dstSeqno, r.dstSeqno) && Last(run')[d].seqno == r.dstSeqno
            && Last(run')[d].lenDiff == Last(run)[d].lenDiff
            && (Ent(Last(run)[d].rtable, p[0]).seqno < m.srcSeqno ==> EndHeard(Last(run')[d], p, m.srcSeqno))
    decreases |p| - i
  {
    if i + 2 == |p| {
      r := AnsweredAtEnd(Last(run), p, m, now);
      run' := OneMoreHop(run, k, ps, p, i, i + 1, m, now);
      GoesOnWith(run, run', p[1..], i);
    } else {
      var run1, m' := OutwardStep(run, k, ps, p, i, m, now);
      run', r := GoOut(run1, k, ps, p, i + 1, m', now);
      GoesOnTrans(run, run1, run', p[1..]);
    }
  }

  /** The next node towards the start has become s'. */
  lemma HomewardKept(net: Net.Network, p: seq<Addr>, c: nat, r: Msg, s': Node, r': Msg)
    requires Homeward(net, p, c, r) && c >= 2 && r' in s'.outbox
    requires r'.Rrep? && r'.daddr == r.daddr && r'.nextHop == p[c - 2] && r'.dst == r.dst && r'.src == p[c - 1]
    requires r'.ttl == r.ttl - 1 && r'.hopCount == r.hopCount + 1 && r'.firstHop == r.firstHop
    requires r'.dstSeqno == r.dstSeqno && r'.bcastId == r.bcastId
    ensures Homeward(net[p[c - 1] := s'], p, c - 1, r')
  {
    var net' := net[p[c - 1] := s'];
    assert forall j: nat :: j < |p| && j != c - 1 ==> p[j] != p[c - 1];
    assert forall j: nat :: j < |p| && j != c - 1 ==> net'[p[j]] == net[p[j]];
  }

  lemma PassedBack(net: Net.Network, p: seq<Addr>, c: nat, r: Msg, now: real) returns (r': Msg)
    requires Net.Inv(net) && Homeward(net, p, c, r) && c >= 2
    ensures Homeward(net[p[c - 1] := Handle(net[p[c - 1]], Deliver(r, now))], p, c - 1, r')
    ensures r'.dstSeqno == r.dstSeqno && r'.bcastId == r.bcastId
  {
    var n := p[c - 1];
    var s := net[n];
    assert Back(s, p[0], r.bcastId, p[c - 2]) && s.index == n && NodeOk(s);
    assert EntryOk(Ent(s.rtable, r.dst), s.maxPaths);
    assert p[0] != n && p[|p| - 1] != n && p[0] != p[|p| - 1];
    PassesAnswer(s, r, now, p[c - 2]);
    r' := Rrep(r.daddr, p[c - 2], r.ttl - 1, r.hopCount + 1, r.dst, r.dstSeqno, n, r.lifetime, r.timestamp, r.bcastId,
               r.firstHop);
    HomewardKept(net, p, c, r, Handle(s, Deliver(r, now)), r');
  }

  /** The answer comes back to the first node after the start. */
  lemma ComeHome(run: seq<Net.Network>, k: nat, ps: set<seq<Addr>>, p: seq<Addr>, c: nat, r: Msg, now: real)
    returns (run': seq<Net.Network>, r': Msg)
    requires Going(run, k, ps, now) && p in ps && Net.Inv(Last(run)) && Homeward(Last(run), p, c, r)
    ensures Going(run', k, ps, now) && Net.Inv(Last(run')) && GoesOn(run, run', p[1..])
    ensures Homeward(Last(run'), p, 1, r') && r'.dstSeqno == r.dstSeqno
    ensures Last(run')[p[|p| - 1]] == Last(run)[p[|p| - 1]]
    decreases c
  {
    if c == 1 {
      run', r' := run, r;
    } else {
      var r1 := PassedBack(Last(run), p, c, r, now);
      var run1 := OneMoreHop(run, k, ps, p, c, c - 1, r, now);
      GoesOnWith(run, run1, p[1..], c - 2);
      assert p[|p| - 1] != p[c - 1];
      run', r' := ComeHome(run1, k, ps, p, c - 1, r1, now);
      GoesOnTrans(run, run1, run', p[1..]);
    }
  }

  /** There and back along one path. */
  lemma RoundTrip(run: seq<Net.Network>, k: nat, ps: set<seq<Addr>>, p: seq<Addr>, m: Msg, now: real)
    returns (run': seq<Net.Network>, r: Msg)
    requires Going(run, k, ps, now) && p in ps && Net.Inv(Last(run)) && |p| <= 31 && Outward(Last(run), p, 0, m)
    ensures Going(run', k, ps, now) && Net.Inv(Last(run')) && GoesOn(run, run', p[1..]) && Homeward(Last(run'), p, 1, r)
    ensures var d := p[|p| - 1];
            && NextNumber(Last(run)[d].seqno, m.dstSeqno, r.dstSeqno) && Last(run')[d].seqno == r.dstSeqno
            && Last(run')[d].lenDiff == Last(run)[d].lenDiff
            && (Ent(Last(run)[d].rtable, p[0]).seqno < m.srcSeqno ==> EndHeard(Last(run')[d], p, m.srcSeqno))
  {
    var run1, r1 := GoOut(run, k, ps, p, 0, m, now);
    run', r := ComeHome(run1, k, ps, p, |p| - 1, r1, now);
    GoesOnTrans(run, run1, run', p[1..]);
  }

  // ---------------------------------------------------------------- a whole search

  /** Node s may ask for dst now, and its request may travel as many as n hops. */
  predicate MayAsk(s: Node, dst: Addr, n: nat, now: real) {
    var e := Ent(s.rtable, dst);
    e.flags == Down && e.reqTimeout <= now && e.reqCnt <= 3 && n <= WideningRing(e.lastHopCount, e.reqLastTtl)
  }

  /** No node between the ends of the path has a route to its end, or has heard more of it than its start. */
  ghost predicate Unknowing(net: Net.Network, p: seq<Addr>)
    requires OnPath(net, p)
  {
    var dst := p[|p| - 1];
    forall j: nat :: 0 < j < |p| - 1 ==> Blank(net[p[j]], dst, Ent(net[p[0]].rtable, dst).seqno)
  }

  /** The request that node s sends. */
  function Request(s: Node, dst: Addr, now: real): Msg {
    var e := Ent(s.rtable, dst);
    Rreq(s.index, WideningRing(e.lastHopCount, e.reqLastTtl), 0, s.bid, dst, e.seqno, s.index, s.seqno + 2, now, 0)
  }

  /** A packet from the node's own agents makes it ask. */
  lemma Asks(s: Node, pkt: Packet, n: nat, now: real)
    requires pkt.saddr == s.index && pkt.numForwards == 0 && pkt.daddr != IP_BROADCAST && MayAsk(s, pkt.daddr, n, now)
    ensures var s' := Handle(s, Originate(pkt, now));
            && Request(s, pkt.daddr, now) in s'.outbox && s'.rqueue == Enque(s.rqueue, pkt.(ttl := 30), now)
            && Ent(s'.rtable, pkt.daddr).flags == Down
            && Ent(s'.rtable, pkt.daddr).seqno == Ent(s.rtable, pkt.daddr).seqno
            && s'.maxPaths == s.maxPaths && s'.lenDiff == s.lenDiff
  {
    DataEffect(s, pkt, false, now);
    ResolveEffect(s, pkt.(ttl := 30), now);
  }

  /** Along such a path nobody has heard of the request, and everybody will take it. */
  lemma ReadyAlong(net: Net.Network, p: seq<Addr>, s': Node, n: nat, now: real)
    requires Net.Inv(net) && IdsInv(net) && OnPath(net, p) && Unknowing(net, p) && |p| - 1 <= n
    requires MayAsk(net[p[0]], p[|p| - 1], n, now) && Request(net[p[0]], p[|p| - 1], now) in s'.outbox
    ensures Outward(net[p[0] := s'], p, 0, Request(net[p[0]], p[|p| - 1], now))
    ensures Ent(net[p[|p| - 1]].rtable, p[0]).seqno < net[p[0]].seqno + 2
  {
    var a, m := p[0], Request(net[p[0]], p[|p| - 1], now);
    var net' := net[a := s'];
    assert net[a].index == a;
    forall j: nat | 0 < j < |p|
      ensures p[j] != a && net'[p[j]] == net[p[j]] && NotYet(net[p[j]], m)
    {
      assert p[0] != p[j];
      assert CacheIssued(net, p[j]);
      assert Net.EntryInv(net, p[j], a) && Net.Rt(net, p[j], a) == Ent(net[p[j]].rtable, a);
    }
    assert NotYet(net[p[|p| - 1]], m);
  }

  /** Two paths from a to d that share only their ends. */
  ghost predicate Apart(p: seq<Addr>, q: seq<Addr>) {
    && |p| >= 2 && |q| >= 2 && |p| + |q| > 4 && p[0] == q[0] && p[|p| - 1] == q[|q| - 1]
    && forall i: nat, j: nat :: 0 < i < |p| - 1 && 0 < j < |q| - 1 ==> p[i] != q[j]
  }

  lemma ApartHops(p: seq<Addr>, q: seq<Addr>)
    requires Apart(p, q) && NoRepeats(p) && NoRepeats(q)
    ensures p[1] != q[1] && p[|p| - 2] != q[|q| - 2]
    ensures forall j: nat :: 0 < j < |q| - 1 ==> q[j] !in p
  {
    forall j: nat | 0 < j < |q| - 1 ensures q[j] !in p {
      assert q[0] != q[j] && q[j] != q[|q| - 1];
      forall i: nat | i < |p| ensures p[i] != q[j] {}
    }
    assert p[0] != p[|p| - 1];
    if |p| > 2 && |q| == 2 { assert p[1] != p[|p| - 1] && p[|p| - 2] != p[0]; }
    if |p| == 2 && |q| > 2 { assert q[1] != q[|q| - 1] && q[|q| - 2] != q[0]; }
  }

  /** The start of the path has this one path to its end. */
  ghost predicate Found(s: Node, p: seq<Addr>, seqno: nat)
    requires |p| >= 2
  {
    var e := Ent(s.rtable, p[|p| - 1]);
    e.seqno == seqno && e.advHops.Infinite? && OnePathVia(e, p[1], |p| - 1, p[|p| - 2])
  }

  lemma WiderGoesOn(run: seq<Net.Network>, run': seq<Net.Network>, p: seq<Addr>)
    requires p != [] && GoesOn(run, run', p[1..])
    ensures GoesOn(run, run', p)
  {
    forall n | n in Last(run) && n !in p ensures Last(run')[n] == Last(run)[n] {
      assert n !in p[1..];
    }
  }

  lemma FirstAtHome(net: Net.Network, p: seq<Addr>, r: Msg, now: real)
    requires Net.Inv(net) && Homeward(net, p, 1, r) && Ent(net[p[0]].rtable, r.dst).seqno < r.dstSeqno
    ensures var s, s' := net[p[0]], Handle(net[p[0]], Deliver(r, now));
            && Found(s', p, r.dstSeqno) && SameRest(s, s') && s.outbox <= s'.outbox
            && AsData(Leaving(s.rqueue, r.dst, s.index, now), p[1]) <= s'.outbox[|s.outbox|..]
  {
    var s := net[p[0]];
    assert s.index == p[0] && NodeOk(s) && p[0] != p[|p| - 1];
    assert EntryOk(Ent(s.rtable, r.dst), s.maxPaths);
    TakesFirst(s, r, now);
  }

  /** There and back along the first path. */
  lemma FirstFound(run: seq<Net.Network>, k: nat, ps: set<seq<Addr>>, p: seq<Addr>, m: Msg, now: real)
    returns (run': seq<Net.Network>, seqno: nat)
    requires Going(run, k, ps, now) && p in ps && Net.Inv(Last(run)) && |p| <= 31 && Outward(Last(run), p, 0, m)
    requires Blank(Last(run)[p[0]], m.dst, m.dstSeqno) && Ent(Last(run)[m.dst].rtable, m.src).seqno < m.srcSeqno
    ensures Going(run', k, ps, now) && Net.Inv(Last(run')) && GoesOn(run, run', p)
    ensures var s, s' := Last(run)[p[0]], Last(run')[p[0]];
            && Found(s', p, seqno) && SameRest(s, s') && s.outbox <= s'.outbox
            && AsData(Leaving(s.rqueue, m.dst, s.index, now), p[1]) <= s'.outbox[|s.outbox|..]
    ensures var d := p[|p| - 1];
            && NextNumber(Last(run)[d].seqno, m.dstSeqno, seqno) && Last(run')[d].seqno == seqno
            && Last(run')[d].lenDiff == Last(run)[d].lenDiff && EndHeard(Last(run')[d], p, m.srcSeqno)
  {
    var run1, r := RoundTrip(run, k, ps, p, m, now);
    seqno := r.dstSeqno;
    assert p[0] !in p[1..] && Last(run1)[p[0]] == Last(run)[p[0]];
    assert NodeOk(Last(run)[m.dst]);
    BlankIsOlder(Last(run)[p[0]], m.dst, m.dstSeqno, seqno);
    FirstAtHome(Last(run1), p, r, now);
    run' := OneMoreHop(run1, k, ps, p, 1, 0, r, now);
    WiderGoesOn(run, run1, p);
    GoesOnWith(run1, run', p, 0);
    GoesOnTrans(run, run1, run', p);
    assert p[|p| - 1] != p[0];
  }

  /** After the first path has been found the same request can go out along the second. */
  lemma StillReady(net: Net.Network, net': Net.Network, p: seq<Addr>, q: seq<Addr>, m: Msg)
    requires Outward(net, q, 0, m) && OnPath(net, p) && Apart(p, q) && net'.Keys == net.Keys
    requires forall n {:trigger net'[n]} :: n in net && n !in p ==> net'[n] == net[n]
    requires net[p[0]].outbox <= net'[p[0]].outbox && EndHeard(net'[m.dst], p, m.srcSeqno)
    requires net'[m.dst].lenDiff >= 0 && |q| - |p| <= net'[m.dst].lenDiff
    ensures Outward(net', q, 0, m)
  {
    ApartHops(p, q);
    forall j: nat | 0 < j < |q| - 1 ensures net'[q[j]] == net[q[j]] {
      var n := q[j];
      assert n in net && n !in p;
      assert net'[n] == net[n];
    }
    assert m in net'[q[0]].outbox;
  }

  lemma SecondAtHome(net: Net.Network, p: seq<Addr>, q: seq<Addr>, r: Msg, now: real)
    requires Net.Inv(net) && Homeward(net, q, 1, r) && Apart(p, q) && NoRepeats(p) && Found(net[q[0]], p, r.dstSeqno)
    requires net[q[0]].maxPaths >= 2 && |q| - |p| <= net[q[0]].lenDiff
    ensures TwoPaths(Ent(Handle(net[q[0]], Deliver(r, now)).rtable, r.dst), p, q)
  {
    var s := net[q[0]];
    assert s.index == q[0] && NodeOk(s) && q[0] != q[|q| - 1];
    assert EntryOk(Ent(s.rtable, r.dst), s.maxPaths);
    ApartHops(p, q);
    var e := Ent(s.rtable, r.dst);
    assert e.paths == [e.paths[0]];
    TakesSecond(s, r, now, e.paths[0]);
  }

  /** Exactly these two paths, the first one first. */
  ghost predicate TwoPaths(e: Entry, p: seq<Addr>, q: seq<Addr>)
    requires |p| >= 2 && |q| >= 2
  {
    && e.flags == Up && |e.paths| == 2
    && e.paths[0] == Path(p[1], |p| - 1, e.paths[0].expire, p[|p| - 2])
    && e.paths[1] == Path(q[1], |q| - 1, e.paths[1].expire, q[|q| - 2])
  }

  /** There and back along the second path, with the first one known: the number is the same. */
  lemma SecondReply(run: seq<Net.Network>, k: nat, ps: set<seq<Addr>>, q: seq<Addr>, m: Msg, now: real, seqno: nat)
    returns (run': seq<Net.Network>, r: Msg)
    requires Going(run, k, ps, now) && q in ps && Net.Inv(Last(run)) && |q| <= 31 && Outward(Last(run), q, 0, m)
    requires Last(run)[m.dst].seqno == seqno && seqno % 2 == 0 && m.dstSeqno <= seqno
    ensures Going(run', k, ps, now) && Net.Inv(Last(run')) && GoesOn(run, run', q[1..])
    ensures Homeward(Last(run'), q, 1, r) && r.dstSeqno == seqno && Last(run')[q[0]] == Last(run)[q[0]]
  {
    run', r := RoundTrip(run, k, ps, q, m, now);
    assert q[0] !in q[1..];
  }

  lemma SecondFound(run: seq<Net.Network>, k: nat, ps: set<seq<Addr>>, p: seq<Addr>, q: seq<Addr>, m: Msg, now: real,
                    seqno: nat)
    returns (run': seq<Net.Network>)
    requires Going(run, k, ps, now) && q in ps && Net.Inv(Last(run)) && |q| <= 31 && Outward(Last(run), q, 0, m)
    requires Apart(p, q) && NoRepeats(p) && Found(Last(run)[q[0]], p, seqno)
    requires Last(run)[m.dst].seqno == seqno && seqno % 2 == 0 && m.dstSeqno <= seqno
    requires Last(run)[q[0]].maxPaths >= 2 && |q| - |p| <= Last(run)[q[0]].lenDiff
    ensures Going(run', k, ps, now) && |run| <= |run'| && run'[..|run|] == run && q[0] in Last(run')
    ensures TwoPaths(Ent(Last(run')[q[0]].rtable, m.dst), p, q)
    ensures Last(run)[q[0]].outbox <= Last(run')[q[0]].outbox
  {
    var run1, r := SecondReply(run, k, ps, q, m, now, seqno);
    run' := SecondTaken(run1, k, ps, p, q, r, now);
    assert run'[..|run|] == run'[..|run1|][..|run|];
  }

  lemma SecondTaken(run: seq<Net.Network>, k: nat, ps: set<seq<Addr>>, p: seq<Addr>, q: seq<Addr>, r: Msg, now: real)
    returns (run': seq<Net.Network>)
    requires Going(run, k, ps, now) && q in ps && Net.Inv(Last(run)) && Homeward(Last(run), q, 1, r)
    requires Apart(p, q) && NoRepeats(p) && Found(Last(run)[q[0]], p, r.dstSeqno)
    requires Last(run)[q[0]].maxPaths >= 2 && |q| - |p| <= Last(run)[q[0]].lenDiff
    ensures Going(run', k, ps, now) && |run| <= |run'| && run'[..|run|] == run && q[0] in Last(run')
    ensures TwoPaths(Ent(Last(run')[q[0]].rtable, r.dst), p, q)
    ensures Last(run)[q[0]].outbox <= Last(run')[q[0]].outbox
  {
    SecondAtHome(Last(run), p, q, r, now);
    run' := OneMoreHop(run, k, ps, q, 1, 0, r, now);
    HandleSends(Last(run)[q[0]], Deliver(r, now));
  }

  lemma HandleSends(s: Node, ev: Event)
    requires NodeOk(s)
    ensures s.outbox <= Handle(s, ev).outbox
  {
    EventIds(s, ev);
  }

  /** From every reachable state: a node that may ask, with two paths to the destination that share only their ends
      and on which nobody knows a route, can get both. There is a run in which nothing happens but that its packet
      comes and that messages go from neighbour to neighbour along the two paths, after which its entry has exactly
      these two paths, and the packet has been sent along the first. The second one may be as much longer as both
      ends allow. */
  lemma TwoPathsFound(run: seq<Net.Network>, p: seq<Addr>, q: seq<Addr>, pkt: Packet, n: nat, now: real)
    returns (run': seq<Net.Network>)
    requires Net.Run(run) && OnPath(Last(run), p) && OnPath(Last(run), q) && Apart(p, q)
    requires |p| - 1 <= n <= 30 && |q| - 1 <= n && Unknowing(Last(run), p) && Unknowing(Last(run), q)
    requires var net, a, d := Last(run), p[0], p[|p| - 1];
             && MayAsk(net[a], d, n, now) && net[a].maxPaths >= 2
             && |q| - |p| <= net[a].lenDiff && |q| - |p| <= net[d].lenDiff && net[d].lenDiff >= 0
    requires pkt.saddr == p[0] && pkt.daddr == p[|p| - 1] && pkt.numForwards == 0 && pkt.daddr != IP_BROADCAST
    ensures Net.Run(run') && |run| < |run'| && run'[..|run|] == run
    ensures Net.StepAt(Last(run), run'[|run|], p[0], Originate(pkt, now)) && Along(run', |run|, {p, q}, now)
    ensures p[0] in Last(run') && TwoPaths(Ent(Last(run')[p[0]].rtable, pkt.daddr), p, q)
    ensures Data(pkt.(ttl := 30), p[1]) in Last(run')[p[0]].outbox
  {
    var run1, m := Starting(run, p, q, pkt, n, now);
    var run2, seqno := FirstThenReady(run1, |run|, p, q, m, now);
    run' := SecondFound(run2, |run|, {p, q}, p, q, m, now, seqno);
    assert run'[..|run|] == run'[..|run2|][..|run1|][..|run|];
    assert run'[|run|] == run'[..|run2|][..|run1|][|run|];
    PacketSent(Last(run1)[p[0]], Last(run2)[p[0]], pkt.(ttl := 30), p[1], now);
  }

  /** The first path is found, and everything is ready for the second. */
  lemma FirstThenReady(run: seq<Net.Network>, k: nat, p: seq<Addr>, q: seq<Addr>, m: Msg, now: real)
    returns (run': seq<Net.Network>, seqno: nat)
    requires Going(run, k, {p, q}, now) && Net.Inv(Last(run)) && |p| <= 31 && Apart(p, q)
    requires Outward(Last(run), p, 0, m) && Outward(Last(run), q, 0, m)
    requires Blank(Last(run)[p[0]], m.dst, m.dstSeqno) && Ent(Last(run)[m.dst].rtable, m.src).seqno < m.srcSeqno
    requires Last(run)[m.dst].lenDiff >= 0 && |q| - |p| <= Last(run)[m.dst].lenDiff
    ensures Going(run', k, {p, q}, now) && Net.Inv(Last(run')) && |run| <= |run'| && run'[..|run|] == run
    ensures Outward(Last(run'), q, 0, m) && Found(Last(run')[p[0]], p, seqno)
    ensures Last(run')[m.dst].seqno == seqno && seqno % 2 == 0 && m.dstSeqno <= seqno
    ensures var s, s' := Last(run)[p[0]], Last(run')[p[0]];
            && SameRest(s, s') && s.outbox <= s'.outbox
            && AsData(Leaving(s.rqueue, m.dst, s.index, now), p[1]) <= s'.outbox[|s.outbox|..]
  {
    run', seqno := FirstFound(run, k, {p, q}, p, m, now);
    StillReady(Last(run), Last(run'), p, q, m);
    assert NodeOk(Last(run)[m.dst]);
  }

  /** The packet that was put into the buffer last has been sent with the others. */
  lemma PacketSent(s: Node, s': Node, p: Packet, via: Addr, now: real)
    requires s.rqueue != [] && s.rqueue[|s.rqueue| - 1] == Buffered(p, now + 30.0) && p.ttl != 0 && p.daddr != s.index
    requires s.outbox <= s'.outbox
    requires AsData(Leaving(s.rqueue, p.daddr, s.index, now), via) <= s'.outbox[|s.outbox|..]
    ensures Data(p, via) in s'.outbox
  {
    LeavesInTime(s.rqueue, |s.rqueue| - 1, s.index, now);
    DataFor(Leaving(s.rqueue, p.daddr, s.index, now), p, via);
    SentStays(s.outbox, s'.outbox, AsData(Leaving(s.rqueue, p.daddr, s.index, now), via), Data(p, via));
  }

  lemma {:induction false} DataFor(ps: seq<Packet>, p: Packet, via: Addr)
    requires p in ps
    ensures Data(p, via) in AsData(ps, via)
  {
    if ps[0] != p { DataFor(ps[1..], p, via); }
  }

  lemma SentStays(before: seq<Msg>, after: seq<Msg>, sent: seq<Msg>, m: Msg)
    requires before <= after && sent <= after[|before|..] && m in sent
    ensures m in after
  {
    var k :| 0 <= k < |sent| && sent[k] == m;
    assert after[|before|..][k] == m;
  }

  /** The packet comes, and the request is ready to go along both paths. */
  lemma Starting(run: seq<Net.Network>, p: seq<Addr>, q: seq<Addr>, pkt: Packet, n: nat, now: real)
    returns (run1: seq<Net.Network>, m: Msg)
    requires Net.Run(run) && OnPath(Last(run), p) && OnPath(Last(run), q) && Apart(p, q)
    requires |p| - 1 <= n <= 30 && |q| - 1 <= n && Unknowing(Last(run), p) && Unknowing(Last(run), q)
    requires MayAsk(Last(run)[p[0]], p[|p| - 1], n, now)
    requires pkt.saddr == p[0] && pkt.daddr == p[|p| - 1] && pkt.numForwards == 0 && pkt.daddr != IP_BROADCAST
    ensures |run1| == |run| + 1 && run1[..|run|] == run && Net.Inv(Last(run1)) && Going(run1, |run|, {p, q}, now)
    ensures Net.StepAt(Last(run), Last(run1), p[0], Originate(pkt, now)) && Last(run1).Keys == Last(run).Keys
    ensures Outward(Last(run1), p, 0, m) && Outward(Last(run1), q, 0, m)
    ensures Ent(Last(run1)[m.dst].rtable, m.src).seqno < m.srcSeqno
    ensures Last(run1)[m.dst] == Last(run)[m.dst]
    ensures var s, s' := Last(run)[p[0]], Last(run1)[p[0]];
            && Blank(s', m.dst, m.dstSeqno) && s'.maxPaths == s.maxPaths && s'.lenDiff == s.lenDiff
            && s'.rqueue == Enque(s.rqueue, pkt.(ttl := 30), now) && s'.index == p[0]
  {
    var net, a, d := Last(run), p[0], p[|p| - 1];
    Net.RunInv(run, |run| - 1);
    RunIds(run, |run| - 1);
    assert net[a].index == a && p[0] != p[|p| - 1];
    var s' := Handle(net[a], Originate(pkt, now));
    var net1 := net[a := s'];
    Asks(net[a], pkt, n, now);
    m := Request(net[a], d, now);
    ReadyAlong(net, p, s', n, now);
    ReadyAlong(net, q, s', n, now);
    assert Net.StepAt(net, net1, a, Originate(pkt, now));
    assert Net.Step(net, net1);
    AppendStep(run, net1);
    run1 := run + [net1];
    Net.RunInv(run1, |run1| - 1);
    EventIds(net[a], Originate(pkt, now));
  }
}
