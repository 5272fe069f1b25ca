/** AODV finds routes. */
module AodvDiscovery {
  // Whatever the network has been through, a request can go out and its answer can come back.

  import opened Common
  import opened RouteQueue
  import opened OnDemand
  import opened Aodv
  import opened AodvSteps
  import opened AodvNetwork
  import opened AodvEffects
  import opened AodvUpkeep
  import opened AodvIds

  // ---------------------------------------------------------------- messages along a path

  /** A path of different nodes of the network. */
  ghost predicate Simple(net: Network, p: seq<Addr>) {
    NoRepeats(p) && forall i: nat :: i < |p| ==> p[i] in net && net[p[i]].index == p[i]
  }

  predicate Beside(i: nat, j: nat) {
    i == j + 1 || j == i + 1
  }

  /** A message that node p[i] has sent, for everybody or for p[j], reaches its neighbour p[j] on the path. */
  ghost predicate Hop(net: Network, net': Network, p: seq<Addr>, i: nat, j: nat, m: Msg, now: real) {
    && i < |p| && j < |p| && Beside(i, j) && p[i] in net && p[j] in net
    && m in net[p[i]].outbox && (m.Rrep? ==> m.nextHop == p[j])
    && net' == net[p[j] := Handle(net[p[j]], Deliver(m, now), false)]
  }

  ghost predicate SomeHop(net: Network, net': Network, p: seq<Addr>, now: real) {
    exists i: nat, j: nat, m :: Hop(net, net', p, i, j, m, now)
  }

  /** From place k of the run on, messages go from neighbour to neighbour along the path and nothing else happens. */
  ghost predicate Along(run: seq<Network>, k: nat, p: seq<Addr>, now: real) {
    forall x: nat :: k <= x < |run| - 1 ==> SomeHop(run[x], run[x + 1], p, now)
  }

  function Last(run: seq<Network>): Network
    requires run != []
  {
    run[|run| - 1]
  }

  lemma HopIsStep(net: Network, net': Network, p: seq<Addr>, i: nat, j: nat, m: Msg, now: real)
    requires Hop(net, net', p, i, j, m, now)
    ensures Step(net, net', false)
  {
    var x := p[i];
    var k :| 0 <= k < |net[x].outbox| && net[x].outbox[k] == m;
    assert x in net && net[x].outbox[k] == m;
    assert Sent(net, m);
    assert StepAt(net, net', false, p[j], Deliver(m, now));
  }

  lemma OneMoreHop(run: seq<Network>, net': Network, k: nat, p: seq<Addr>, i: nat, j: nat, m: Msg, now: real)
    requires Run(run, false) && k < |run| && Along(run, k, p, now) && Hop(Last(run), net', p, i, j, m, now)
    ensures Run(run + [net'], false) && Along(run + [net'], k, p, now)
  {
    HopIsStep(Last(run), net', p, i, j, m, now);
    AppendStep(run, net');
    assert SomeHop(Last(run), net', p, now);
    AppendHop(run, net', k, p, now);
  }

  lemma AppendStep(run: seq<Network>, net': Network)
    requires Run(run, false) && Step(Last(run), net', false)
    ensures Run(run + [net'], false)
  {
    var run' := run + [net'];
    forall x | 0 <= x < |run'| - 1 ensures Step(run'[x], run'[x + 1], false) {
      if x < |run| - 1 { assert Step(run[x], run[x + 1], false); }
    }
  }

  lemma AppendHop(run: seq<Network>, net': Network, k: nat, p: seq<Addr>, now: real)
    requires k < |run| && Along(run, k, p, now) && SomeHop(Last(run), net', p, now)
    ensures Along(run + [net'], k, p, now)
  {
    var run' := run + [net'];
    forall x: nat | k <= x < |run'| - 1 ensures SomeHop(run'[x], run'[x + 1], p, now) {
      if x < |run| - 1 { assert SomeHop(run[x], run[x + 1], p, now); }
    }
  }

  function LastSent(s: Node): Msg
    requires s.outbox != []
  {
    s.outbox[|s.outbox| - 1]
  }

  // ---------------------------------------------------------------- the way out

  /** Node s cannot do better than what a request for dst asks for, and would take any answer to it. */
  predicate Wants(s: Node, dst: Addr, wanted: nat) {
    R(s, dst).seqno <= wanted && (R(s, dst).hops.Infinite? || R(s, dst).seqno < wanted)
  }

  /** Node s has not heard of the request and of no number as large as the one that its source gives. */
  ghost predicate NotYet(s: Node, m: Msg)
    requires m.Rreq?
  {
    s.index != m.src && !Heard(s, m) && R(s, m.src).seqno < m.srcSeqno
  }

  /** The node at place j of the path knows the way back to its start. */
  predicate KnowsWay(s: Node, p: seq<Addr>, j: nat, seqno: nat)
    requires 0 < j < |p|
  {
    R(s, p[0]) == Route(seqno, Finite(j), Up, p[j - 1])
  }

  /** The request for the end of the path has come as far as place i, where it was sent on last. */
  ghost predicate Outward(net: Network, p: seq<Addr>, i: nat, m: Msg) {
    && |p| >= 2 && i < |p| - 1 && Simple(net, p) && net[p[i]].outbox != [] && LastSent(net[p[i]]) == m
    && m.Rreq? && m.saddr == p[i] && m.src == p[0] && m.dst == p[|p| - 1] && m.hopCount == i + 1
    && m.ttl >= |p| - 1 - i
    && (forall j: nat :: 0 < j <= i ==> KnowsWay(net[p[j]], p, j, m.srcSeqno))
    && (forall j: nat :: j <= i ==> Wants(net[p[j]], m.dst, m.dstSeqno))
    && (forall j: nat :: i < j < |p| ==> NotYet(net[p[j]], m))
  }

  /** The answer has come back as far as place c; whoever is still before it will take it. */
  ghost predicate Homeward(net: Network, p: seq<Addr>, c: nat, r: Msg, seqno: nat) {
    && 0 < c < |p| && Simple(net, p) && net[p[c]].outbox != [] && LastSent(net[p[c]]) == r
    && r.Rrep? && r.daddr == p[0] && r.nextHop == p[c - 1] && r.dst == p[|p| - 1] && r.src == p[c] && r.ttl >= c
    && (forall j: nat :: 0 < j < c ==> KnowsWay(net[p[j]], p, j, seqno))
    && (forall j: nat :: j < c ==> Wants(net[p[j]], r.dst, r.dstSeqno))
  }

  /** What the next node on the path makes of the request. */
  lemma RequestArrives(s: Node, m: Msg, now: real, via: Addr)
    requires m.Rreq? && NotYet(s, m) && m.saddr == via && m.src != m.dst
    ensures var s' := Handle(s, Deliver(m, now), false);
            && s'.index == s.index && R(s', m.src) == Route(m.srcSeqno, Finite(m.hopCount), Up, via)
            && R(s', m.dst) == R(s, m.dst)
            && (Saying(s', m, s'.seqno, now) != [] ==>
                  s'.outbox != [] && LastSent(s') == Saying(s', m, s'.seqno, now)[0])
            && (s.index == m.dst ==> s'.seqno > m.dstSeqno)
  {
    RequestRoutes(s, m, now, false);
    RequestKeeps(s, m, now, false);
    RequestSends(s, m, now, false);
  }

  /** The next node on the path has become s', with the way back in its table. */
  ghost predicate Advanced(net: Network, p: seq<Addr>, i: nat, m: Msg, s': Node) {
    && Outward(net, p, i, m) && s'.index == p[i + 1] && KnowsWay(s', p, i + 1, m.srcSeqno) && s'.outbox != []
  }

  lemma GoesOn(net: Network, p: seq<Addr>, i: nat, m: Msg, s': Node)
    requires Advanced(net, p, i, m, s') && i + 2 < |p|
    requires var m' := LastSent(s');
             && m'.Rreq? && m'.saddr == p[i + 1] && m'.src == m.src && m'.dst == m.dst && m'.hopCount == i + 2
             && m'.srcSeqno == m.srcSeqno && m'.bcastId == m.bcastId && m'.ttl == m.ttl - 1
             && m'.dstSeqno >= m.dstSeqno && Wants(s', m'.dst, m'.dstSeqno)
    ensures Outward(net[p[i + 1] := s'], p, i + 1, LastSent(s'))
  {
    var net' := net[p[i + 1] := s'];
    assert forall j: nat :: j < |p| && j != i + 1 ==> p[j] != p[i + 1];
    assert forall j: nat :: j < |p| && j != i + 1 ==> net'[p[j]] == net[p[j]];
  }

  lemma TurnsBack(net: Network, p: seq<Addr>, i: nat, m: Msg, s': Node)
    requires Advanced(net, p, i, m, s') && |p| <= 31
    requires var r := LastSent(s');
             && r.Rrep? && r.daddr == m.src && r.nextHop == p[i] && r.dst == m.dst && r.src == p[i + 1] && r.ttl == 30
             && r.dstSeqno >= m.dstSeqno
    ensures Homeward(net[p[i + 1] := s'], p, i + 1, LastSent(s'), m.srcSeqno)
  {
    var net' := net[p[i + 1] := s'];
    assert forall j: nat :: j < |p| && j != i + 1 ==> p[j] != p[i + 1];
    assert forall j: nat :: j < |p| && j != i + 1 ==> net'[p[j]] == net[p[j]];
    forall j: nat | j < i + 1 ensures Wants(net'[p[j]], m.dst, LastSent(s').dstSeqno) {
      assert Wants(net[p[j]], m.dst, m.dstSeqno);
    }
  }

  /** What the next node says. */
  lemma Says(s: Node, m: Msg, now: real, via: Addr, last: bool)
    requires m.Rreq? && NotYet(s, m) && m.saddr == via && m.src != m.dst && last == (s.index == m.dst)
    requires last || m.ttl != 1
    ensures var s' := Handle(s, Deliver(m, now), false);
            && s'.outbox != []
            && var m' := LastSent(s');
               if m'.Rreq? then
                 && !last && m' == Rreq(s.index, m.ttl - 1, m.hopCount + 1, m.bcastId, m.dst, m'.dstSeqno, m.src,
                                        m.srcSeqno, m.timestamp)
                 && m'.dstSeqno >= m.dstSeqno && Wants(s', m.dst, m'.dstSeqno)
               else
                 && m'.Rrep? && m'.daddr == m.src && m'.nextHop == via && m'.dst == m.dst && m'.src == s.index
                 && m'.ttl == 30 && m'.dstSeqno >= m.dstSeqno
  {
    RequestArrives(s, m, now, via);
  }

  /** One more node on the way out: the request goes on, or its answer turns back. */
  lemma OutwardStep(net: Network, p: seq<Addr>, i: nat, m: Msg, now: real) returns (net': Network, m': Msg)
    requires Outward(net, p, i, m) && |p| <= 31
    ensures Hop(net, net', p, i, i + 1, m, now) && net'[p[0]] == net[p[0]]
    ensures if m'.Rreq? then
              i + 2 < |p| && Outward(net', p, i + 1, m') && m'.dstSeqno >= m.dstSeqno && m'.srcSeqno == m.srcSeqno
            else Homeward(net', p, i + 1, m', m.srcSeqno) && m'.dstSeqno >= m.dstSeqno
  {
    var s := net[p[i + 1]];
    var s' := Handle(s, Deliver(m, now), false);
    net' := net[p[i + 1] := s'];
    assert NotYet(s, m) && p[0] != p[|p| - 1] && p[0] != p[i + 1];
    assert i + 2 < |p| ==> p[i + 1] != p[|p| - 1];
    RequestArrives(s, m, now, p[i]);
    Says(s, m, now, p[i], i + 2 == |p|);
    m' := LastSent(s');
    if m'.Rreq? { GoesOn(net, p, i, m, s'); } else { TurnsBack(net, p, i, m, s'); }
  }

  // ---------------------------------------------------------------- the way home

  /** What a node on the path makes of the answer: it learns the route and passes the answer on. */
  lemma ReplyArrives(s: Node, r: Msg, now: real, via: Addr)
    requires r.Rrep? && News(s, r.dst, r.dstSeqno, r.hopCount) && s.index != r.daddr && r.daddr != r.dst && r.ttl != 1
    requires R(s, r.daddr).hops.Finite? && R(s, r.daddr).nexthop == via
    ensures var s' := Handle(s, Deliver(r, now), false);
            && s'.index == s.index && s'.outbox != []
            && LastSent(s') == Rrep(r.daddr, via, r.ttl - 1, r.hopCount + 1, r.dst, r.dstSeqno, s.index, r.lifetime,
                                    r.timestamp)
            && R(s', r.dst) == Route(r.dstSeqno, Finite(r.hopCount), Up, r.src)
  {
    ReplyRoutes(s, r, now, false);
    ReplySends(s, r, now, false);
  }

  lemma ComesCloser(net: Network, p: seq<Addr>, c: nat, r: Msg, seqno: nat, s': Node)
    requires Homeward(net, p, c, r, seqno) && c >= 2 && s'.index == p[c - 1] && s'.outbox != []
    requires var r' := LastSent(s');
             && r'.Rrep? && r'.daddr == r.daddr && r'.nextHop == p[c - 2] && r'.dst == r.dst && r'.src == p[c - 1]
             && r'.ttl == r.ttl - 1 && r'.dstSeqno == r.dstSeqno
    ensures Homeward(net[p[c - 1] := s'], p, c - 1, LastSent(s'), seqno)
  {
    var net' := net[p[c - 1] := s'];
    assert forall j: nat :: j < |p| && j != c - 1 ==> p[j] != p[c - 1];
    assert forall j: nat :: j < |p| && j != c - 1 ==> net'[p[j]] == net[p[j]];
  }

  lemma HomewardStep(net: Network, p: seq<Addr>, c: nat, r: Msg, seqno: nat, now: real) returns (net': Network)
    requires Homeward(net, p, c, r, seqno) && c >= 2
    ensures Hop(net, net', p, c, c - 1, r, now) && net'[p[0]] == net[p[0]] && net'[p[c - 1]].outbox != []
    ensures var r' := LastSent(net'[p[c - 1]]);
            Homeward(net', p, c - 1, r', seqno) && r'.dstSeqno == r.dstSeqno && r'.hopCount == r.hopCount + 1
  {
    var s := net[p[c - 1]];
    var s' := Handle(s, Deliver(r, now), false);
    net' := net[p[c - 1] := s'];
    assert KnowsWay(s, p, c - 1, seqno) && Wants(s, r.dst, r.dstSeqno) && p[0] != p[c - 1] && p[0] != p[|p| - 1];
    ReplyArrives(s, r, now, p[c - 2]);
    ComesCloser(net, p, c, r, seqno, s');
  }

  // ---------------------------------------------------------------- there and back

  /** run' is run, gone on with by messages along the path, in which its first node has not taken part. */
  ghost predicate Continued(run: seq<Network>, run': seq<Network>, k: nat, p: seq<Addr>, now: real) {
    && k < |run| <= |run'| && run'[..|run|] == run && Run(run', false) && Along(run', k, p, now)
    && |p| > 0 && p[0] in Last(run) && p[0] in Last(run') && Last(run')[p[0]] == Last(run)[p[0]]
  }

  lemma ContinuedTrans(run0: seq<Network>, run1: seq<Network>, run2: seq<Network>, k: nat, p: seq<Addr>, now: real)
    requires Continued(run0, run1, k, p, now) && Continued(run1, run2, k, p, now)
    ensures Continued(run0, run2, k, p, now)
  {
    assert run2[..|run0|] == run2[..|run1|][..|run0|];
  }

  lemma ContinuedOnce(run: seq<Network>, net': Network, k: nat, p: seq<Addr>, i: nat, j: nat, m: Msg, now: real)
    requires Run(run, false) && k < |run| && Along(run, k, p, now) && Hop(Last(run), net', p, i, j, m, now)
    requires p[0] in Last(run) && p[0] in net' && net'[p[0]] == Last(run)[p[0]]
    ensures Continued(run, run + [net'], k, p, now)
  {
    OneMoreHop(run, net', k, p, i, j, m, now);
  }

  ghost predicate OutwardRun(run: seq<Network>, k: nat, p: seq<Addr>, i: nat, m: Msg, now: real) {
    Run(run, false) && k < |run| && Along(run, k, p, now) && Outward(Last(run), p, i, m) && |p| <= 31
  }

  lemma OutwardOnce(run: seq<Network>, k: nat, p: seq<Addr>, i: nat, m: Msg, now: real)
    returns (run': seq<Network>, m': Msg)
    requires OutwardRun(run, k, p, i, m, now)
    ensures Continued(run, run', k, p, now)
    ensures if m'.Rreq? then
              && i + 2 < |p| && OutwardRun(run', k, p, i + 1, m', now)
              && m'.srcSeqno == m.srcSeqno && m'.dstSeqno >= m.dstSeqno
            else Homeward(Last(run'), p, i + 1, m', m.srcSeqno) && m'.dstSeqno >= m.dstSeqno
  {
    var net';
    net', m' := OutwardStep(Last(run), p, i, m, now);
    run' := run + [net'];
    ContinuedOnce(run, net', k, p, i, i + 1, m, now);
    assert Last(run') == net';
  }

  /** The request reaches a node that answers it. */
  lemma GoOut(run: seq<Network>, k: nat, p: seq<Addr>, i: nat, m: Msg, now: real)
    returns (run': seq<Network>, c: nat, r: Msg)
    requires OutwardRun(run, k, p, i, m, now)
    ensures Continued(run, run', k, p, now) && Homeward(Last(run'), p, c, r, m.srcSeqno)
    ensures r.dstSeqno >= m.dstSeqno
    decreases |p| - i
  {
    var run1, m' := OutwardOnce(run, k, p, i, m, now);
    if m'.Rreq? {
      run', c, r := GoOut(run1, k, p, i + 1, m', now);
      ContinuedTrans(run, run1, run', k, p, now);
    } else {
      run', c, r := run1, i + 1, m';
    }
  }

  /** The answer reaches the first node after the source. */
  lemma ComeHome(run: seq<Network>, k: nat, p: seq<Addr>, c: nat, r: Msg, seqno: nat, now: real)
    returns (run': seq<Network>, r': Msg)
    requires Run(run, false) && k < |run| && Along(run, k, p, now) && Homeward(Last(run), p, c, r, seqno)
    ensures Continued(run, run', k, p, now) && Homeward(Last(run'), p, 1, r', seqno)
    ensures r'.dstSeqno == r.dstSeqno && r'.hopCount == r.hopCount + c - 1
    decreases c
  {
    if c == 1 {
      run', r' := run, r;
    } else {
      var net' := HomewardStep(Last(run), p, c, r, seqno, now);
      var run1 := run + [net'];
      ContinuedOnce(run, net', k, p, c, c - 1, r, now);
      run', r' := ComeHome(run1, k, p, c - 1, LastSent(net'[p[c - 1]]), seqno, now);
      ContinuedTrans(run, run1, run', k, p, now);
    }
  }

  // ---------------------------------------------------------------- a whole search

  /** Node s may ask for dst now, and its request may travel as many as n hops. */
  predicate MayAsk(s: Node, dst: Addr, n: nat, now: real) {
    var e := Ent(s.rtable, dst);
    e.flags != Up && e.reqTimeout <= now && e.reqCnt <= 3 && n <= RingTtl(e)
  }

  /** The first node of the path has a packet for the last one, and asks. */
  lemma Asking(run: seq<Network>, p: seq<Addr>, pkt: Packet, now: real) returns (net': Network, m: Msg)
    requires Run(run, false) && |p| >= 2 && Simple(Last(run), p) && MayAsk(Last(run)[p[0]], p[|p| - 1], |p| - 1, now)
    requires pkt.saddr == p[0] && pkt.daddr == p[|p| - 1] && pkt.numForwards == 0 && pkt.daddr != IP_BROADCAST
    ensures StepAt(Last(run), net', false, p[0], Originate(pkt, now)) && Outward(net', p, 0, m)
    ensures m.dstSeqno == R(Last(run)[p[0]], pkt.daddr).seqno
    ensures net'[p[0]].rqueue == Enque(Last(run)[p[0]].rqueue, pkt.(ttl := 30), now)
  {
    var net, dst := Last(run), pkt.daddr;
    var s := net[p[0]];
    var s' := Handle(s, Originate(pkt, now), false);
    net' := net[p[0] := s'];
    DataEffect(s, pkt, false, now);
    ResolveOwn(s, pkt.(ttl := 30), now);
    m := LastSent(s');
    RunInv(run, |run| - 1);
    RunIds(run, |run| - 1);
    assert RouteOk(R(s, dst)) && R(s', dst) == R(s, dst);
    forall j: nat | 0 < j < |p| ensures p[j] != p[0] && NotYet(net'[p[j]], m) {
      assert RouteInv(net, p[j], p[0]) && Rt(net, p[j], p[0]) == R(net[p[j]], p[0]);
      NotHeard(net, p[j], p[0]);
    }
  }

  /** Nobody has heard of the next request of a node. */
  lemma NotHeard(net: Network, n: Addr, src: Addr)
    requires IdsInv(net) && n in net && src in net
    ensures forall k: nat :: k < |net[n].bihead| ==> !(net[n].bihead[k].src == src && net[n].bihead[k].id == net[src].bid)
  {
    forall k: nat | k < |net[n].bihead|
      ensures !(net[n].bihead[k].src == src && net[n].bihead[k].id == net[src].bid)
    {
      assert Issued(net, net[n].bihead[k].src, net[n].bihead[k].id);
    }
  }

  lemma {:induction false} DataFor(ps: seq<Packet>, p: Packet, via: Addr)
    requires p in ps
    ensures Data(p, via) in AsData(ps, via)
  {
    if ps[0] != p { DataFor(ps[1..], p, via); }
  }

  /** The source takes the answer and sends the packet. */
  lemma Arriving(net: Network, p: seq<Addr>, r: Msg, seqno: nat, pkt: Packet, now: real) returns (net': Network)
    requires Homeward(net, p, 1, r, seqno) && net[p[0]].rqueue != []
    requires pkt.daddr == r.dst && pkt.ttl != 0
    requires net[p[0]].rqueue[|net[p[0]].rqueue| - 1] == Buffered(pkt, now + 30.0)
    ensures Hop(net, net', p, 1, 0, r, now)
    ensures R(net'[p[0]], r.dst) == Route(r.dstSeqno, Finite(r.hopCount), Up, p[1])
    ensures Data(pkt, p[1]) in net'[p[0]].outbox
  {
    var s := net[p[0]];
    net' := net[p[0] := Handle(s, Deliver(r, now), false)];
    assert Wants(s, r.dst, r.dstSeqno) && p[0] != p[|p| - 1];
    ReplyRoutes(s, r, now, false);
    ReplySends(s, r, now, false);
    LeavesInTime(s.rqueue, |s.rqueue| - 1, s.index, now);
    DataFor(Leaving(s.rqueue, r.dst, s.index, now), pkt, p[1]);
  }

  /** From every reachable state, along every path of at most 30 hops that the ring of the next request covers, a node
      that may ask can get a route: there is a run in which nothing happens but that its packet comes and that messages
      go from neighbour to neighbour along the path, after which it has a route through its neighbour, with a number
      at least as large as it knew, and has sent the packet. */
  lemma DiscoverySucceeds(run: seq<Network>, p: seq<Addr>, pkt: Packet, now: real)
    returns (run': seq<Network>, seqno: nat, hops: nat)
    requires Run(run, false) && 2 <= |p| <= 31 && NoRepeats(p) && forall i: nat :: i < |p| ==> p[i] in Last(run)
    requires pkt.saddr == p[0] && pkt.daddr == p[|p| - 1] && pkt.numForwards == 0 && pkt.daddr != IP_BROADCAST
    requires MayAsk(Last(run)[p[0]], p[|p| - 1], |p| - 1, now)
    ensures Run(run', false) && |run| < |run'| && run'[..|run|] == run
    ensures StepAt(Last(run), run'[|run|], false, p[0], Originate(pkt, now)) && Along(run', |run|, p, now)
    ensures p[0] in Last(run') && var s' := Last(run')[p[0]];
            && R(s', pkt.daddr) == Route(seqno, Finite(hops), Up, p[1])
            && seqno >= R(Last(run)[p[0]], pkt.daddr).seqno
            && Data(pkt.(ttl := 30), p[1]) in s'.outbox
  {
    RunInv(run, |run| - 1);
    var net1, m := Asking(run, p, pkt, now);
    var run1 := run + [net1];
    assert Step(Last(run), net1, false);
    AppendStep(run, net1);
    assert Last(run1) == net1;
    var run2, c, r := GoOut(run1, |run|, p, 0, m, now);
    var run3, r' := ComeHome(run2, |run|, p, c, r, m.srcSeqno, now);
    ContinuedTrans(run1, run2, run3, |run|, p, now);
    var net4 := Arriving(Last(run3), p, r', m.srcSeqno, pkt.(ttl := 30), now);
    OneMoreHop(run3, net4, |run|, p, 1, 0, r', now);
    run', seqno, hops := run3 + [net4], r'.dstSeqno, r'.hopCount;
    assert run'[..|run|] == run3[..|run1|][..|run|] && run'[|run|] == run3[..|run1|][|run|];
  }
}
