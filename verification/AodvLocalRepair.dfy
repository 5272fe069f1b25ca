/** AODV with local repair. */
module AodvLocalRepair {
  // Built with AODV_LOCAL_REPAIR the network can form a loop; without it it cannot.

  import opened Common
  import opened RouteQueue
  import opened OnDemand
  import opened Aodv
  import opened AodvSteps
  import opened AodvNetwork

  // ---------------------------------------------------------------- runs as they come about

  /** An event and the node that it happens to. */
  datatype Act = Act(n: Addr, ev: Event)

  /** A message for one node reaches no other. */
  predicate Reaches(m: Msg, n: Addr) {
    match m
    case Rrep(_, nextHop, _, _, _, _, _, _, _) => nextHop == n
    case Data(_, nextHop) => nextHop == n || nextHop == IP_BROADCAST
    case Rreq(_, _, _, _, _, _, _, _, _) => true
    case Rerr(_, _) => true
    case Hello(_, _) => true
  }

  /** The failure of a packet for dst makes node s repair its route. */
  predicate StartsRepair(s: Node, ev: Event, dst: Addr) {
    && ev.LinkFailure? && ev.isData && ev.p.daddr == dst && dst != IP_BROADCAST && dst in s.rtable
    && RepairsLocally(s.rtable[dst], ev.p)
  }

  /** A repair that event j started sets its timer off when as much time has passed as its deadline says. */
  ghost predicate SetBy(run: seq<Network>, acts: seq<Act>, i: nat, dst: Addr, j: nat) {
    && j < i < |acts| <= |run| && acts[j].n == acts[i].n && acts[j].n in run[j] && acts[j].n in run[j + 1]
    && StartsRepair(run[j][acts[j].n], acts[j].ev, dst)
    && acts[i].ev.now == acts[j].ev.now + Ent(run[j + 1][acts[j].n].rtable, dst).reqTimeout
  }

  /** Messages reach those they are for; packets come from the nodes themselves and are for nodes of the network; a
      link fails for a packet that the node has sent; and a repair timer goes off when it is due. */
  ghost predicate Plausible(run: seq<Network>, acts: seq<Act>, i: nat) {
    && i < |acts| <= |run| && acts[i].n in run[i]
    && var n, s := acts[i].n, run[i][acts[i].n];
       match acts[i].ev
       case Deliver(m, _) => Reaches(m, n)
       case Originate(p, _) => p.saddr == n && p.numForwards == 0 && p.daddr in run[i]
       case LinkFailure(p, isData, nextHop, _) => isData && Data(p, nextHop) in s.outbox
       case RepairTimer(dst, _) => exists j :: SetBy(run, acts, i, dst, j)
       case RouteTimer(_) => true
       case BroadcastTimer(_) => true
       case NeighborTimer(_) => true
       case HelloTimer(_) => true
  }

  ghost predicate Comes(run: seq<Network>, acts: seq<Act>, i: nat, localRepair: bool) {
    i < |acts| < |run| && StepAt(run[i], run[i + 1], localRepair, acts[i].n, acts[i].ev) && Plausible(run, acts, i)
  }

  ghost predicate InOrder(acts: seq<Act>) {
    forall i, j :: 0 <= i < j < |acts| ==> acts[i].ev.now <= acts[j].ev.now
  }

  ghost predicate TimedRun(run: seq<Network>, acts: seq<Act>, localRepair: bool) {
    && |run| == |acts| + 1 && Init(run[0]) && InOrder(acts)
    && (forall i :: 0 <= i < |acts| ==> Comes(run, acts, i, localRepair))
  }

  lemma TimedIsRun(run: seq<Network>, acts: seq<Act>, localRepair: bool)
    requires TimedRun(run, acts, localRepair)
    ensures Run(run, localRepair)
  {
    forall i | 0 <= i < |run| - 1 ensures Step(run[i], run[i + 1], localRepair) {
      assert Comes(run, acts, i, localRepair);
      assert StepAt(run[i], run[i + 1], localRepair, acts[i].n, acts[i].ev);
    }
  }

  lemma StillPlausible(run: seq<Network>, acts: seq<Act>, i: nat, net: Network, act: Act)
    requires |run| == |acts| + 1 && Plausible(run, acts, i)
    ensures Plausible(run + [net], acts + [act], i)
  {
    if acts[i].ev.RepairTimer? {
      var j :| SetBy(run, acts, i, acts[i].ev.dst, j);
      assert SetBy(run + [net], acts + [act], i, acts[i].ev.dst, j);
    }
  }

  lemma StillComes(run: seq<Network>, acts: seq<Act>, i: nat, net: Network, act: Act)
    requires |run| == |acts| + 1 && Comes(run, acts, i, true)
    ensures Comes(run + [net], acts + [act], i, true)
  {
    StillPlausible(run, acts, i, net, act);
  }

  lemma LastComes(run: seq<Network>, acts: seq<Act>, n: Addr, ev: Event, net': Network)
    requires |run| == |acts| + 1 && StepAt(run[|acts|], net', true, n, ev)
    requires Plausible(run, acts + [Act(n, ev)], |acts|)
    ensures Comes(run + [net'], acts + [Act(n, ev)], |acts|, true)
  {
    if ev.RepairTimer? {
      var j :| SetBy(run, acts + [Act(n, ev)], |acts|, ev.dst, j);
      assert SetBy(run + [net'], acts + [Act(n, ev)], |acts|, ev.dst, j);
    }
  }

  lemma StillInOrder(acts: seq<Act>, act: Act)
    requires InOrder(acts) && (acts != [] ==> acts[|acts| - 1].ev.now <= act.ev.now)
    ensures InOrder(acts + [act])
  {
    var acts' := acts + [act];
    forall i, j | 0 <= i < j < |acts'| ensures acts'[i].ev.now <= acts'[j].ev.now {
      if i < |acts| - 1 && j == |acts| { assert acts[i].ev.now <= acts[|acts| - 1].ev.now; }
    }
  }

  /** One more event. */
  lemma Extend(run: seq<Network>, acts: seq<Act>, n: Addr, ev: Event) returns (run': seq<Network>, acts': seq<Act>)
    requires TimedRun(run, acts, true)
    requires n in run[|acts|] && (ev.Deliver? ==> Sent(run[|acts|], ev.m))
    requires acts != [] ==> acts[|acts| - 1].ev.now <= ev.now
    requires Plausible(run, acts + [Act(n, ev)], |acts|)
    ensures TimedRun(run', acts', true) && acts' == acts + [Act(n, ev)]
    ensures |run'| == |run| + 1 && run'[..|run|] == run
    ensures run'[|run|] == run[|acts|][n := Handle(run[|acts|][n], ev, true)]
  {
    var net, act := run[|acts|], Act(n, ev);
    var net' := net[n := Handle(net[n], ev, true)];
    run', acts' := run + [net'], acts + [act];
    StillInOrder(acts, act);
    forall i | 0 <= i < |acts'| ensures Comes(run', acts', i, true) {
      if i < |acts| { StillComes(run, acts, i, net', act); } else { LastComes(run, acts, n, ev, net'); }
    }
  }

  // ---------------------------------------------------------------- four nodes in a line

  // Node 1 looks for node 4, which answers a packet that fails at node 2, on its last hop.

  const ToFour := Packet(1, 4, 0, 0)
  const ToOne := Packet(4, 1, 0, 0)
  const FirstRequest := Rreq(1, 30, 1, 1, 4, 0, 1, 4, 0.0)
  const RepairRequest := Rreq(2, 30, 1, 1, 1, 4, 2, 4, 0.07)
  const StaleReply := Rrep(2, 2, 30, 3, 1, 4, 3, 9.0, 0.07)

  /** The packet for node 1 when it has been heard so often. */
  function OnItsWay(heard: nat): Packet {
    Packet(4, 1, 30 - heard, heard)
  }

  /** A table that holds a route to node 1 and nothing else. */
  function OneRoute(hops: nat, via: Addr, expire: real): Table {
    map[1 := FRESH_ENTRY.(seqno := 4, hops := Finite(hops), flags := Up, nexthop := via, expire := expire)]
  }

  /** A node that has learned its route to node 1 at this time, and what it has sent. */
  predicate HasLearned(s: Node, index: nat, learned: real, expire: real) {
    && index > 0 && s.index == index && s.seqno == 2 && s.bid == 1 && s.rqueue == [] && s.rlist == [1]
    && s.rtable == OneRoute(index - 1, index - 1, expire) && s.bihead == [BroadcastId(1, 1, learned + 6.0)]
  }

  lemma EmptyFlush(s: Node, dst: Addr, now: real)
    requires s.rqueue == []
    ensures Flush(s, dst, now) == s
  {
    assert Purge(s.rqueue, now) == [];
  }

  /** Node 1 looks for node 4. */
  lemma Searches(s: Node)
    requires s == NewNode(1)
    ensures Handle(s, Originate(ToFour, 0.0), true).outbox == [FirstRequest]
  {
    assert Ent(s.rtable, 4) == FRESH_ENTRY;
  }

  /** The request as node index hears it. */
  function Heard(index: Addr): Msg {
    FirstRequest.(saddr := index - 1, ttl := 32 - index, hopCount := if index >= 2 then index - 1 else 0)
  }

  /** Each node on the way learns the way back to 1, and passes the request on or, at the end, answers it. */
  lemma Hears(s: Node, index: nat, now: real)
    requires 2 <= index <= 4 && s == NewNode(index) && now >= 0.0
    ensures var s' := Handle(s, Deliver(Heard(index), now), true);
            && |s'.outbox| == 1
            && if index < 4 then HasLearned(s', index, now, now + 6.0) && s'.outbox[0] == Heard(index + 1)
               else s'.index == 4 && s'.rqueue == [] && s'.rtable == OneRoute(3, 3, now + 6.0)
  {
    var m := Heard(index);
    var s1 := s.(bihead := IdInsert(s.bihead, 1, 1, now));
    var e := FRESH_ENTRY.(expire := now + 6.0);
    assert Ent(s1.rtable, 1) == FRESH_ENTRY;
    EmptyFlush(Store(s1, 1, ReverseEntry(e, m, now)), 1, now);
    var s2 := ReverseRoute(s1, m, now);
    assert s2 == Store(s1, 1, ReverseEntry(e, m, now));
    assert !CanAnswer(s2.rtable, m);
  }

  /** Node 4 sends a packet to node 1. */
  lemma Sends(s: Node, expire: real)
    requires s.index == 4 && s.rqueue == [] && s.rtable == OneRoute(3, 3, expire)
    ensures Handle(s, Originate(ToOne, 0.04), true).outbox == s.outbox + [Data(OnItsWay(0), 3)]
  {
    assert Ent(s.rtable, 1) == s.rtable[1];
  }

  /** Nodes 3 and 2 pass it on. */
  lemma Passes(s: Node, index: nat, learned: real, heard: nat, now: real)
    requires 2 <= index <= 3 && heard < 10 && HasLearned(s, index, learned, learned + 6.0)
    ensures var s' := Handle(s, Deliver(Data(OnItsWay(heard), index), now), true);
            && HasLearned(s', index, learned, now + 10.0)
            && s'.outbox == s.outbox + [Data(OnItsWay(heard + 1), index - 1)]
  {
    assert Ent(s.rtable, 1) == s.rtable[1];
  }

  /** Node 2 finds its link to 1 broken and starts a repair. */
  lemma Repairs(s: Node)
    requires HasLearned(s, 2, 0.01, 10.06)
    ensures var ev := LinkFailure(OnItsWay(2), true, 1, 0.07);
            var s' := Handle(s, ev, true);
            && StartsRepair(s, ev, 1) && s'.index == 2 && s'.outbox == s.outbox + [RepairRequest]
            && 1 in s'.rtable && R(s', 1) == Route(4, Finite(1), InRepair, 1) && s'.rtable[1].reqTimeout == 1.87
  {
    var p := OnItsWay(2);
    var s1 := s.(rqueue := Enque(s.rqueue, p, 0.07));
    var s2 := Store(s1, 1, Ent(s1.rtable, 1).(flags := InRepair));
    assert Handle(s, LinkFailure(p, true, 1, 0.07), true) == SendRequest(s2, 1, 0.07);
    RequestedRoute(Ent(s2.rtable, 1), 0.07);
    assert CountPositive([0.0, 0.0, 0.0]) == 0 by {
      assert [0.0, 0.0, 0.0][1..] == [0.0, 0.0] && [0.0, 0.0][1..] == [0.0] && [0.0][1..] == [];
    }
    assert PerHopTime(Ent(s2.rtable, 1)) == 0.03;
  }

  /** Node 3, whose way to 1 leads through 2, answers 2 from its table. */
  lemma AnswersFromTable(s: Node)
    requires HasLearned(s, 3, 0.02, 10.05) && |s.outbox| == 2
    ensures var s' := Handle(s, Deliver(RepairRequest, 0.08), true);
            |s'.outbox| == 3 && s'.outbox[2] == StaleReply && R(s', 1) == Route(4, Finite(2), Up, 2)
  {
    var m := RepairRequest;
    assert !IdSeen(s.bihead, 2, 1);
    var s1 := s.(bihead := IdInsert(s.bihead, 2, 1, 0.08));
    var e := FRESH_ENTRY.(expire := 6.08);
    EmptyFlush(Store(s1, 2, ReverseEntry(e, m, 0.08)), 2, 0.08);
    var s2 := ReverseRoute(s1, m, 0.08);
    assert s2 == Store(s1, 2, ReverseEntry(e, m, 0.08));
    assert Ent(s2.rtable, 1) == s.rtable[1];
    assert CanAnswer(s2.rtable, m);
    assert CastU32(10.05 - 0.08) == 9.0;
  }

  /** Node 2 gives the repair up without counting its number on. */
  lemma GivesUp(s: Node, now: real)
    requires s.index == 2 && 1 in s.rtable && R(s, 1) == Route(4, Finite(1), InRepair, 1)
    ensures R(Handle(s, RepairTimer(1, now), true), 1) == Route(4, Infinite, Down, 0)
    ensures Handle(s, RepairTimer(1, now), true).index == 2
  {
  }

  /** So node 2 takes the stale offer of node 3. */
  lemma TakesStaleOffer(s: Node, now: real)
    requires s.index == 2 && R(s, 1) == Route(4, Infinite, Down, 0)
    ensures R(Handle(s, Deliver(StaleReply, now), true), 1) == Route(4, Finite(3), Up, 3)
  {
    var e1 := ReplyEntry(Ent(s.rtable, 1), StaleReply, true, now);
    FlushSame(Store(s, 1, e1), 1, now);
    var s' := Flush(Store(s, 1, e1), 1, now);
    assert R(s', 1) == R(Store(s, 1, e1), 1);
  }

  lemma SentAt(net: Network, x: Addr, k: nat)
    requires x in net && k < |net[x].outbox|
    ensures Sent(net, net[x].outbox[k]) && net[x].outbox[k] in net[x].outbox
  {
  }

  /** Node 1 searches. */
  lemma Starting() returns (run: seq<Network>, acts: seq<Act>)
    ensures TimedRun(run, acts, true) && |acts| == 1 && acts[0].ev.now == 0.0
    ensures var net := run[1];
            && net.Keys == {1, 2, 3, 4} && net[1].outbox == [FirstRequest]
            && net[2] == NewNode(2) && net[3] == NewNode(3) && net[4] == NewNode(4)
  {
    var net0: Network := map n | n in {1, 2, 3, 4} :: NewNode(n);
    Searches(net0[1]);
    run, acts := Extend([net0], [], 1, Originate(ToFour, 0.0));
  }

  /** The others learn their routes to it. */
  lemma Asking() returns (run: seq<Network>, acts: seq<Act>)
    ensures TimedRun(run, acts, true) && |acts| == 2 && acts[1].ev.now == 0.01
    ensures var net := run[2];
            && net.Keys == {1, 2, 3, 4} && HasLearned(net[2], 2, 0.01, 6.01) && net[2].outbox == [Heard(3)]
            && net[3] == NewNode(3) && net[4] == NewNode(4)
  {
    run, acts := Starting();
    SentAt(run[1], 1, 0);
    Hears(run[1][2], 2, 0.01);
    run, acts := Extend(run, acts, 2, Deliver(Heard(2), 0.01));
  }

  lemma Learning() returns (run: seq<Network>, acts: seq<Act>)
    ensures TimedRun(run, acts, true) && |acts| == 4 && acts[3].ev.now == 0.03
    ensures var net := run[4];
            && net.Keys == {1, 2, 3, 4}
            && HasLearned(net[2], 2, 0.01, 6.01) && |net[2].outbox| == 1
            && HasLearned(net[3], 3, 0.02, 6.02) && |net[3].outbox| == 1
            && net[4].index == 4 && net[4].rqueue == [] && net[4].rtable == OneRoute(3, 3, 6.03) && |net[4].outbox| == 1
  {
    run, acts := Asking();
    SentAt(run[2], 2, 0);
    Hears(run[2][3], 3, 0.02);
    run, acts := Extend(run, acts, 3, Deliver(Heard(3), 0.02));
    SentAt(run[3], 3, 0);
    Hears(run[3][4], 4, 0.03);
    run, acts := Extend(run, acts, 4, Deliver(Heard(4), 0.03));
  }

  /** Node 4 sends its packet, which comes as far as node 2. */
  lemma Sending() returns (run: seq<Network>, acts: seq<Act>)
    ensures TimedRun(run, acts, true) && |acts| == 7 && acts[6].ev.now == 0.06
    ensures var net := run[7];
            && net.Keys == {1, 2, 3, 4}
            && HasLearned(net[2], 2, 0.01, 10.06) && |net[2].outbox| == 2 && net[2].outbox[1] == Data(OnItsWay(2), 1)
            && HasLearned(net[3], 3, 0.02, 10.05) && |net[3].outbox| == 2
  {
    run, acts := Learning();
    Sends(run[4][4], 6.03);
    run, acts := Extend(run, acts, 4, Originate(ToOne, 0.04));
    SentAt(run[5], 4, 1);
    Passes(run[5][3], 3, 0.02, 0, 0.05);
    run, acts := Extend(run, acts, 3, Deliver(Data(OnItsWay(0), 3), 0.05));
    SentAt(run[6], 3, 1);
    Passes(run[6][2], 2, 0.01, 1, 0.06);
    run, acts := Extend(run, acts, 2, Deliver(Data(OnItsWay(1), 2), 0.06));
  }

  /** Node 2 starts to repair its route. */
  lemma Breaking() returns (run: seq<Network>, acts: seq<Act>)
    ensures TimedRun(run, acts, true) && |acts| == 8 && run[7].Keys == run[8].Keys == {1, 2, 3, 4}
    ensures acts[7] == Act(2, LinkFailure(OnItsWay(2), true, 1, 0.07))
    ensures StartsRepair(run[7][2], acts[7].ev, 1) && Ent(run[8][2].rtable, 1).reqTimeout == 1.87
    ensures run[8][2].index == 2 && 1 in run[8][2].rtable && R(run[8][2], 1) == Route(4, Finite(1), InRepair, 1)
    ensures |run[8][2].outbox| == 3 && run[8][2].outbox[2] == RepairRequest
    ensures HasLearned(run[8][3], 3, 0.02, 10.05) && |run[8][3].outbox| == 2
  {
    run, acts := Sending();
    SentAt(run[7], 2, 1);
    Repairs(run[7][2]);
    run, acts := Extend(run, acts, 2, LinkFailure(OnItsWay(2), true, 1, 0.07));
  }

  /** Node 3 answers its request. */
  lemma Repairing() returns (run: seq<Network>, acts: seq<Act>)
    ensures TimedRun(run, acts, true) && |acts| == 9 && run[9].Keys == {1, 2, 3, 4} && acts[8].ev.now == 0.08
    ensures acts[7] == Act(2, LinkFailure(OnItsWay(2), true, 1, 0.07))
    ensures run[7].Keys == run[8].Keys == {1, 2, 3, 4}
    ensures StartsRepair(run[7][2], acts[7].ev, 1) && Ent(run[8][2].rtable, 1).reqTimeout == 1.87
    ensures run[9][2].index == 2 && 1 in run[9][2].rtable && R(run[9][2], 1) == Route(4, Finite(1), InRepair, 1)
    ensures |run[9][3].outbox| == 3 && run[9][3].outbox[2] == StaleReply && R(run[9][3], 1) == Route(4, Finite(2), Up, 2)
  {
    run, acts := Breaking();
    SentAt(run[8], 2, 2);
    AnswersFromTable(run[8][3]);
    ghost var before := run;
    run, acts := Extend(run, acts, 3, Deliver(RepairRequest, 0.08));
    assert run[7] == before[7] && run[8] == before[8];
  }

  /** Node 2 repairs its route in vain, and falls for the answer of node 3, which comes late. */
  lemma Falling() returns (run: seq<Network>, acts: seq<Act>)
    ensures TimedRun(run, acts, true) && |acts| == 11 && run[11].Keys == {1, 2, 3, 4}
    ensures R(run[11][2], 1) == Route(4, Finite(3), Up, 3) && R(run[11][3], 1) == Route(4, Finite(2), Up, 2)
  {
    run, acts := Repairing();
    GivesUp(run[9][2], 1.94);
    assert SetBy(run, acts + [Act(2, RepairTimer(1, 1.94))], 9, 1, 7);
    run, acts := Extend(run, acts, 2, RepairTimer(1, 1.94));
    SentAt(run[10], 3, 2);
    TakesStaleOffer(run[10][2], 2.0);
    run, acts := Extend(run, acts, 2, Deliver(StaleReply, 2.0));
  }

  lemma TwoCycle(net: Network)
    requires 2 in net && 3 in net
    requires R(net[2], 1) == Route(4, Finite(3), Up, 3) && R(net[3], 1) == Route(4, Finite(2), Up, 2)
    ensures !LoopFree(net)
  {
    var p := [2, 3, 2];
    assert Rt(net, 2, 1).nexthop == 3 && Rt(net, 3, 1).nexthop == 2;
    assert Follows(net, 1, p) && p[0] == p[2];
  }

  /** Eleven events, in the order of time, after which nodes 2 and 3 send the packets for node 1 to each other. */
  lemma LoopingRun() returns (run: seq<Network>, acts: seq<Act>)
    ensures TimedRun(run, acts, true) && !LoopFree(run[|acts|])
  {
    run, acts := Falling();
    TwoCycle(run[11]);
  }

  /** Routes are free of loops in every reachable state exactly when the agents are built without local repair: among
      all runs, and among those whose events come about as in a network. */
  lemma LoopFreeIffNoLocalRepair(localRepair: bool)
    ensures (forall run, i :: Run(run, localRepair) && 0 <= i < |run| ==> LoopFree(run[i])) <==> !localRepair
    ensures (forall run, acts, i :: TimedRun(run, acts, localRepair) && 0 <= i < |run| ==> LoopFree(run[i]))
            <==> !localRepair
  {
    if localRepair {
      var run, acts := LoopingRun();
      TimedIsRun(run, acts, true);
    } else {
      forall run, i | Run(run, false) && 0 <= i < |run| ensures LoopFree(run[i]) {
        AodvLoopFree(run, i);
      }
      forall run, acts, i | TimedRun(run, acts, false) && 0 <= i < |run| ensures LoopFree(run[i]) {
        TimedIsRun(run, acts, false);
        AodvLoopFree(run, i);
      }
    }
  }

  // ---------------------------------------------------------------- runs in which nothing is repaired

  /** A run whose event i is acts[i]. */
  ghost predicate EventRun(run: seq<Network>, acts: seq<Act>, localRepair: bool) {
    && |run| == |acts| + 1 && Init(run[0])
    && forall i {:trigger acts[i]} :: 0 <= i < |acts| ==>
         StepAt(run[i], run[i + 1], localRepair, acts[i].n, acts[i].ev)
  }

  /** No event of the run starts a repair. */
  ghost predicate NothingRepaired(run: seq<Network>, acts: seq<Act>) {
    forall i, dst :: 0 <= i < |acts| <= |run| && acts[i].n in run[i] ==> !StartsRepair(run[i][acts[i].n], acts[i].ev, dst)
  }

  lemma NoRepairTimeout(s: Node, dst: Addr)
    requires RouteOk(R(s, dst))
    ensures RepairTimeout(s, dst) == s
  {
    var e := Ent(s.rtable, dst);
    if dst in s.rtable && e.flags != Up {
      assert R(s, dst).flags == Down;
      assert RtDown(e) == e && s.rtable[dst := e] == s.rtable;
    }
  }

  /** An event that starts no repair does the same in both builds. */
  lemma SameInBothBuilds(s: Node, ev: Event)
    requires NodeOk(s) && forall dst :: !StartsRepair(s, ev, dst)
    ensures Handle(s, ev, true) == Handle(s, ev, false)
  {
    if ev.RepairTimer? {
      assert RouteOk(R(s, ev.dst));
      NoRepairTimeout(s, ev.dst);
    } else if ev.LinkFailure? {
      assert !StartsRepair(s, ev, ev.p.daddr);
    }
  }

  lemma {:induction false} NotRepairedIsPlain(run: seq<Network>, acts: seq<Act>, k: nat)
    requires EventRun(run, acts, true) && NothingRepaired(run, acts) && k <= |acts|
    ensures Run(run[..k + 1], false)
  {
    if k > 0 {
      NotRepairedIsPlain(run, acts, k - 1);
      var before, act := run[..k], acts[k - 1];
      RunInv(before, k - 1);
      assert before[k - 1] == run[k - 1] && StepAt(run[k - 1], run[k - 1 + 1], true, act.n, act.ev);
      SameInBothBuilds(run[k - 1][act.n], act.ev);
      assert StepAt(run[k - 1], run[k], false, act.n, act.ev);
      StepAppended(before, run[k]);
      assert run[..k + 1] == before + [run[k]];
    }
  }

  lemma StepAppended(run: seq<Network>, net: Network)
    requires Run(run, false) && Step(run[|run| - 1], net, false)
    ensures Run(run + [net], false)
  {
  }

  /** Also with local repair compiled in, a run in which no event starts a repair is free of loops. */
  lemma LoopNeedsRepair(run: seq<Network>, acts: seq<Act>, i: nat)
    requires EventRun(run, acts, true) && NothingRepaired(run, acts) && i < |run|
    ensures LoopFree(run[i])
  {
    NotRepairedIsPlain(run, acts, i);
    assert run[..i + 1][i] == run[i];
    AodvLoopFree(run[..i + 1], i);
  }

  /** Where the damage is done: the repair timer keeps a route from getting staler exactly when
      the route is not being repaired any more. */
  lemma RepairTimeoutStale(s: Node, dst: Addr)
    requires dst in s.rtable && (R(s, dst).hops == Infinite <==> R(s, dst).flags == Down)
    ensures AsFreshRoute(R(RepairTimeout(s, dst), dst), R(s, dst)) <==> R(s, dst).flags != InRepair
  {
  }
}
