/** AODV nodes and everything they sent. */
module AodvNetwork {
  // Every message ever sent may reach any node at any time, once, often or never. Built without
  // AODV_LOCAL_REPAIR the routes of the nodes never form a loop.

  import opened Common
  import opened OnDemand
  import opened Aodv
  import opened AodvSteps

  type Network = map<Addr, Node>

  ghost predicate Init(net: Network) {
    forall n :: n in net ==> net[n] == NewNode(n)
  }

  ghost predicate Sent(net: Network, m: Msg) {
    exists x, k :: x in net && 0 <= k < |net[x].outbox| && net[x].outbox[k] == m
  }

  /** One event at one node. Time is whatever the event says it is. */
  ghost predicate StepAt(net: Network, net': Network, localRepair: bool, n: Addr, ev: Event) {
    && n in net
    && (ev.Deliver? ==> Sent(net, ev.m))
    && net' == net[n := Handle(net[n], ev, localRepair)]
  }

  ghost predicate Step(net: Network, net': Network, localRepair: bool) {
    exists n, ev :: StepAt(net, net', localRepair, n, ev)
  }

  ghost predicate Run(run: seq<Network>, localRepair: bool) {
    && run != [] && Init(run[0])
    && forall i :: 0 <= i < |run| - 1 ==> Step(run[i], run[i + 1], localRepair)
  }

  // ---------------------------------------------------------------- the invariant

  /** The own number of a destination; nobody issues numbers for addresses outside the network. */
  function Own(net: Network, d: Addr): nat {
    if d in net then net[d].seqno else 0
  }

  /** The route of node n to d. */
  function Rt(net: Network, n: Addr, d: Addr): Route
    requires n in net
  {
    R(net[n], d)
  }

  predicate FresherRoute(a: Route, b: Route) {
    Fresher(a.seqno, a.hops, b.seqno, b.hops)
  }

  predicate AsFreshRoute(a: Route, b: Route) {
    AsFresh(a.seqno, a.hops, b.seqno, b.hops)
  }

  /** Numbers for d stay under the control of d, and the next hop always knows better. */
  ghost predicate RouteInv(net: Network, n: Addr, d: Addr)
    requires n in net
  {
    var r := Rt(net, n, d);
    && r.seqno <= Own(net, d) + 1
    && (r.flags == Up ==>
          && r.seqno <= Own(net, d) && r.nexthop in net
          && (r.nexthop != d ==> FresherRoute(Rt(net, r.nexthop, d), r)))
  }

  ghost predicate AdvertInv(net: Network, x: Addr, a: Advert)
    requires x in net
  {
    && a.from == x && AdvertOk(a) && a.seqno <= Own(net, a.dst)
    && (a.dst == x || AsFresh(Rt(net, x, a.dst).seqno, Rt(net, x, a.dst).hops, a.seqno, Finite(a.hops - 1)))
  }

  ghost predicate ReportInv(net: Network, us: seq<Unreachable>) {
    forall i :: 0 <= i < |us| ==> us[i].seqno <= Own(net, us[i].dst) + 1 && LostNumber(us[i].seqno)
  }

  ghost predicate MessageInv(net: Network, x: Addr, m: Msg)
    requires x in net
  {
    && (AdvertOf(m).Some? ==> AdvertInv(net, x, AdvertOf(m).value))
    && (m.Rreq? ==> m.dstSeqno <= Own(net, m.dst) + 1)
    && (m.Rerr? ==> ReportInv(net, m.unreachable))
  }

  ghost predicate Inv(net: Network) {
    && (forall n :: n in net ==> net[n].index == n && NodeOk(net[n]))
    && (forall n, d {:trigger Rt(net, n, d)} :: n in net ==> RouteInv(net, n, d))
    && (forall x, k {:trigger net[x].outbox[k]} :: x in net && 0 <= k < |net[x].outbox|
          ==> MessageInv(net, x, net[x].outbox[k]))
  }

  lemma InitInv(net: Network)
    requires Init(net)
    ensures Inv(net)
  {
    forall n, d | n in net ensures RouteInv(net, n, d) && RouteOk(Rt(net, n, d)) {
      assert Rt(net, n, d) == RouteOf(FRESH_ENTRY);
    }
    forall n | n in net ensures NodeOk(net[n]) {
      forall d ensures RouteOk(R(net[n], d)) { assert R(net[n], d) == RouteOf(FRESH_ENTRY); }
    }
  }

  // ---------------------------------------------------------------- preservation

  /** What one event at node n does, seen from the network. */
  ghost predicate Moves(net: Network, net': Network, n: Addr, inp: Option<Msg>) {
    && n in net && n in net' && net'.Keys == net.Keys
    && (forall x :: x in net && x != n ==> net'[x] == net[x])
    && Legal(net[n], net'[n], inp)
    && (inp.Some? ==> exists x, k :: x in net && 0 <= k < |net[x].outbox| && net[x].outbox[k] == inp.value)
  }

  lemma OwnGrows(net: Network, net': Network, n: Addr, inp: Option<Msg>, d: Addr)
    requires Moves(net, net', n, inp)
    ensures Own(net', d) >= Own(net, d)
  {
  }

  lemma RoutesGrow(net: Network, net': Network, n: Addr, inp: Option<Msg>, x: Addr, d: Addr)
    requires Moves(net, net', n, inp) && x in net
    ensures AsFreshRoute(Rt(net', x, d), Rt(net, x, d))
  {
    if x == n { assert RouteStep(R(net[n], d), R(net'[n], d), d, inp); }
  }

  lemma FreshTrans(a: Route, b: Route, c: Route)
    requires (AsFreshRoute(a, b) && FresherRoute(b, c)) || (FresherRoute(a, b) && AsFreshRoute(b, c))
    ensures FresherRoute(a, c)
  {
  }

  /** Whatever a received message offers is backed by its sender. */
  lemma InputInv(net: Network, inp: Msg) returns (x: Addr)
    requires Inv(net) && Sent(net, inp)
    ensures x in net && MessageInv(net, x, inp) && InputOk(inp)
  {
    var y, k :| y in net && 0 <= k < |net[y].outbox| && net[y].outbox[k] == inp;
    assert MessageInv(net, y, net[y].outbox[k]);
    x := y;
  }

  lemma LearnedInv(net: Network, net': Network, n: Addr, inp: Msg, d: Addr)
    requires Inv(net) && Moves(net, net', n, Some(inp)) && Learned(Rt(net, n, d), Rt(net', n, d), d, Some(inp))
    ensures RouteInv(net', n, d)
  {
    var x := InputInv(net, inp);
    var a := AdvertOf(inp).value;
    OwnGrows(net, net', n, Some(inp), d);
    if x != d {
      RoutesGrow(net, net', n, Some(inp), x, d);
      assert AdvertInv(net, x, a);
      if x == n {
        assert false;  // the node's own offer is never better than what it has
      }
    }
  }

  lemma LostInv(net: Network, net': Network, n: Addr, inp: Option<Msg>, d: Addr)
    requires Inv(net) && Moves(net, net', n, inp) && Lost(Rt(net, n, d), Rt(net', n, d), d, inp)
    ensures RouteInv(net', n, d)
  {
    OwnGrows(net, net', n, inp, d);
    assert RouteInv(net, n, d);
    var r' := Rt(net', n, d);
    if r'.seqno != Rt(net, n, d).seqno + 1 {
      var x := InputInv(net, inp.value);
      assert ReportInv(net, inp.value.unreachable);
    }
  }

  lemma SameInv(net: Network, net': Network, n: Addr, inp: Option<Msg>, x: Addr, d: Addr)
    requires Inv(net) && Moves(net, net', n, inp) && x in net && Rt(net', x, d) == Rt(net, x, d)
    ensures RouteInv(net', x, d)
  {
    OwnGrows(net, net', n, inp, d);
    var r := Rt(net, x, d);
    assert RouteInv(net, x, d);
    if r.flags == Up && r.nexthop != d {
      RoutesGrow(net, net', n, inp, r.nexthop, d);
      FreshTrans(Rt(net', r.nexthop, d), Rt(net, r.nexthop, d), r);
    }
  }

  lemma RouteInvKept(net: Network, net': Network, n: Addr, inp: Option<Msg>, x: Addr, d: Addr)
    requires Inv(net) && Moves(net, net', n, inp) && x in net
    ensures RouteInv(net', x, d)
  {
    if x == n {
      assert RouteStep(R(net[n], d), R(net'[n], d), d, inp);
      if Rt(net', n, d) == Rt(net, n, d) { SameInv(net, net', n, inp, n, d); }
      else if Learned(Rt(net, n, d), Rt(net', n, d), d, inp) { LearnedInv(net, net', n, inp.value, d); }
      else { LostInv(net, net', n, inp, d); }
    } else {
      SameInv(net, net', n, inp, x, d);
    }
  }

  lemma OldMessage(net: Network, net': Network, n: Addr, inp: Option<Msg>, x: Addr, m: Msg)
    requires Inv(net) && Moves(net, net', n, inp) && x in net && MessageInv(net, x, m)
    ensures MessageInv(net', x, m)
  {
    forall d ensures Own(net', d) >= Own(net, d) { OwnGrows(net, net', n, inp, d); }
    if AdvertOf(m).Some? { RoutesGrow(net, net', n, inp, x, AdvertOf(m).value.dst); }
  }

  /** A message sent in this event, given that the routes of its sender are in order again. */
  lemma NewMessage(net: Network, net': Network, n: Addr, inp: Option<Msg>, m: Msg)
    requires Inv(net) && Moves(net, net', n, inp) && net'[n].index == n && MaySend(net'[n], m, inp)
    requires forall d {:trigger Rt(net', n, d)} :: RouteInv(net', n, d)
    ensures MessageInv(net', n, m)
  {
    if OwnMessage(net'[n], m) {
      if m.Rreq? { assert RouteInv(net', n, m.dst); }
      if m.Rerr? {
        forall i | 0 <= i < |m.unreachable| ensures m.unreachable[i].seqno <= Own(net', m.unreachable[i].dst) + 1 {
          assert RouteInv(net', n, m.unreachable[i].dst);
        }
      }
    } else {
      var a := AdvertOf(m).value;
      var x := InputInv(net, inp.value);
      OwnGrows(net, net', n, inp, a.dst);
      assert RouteInv(net', n, a.dst);
      if m.Rreq? {
        OwnGrows(net, net', n, inp, m.dst);
        assert RouteInv(net', n, m.dst);
      }
    }
  }

  lemma InvKept(net: Network, net': Network, n: Addr, inp: Option<Msg>)
    requires Inv(net) && Moves(net, net', n, inp)
    ensures Inv(net')
  {
    forall x, d | x in net' ensures RouteInv(net', x, d) {
      RouteInvKept(net, net', n, inp, x, d);
    }
    forall x, k | x in net' && 0 <= k < |net'[x].outbox| ensures MessageInv(net', x, net'[x].outbox[k]) {
      if x == n && k >= |net[n].outbox| {
        NewMessage(net, net', n, inp, net'[n].outbox[k]);
      } else {
        assert net'[x].outbox[k] == net[x].outbox[k];
        OldMessage(net, net', n, inp, x, net[x].outbox[k]);
      }
    }
  }

  lemma StepMoves(net: Network, net': Network, n: Addr, ev: Event)
    requires Inv(net) && StepAt(net, net', false, n, ev)
    ensures Moves(net, net', n, if ev.Deliver? then Some(ev.m) else None)
  {
    if ev.Deliver? { var x := InputInv(net, ev.m); }
    EventLegal(net[n], ev);
  }

  /** Every event of every node keeps the invariant. */
  lemma StepInv(net: Network, net': Network)
    requires Inv(net) && Step(net, net', false)
    ensures Inv(net')
  {
    var n, ev :| StepAt(net, net', false, n, ev);
    StepMoves(net, net', n, ev);
    InvKept(net, net', n, if ev.Deliver? then Some(ev.m) else None);
  }

  lemma {:induction false} RunInv(run: seq<Network>, i: nat)
    requires Run(run, false) && i < |run|
    ensures Inv(run[i])
  {
    if i == 0 {
      InitInv(run[0]);
    } else {
      RunInv(run, i - 1);
      assert Step(run[i - 1], run[i - 1 + 1], false);
      StepInv(run[i - 1], run[i]);
    }
  }

  // ---------------------------------------------------------------- loop freedom

  /** p follows next hops towards d; all but its last node have a route and are not d. */
  ghost predicate Follows(net: Network, d: Addr, p: seq<Addr>) {
    && p != [] && (forall i :: 0 <= i < |p| ==> p[i] in net)
    && forall i :: 0 <= i < |p| - 1 ==>
         p[i] != d && Rt(net, p[i], d).flags == Up && Rt(net, p[i], d).nexthop == p[i + 1]
  }

  /** Packets for d never come back to a node they have left. */
  ghost predicate LoopFree(net: Network) {
    forall d, p, i, j :: Follows(net, d, p) && 0 <= i < j < |p| ==> p[i] != p[j]
  }

  /** Along next hops, route information only gets fresher. */
  lemma {:induction false} FresherAlong(net: Network, d: Addr, p: seq<Addr>, i: nat, j: nat)
    requires Inv(net) && Follows(net, d, p) && i < j < |p| && p[j] != d
    ensures FresherRoute(Rt(net, p[j], d), Rt(net, p[i], d))
  {
    assert RouteInv(net, p[j - 1], d);
    assert p[j - 1 + 1] == p[j];
    if i < j - 1 {
      FresherAlong(net, d, p, i, j - 1);
      FreshTrans(Rt(net, p[j], d), Rt(net, p[j - 1], d), Rt(net, p[i], d));
    }
  }

  lemma InvLoopFree(net: Network)
    requires Inv(net)
    ensures LoopFree(net)
  {
    forall d, p, i, j | Follows(net, d, p) && 0 <= i < j < |p| ensures p[i] != p[j] {
      if p[j] != d { FresherAlong(net, d, p, i, j); }
    }
  }

  /** In every reachable state of the network, for every destination, no next hops form a loop. */
  lemma AodvLoopFree(run: seq<Network>, i: nat)
    requires Run(run, false) && i < |run|
    ensures LoopFree(run[i])
  {
    RunInv(run, i);
    InvLoopFree(run[i]);
  }

  /** Following next hops from any node ends: at the destination, or at a node without a route. */
  ghost function Walk(net: Network, n: Addr, d: Addr): (p: seq<Addr>)
    requires Inv(net) && n in net
    ensures Follows(net, d, p) && p[0] == n
    ensures p[|p| - 1] == d || Rt(net, p[|p| - 1], d).flags != Up
    decreases Own(net, d) + 1 - Rt(net, n, d).seqno, if Rt(net, n, d).hops.Finite? then Rt(net, n, d).hops.n else 0
  {
    var r := Rt(net, n, d);
    assert RouteInv(net, n, d);
    if n == d || r.flags != Up then [n]
    else if r.nexthop == d then [n, d]
    else
      assert RouteInv(net, r.nexthop, d);
      assert RouteOk(r) && RouteOk(Rt(net, r.nexthop, d));
      [n] + Walk(net, r.nexthop, d)
  }

  // ---------------------------------------------------------------- monotonicity and the number scheme

  lemma {:induction false} RunKeys(run: seq<Network>, i: nat, j: nat)
    requires Run(run, false) && i <= j < |run|
    ensures run[j].Keys == run[i].Keys
  {
    if i < j {
      RunKeys(run, i, j - 1);
      assert Step(run[j - 1], run[j - 1 + 1], false);
    }
  }

  /** No route of any node ever gets staler, whatever is lost, repeated or reordered. */
  lemma {:induction false} RoutesNeverStale(run: seq<Network>, i: nat, j: nat, n: Addr, d: Addr)
    requires Run(run, false) && i <= j < |run| && n in run[i]
    ensures n in run[j] && AsFreshRoute(Rt(run[j], n, d), Rt(run[i], n, d))
  {
    RunKeys(run, i, j);
    if i < j {
      RoutesNeverStale(run, i, j - 1, n, d);
      RunKeys(run, i, j - 1);
      RunInv(run, j - 1);
      assert Step(run[j - 1], run[j - 1 + 1], false);
      var x, ev :| StepAt(run[j - 1], run[j], false, x, ev);
      StepMoves(run[j - 1], run[j], x, ev);
      RoutesGrow(run[j - 1], run[j], x, if ev.Deliver? then Some(ev.m) else None, n, d);
    }
  }

  /** A node that loses a route with number s takes no route below s + 2 ever after. */
  lemma LostRouteNeedsNewNumber(run: seq<Network>, i: nat, k: nat, j: nat, n: Addr, d: Addr)
    requires Run(run, false) && i < k < j < |run| && n in run[i]
    requires n in run[k] && n in run[j]
    requires Rt(run[i], n, d).flags == Up && Rt(run[k], n, d).flags != Up && Rt(run[j], n, d).flags == Up
    ensures Rt(run[j], n, d).seqno >= Rt(run[i], n, d).seqno + 2
  {
    RoutesNeverStale(run, i, k, n, d);
    RoutesNeverStale(run, k, j, n, d);
    RunInv(run, i);
    RunInv(run, k);
    RunInv(run, j);
    assert RouteOk(Rt(run[i], n, d)) && RouteOk(Rt(run[k], n, d)) && RouteOk(Rt(run[j], n, d));
  }

  /** Only the destination issues even numbers: every route in use carries one that it has issued,
      and everything else in the network is at most one ahead of it. */
  lemma DestinationControls(run: seq<Network>, i: nat, n: Addr, d: Addr)
    requires Run(run, false) && i < |run| && n in run[i]
    ensures var r := Rt(run[i], n, d);
            if r.flags == Up then r.seqno % 2 == 0 && 2 <= r.seqno <= Own(run[i], d)
            else LostNumber(r.seqno) && r.seqno <= Own(run[i], d) + 1
  {
    RunInv(run, i);
    assert RouteInv(run[i], n, d) && RouteOk(Rt(run[i], n, d));
  }

  /** A destination that answers a request of any run advances its number by exactly two. */
  lemma AnswerAdvancesByTwo(run: seq<Network>, i: nat, n: Addr, m: Msg)
    requires Run(run, false) && i < |run| && n in run[i] && m.Rreq? && m.dst == n && Sent(run[i], m)
    ensures AnswerSeqno(run[i][n].seqno, m.dstSeqno) == run[i][n].seqno + 2
  {
    RunInv(run, i);
    var x := InputInv(run[i], m);
    assert NodeOk(run[i][n]);
    AnswerSeqnoEven(run[i][n].seqno, m.dstSeqno);
  }
}
