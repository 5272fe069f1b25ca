/** AOMDV nodes and everything they sent. */
module AomdvNetwork {
  // Messages may be lost, repeated, reordered and heard by anyone: whichever of its paths each node
  // picks, packets never come back.

  import opened Common
  import opened OnDemand
  import opened Aomdv
  import opened AomdvSteps

  type Network = map<Addr, Node>

  /** Nodes may be configured differently. */
  ghost predicate Init(net: Network) {
    forall n :: n in net ==> net[n] == NewNode(n, net[n].maxPaths, net[n].lenDiff)
  }

  ghost predicate Sent(net: Network, m: Msg) {
    exists x, k :: x in net && 0 <= k < |net[x].outbox| && net[x].outbox[k] == m
  }

  /** One event at one node; what it receives is any message sent before. */
  ghost predicate StepAt(net: Network, net': Network, n: Addr, ev: Event) {
    n in net && (ev.Deliver? ==> Sent(net, ev.m)) && net' == net[n := Handle(net[n], ev)]
  }

  ghost predicate Step(net: Network, net': Network) {
    exists n, ev :: StepAt(net, net', n, ev)
  }

  ghost predicate Run(run: seq<Network>) {
    run != [] && Init(run[0]) && forall i :: 0 <= i < |run| - 1 ==> Step(run[i], run[i + 1])
  }

  // ---------------------------------------------------------------- the invariant

  function Own(net: Network, d: Addr): nat {
    if d in net then net[d].seqno else 0
  }

  /** The entry of node n for d. */
  function Rt(net: Network, n: Addr, d: Addr): Entry
    requires n in net
  {
    Ent(net[n].rtable, d)
  }

  /** Message k of node x tells a. */
  ghost predicate Tells(net: Network, x: Addr, k: int, a: Advert) {
    x in net && 0 <= k < |net[x].outbox| && AdvertOf(net[x].outbox[k]) == Some(a)
  }

  /** Some message sent so far tells a. */
  ghost predicate Told(net: Network, a: Advert) {
    exists x, k :: Tells(net, x, k, a)
  }

  /** Every path of the entry was offered by its next hop. */
  ghost predicate AllPathsTold(net: Network, e: Entry, d: Addr) {
    forall i {:trigger e.paths[i]} :: 0 <= i < |e.paths| ==>
      e.paths[i].hopcount >= 1
      && Told(net, Advert(e.paths[i].nexthop, d, e.seqno, e.paths[i].hopcount - 1))
  }

  /** Numbers for d stay under the control of d, and every path was offered by its next hop. */
  ghost predicate EntryInv(net: Network, n: Addr, d: Addr)
    requires n in net
  {
    var e := Rt(net, n, d);
    && e.seqno <= Own(net, d) + (if e.flags == Up then 0 else 1)
    && e.highestHeard <= Own(net, d) + 1
    && AllPathsTold(net, e, d)
  }

  /** What x has told about another node is still what its entry says, unless that has a newer number. */
  ghost predicate AdvertInv(net: Network, x: Addr, a: Advert)
    requires x in net
  {
    && a.from == x && AdvertOk(a) && a.seqno <= Own(net, a.dst)
    && (if a.dst == x then a.hops == 0
        else Rt(net, x, a.dst).seqno > a.seqno
             || (Rt(net, x, a.dst).seqno == a.seqno && Rt(net, x, a.dst).advHops == Finite(a.hops)))
  }

  ghost predicate MessageInv(net: Network, x: Addr, m: Msg)
    requires x in net
  {
    && (AdvertOf(m).Some? ==> AdvertInv(net, x, AdvertOf(m).value))
    && (m.Rreq? ==> m.dstSeqno <= Own(net, m.dst) + 1)
    && (m.Rerr? ==> forall i :: 0 <= i < |m.unreachable| ==>
          m.unreachable[i].seqno <= Own(net, m.unreachable[i].dst) + 1 && LostNumber(m.unreachable[i].seqno))
  }

  /** A node tells one hop count per destination and number. */
  ghost predicate Unambiguous(net: Network) {
    forall a, b :: Told(net, a) && Told(net, b) && a.from == b.from && a.dst == b.dst && a.seqno == b.seqno
      ==> a.hops == b.hops
  }

  lemma OneHopCount(net: Network, a: Advert, b: Advert)
    requires Unambiguous(net) && Told(net, a) && Told(net, b)
    requires a.from == b.from && a.dst == b.dst && a.seqno == b.seqno
    ensures a.hops == b.hops
  {
  }

  ghost predicate Inv(net: Network) {
    && (forall n :: n in net ==> net[n].index == n && NodeOk(net[n]))
    && (forall n, d {:trigger Rt(net, n, d)} :: n in net ==> EntryInv(net, n, d))
    && (forall x, k {:trigger net[x].outbox[k]} :: x in net && 0 <= k < |net[x].outbox|
          ==> MessageInv(net, x, net[x].outbox[k]))
    && Unambiguous(net)
  }

  lemma InitInv(net: Network)
    requires Init(net)
    ensures Inv(net)
  {
    forall n, d | n in net ensures EntryInv(net, n, d) {
      assert Rt(net, n, d) == FRESH_ENTRY;
    }
    forall n | n in net ensures NodeOk(net[n]) {
      forall d ensures EntryOk(Ent(net[n].rtable, d), net[n].maxPaths) { assert Ent(net[n].rtable, d) == FRESH_ENTRY; }
    }
  }

  // ---------------------------------------------------------------- preservation

  /** What one event at node n does, seen from the network. */
  ghost predicate Moves(net: Network, net': Network, n: Addr, inp: Option<Msg>) {
    && n in net && n in net' && net'.Keys == net.Keys
    && (forall x :: x in net && x != n ==> net'[x] == net[x])
    && Legal(net[n], net'[n], inp)
    && (inp.Some? ==> Sent(net, inp.value))
  }

  lemma OwnGrows(net: Network, net': Network, n: Addr, inp: Option<Msg>, d: Addr)
    requires Moves(net, net', n, inp)
    ensures Own(net', d) >= Own(net, d)
  {
  }

  lemma ToldStays(net: Network, net': Network, n: Addr, inp: Option<Msg>, a: Advert)
    requires Moves(net, net', n, inp) && Told(net, a)
    ensures Told(net', a)
  {
    var x, k :| Tells(net, x, k, a);
    if x == n { assert net'[n].outbox[k] == net[n].outbox[k]; }
    assert Tells(net', x, k, a);
  }

  /** Whatever a received message says is backed by its sender. */
  lemma InputInv(net: Network, inp: Msg) returns (x: Addr)
    requires Inv(net) && Sent(net, inp)
    ensures x in net && MessageInv(net, x, inp) && InputOk(inp)
    ensures AdvertOf(inp).Some? ==> Told(net, AdvertOf(inp).value)
  {
    var y, k :| y in net && 0 <= k < |net[y].outbox| && net[y].outbox[k] == inp;
    assert MessageInv(net, y, net[y].outbox[k]);
    if AdvertOf(inp).Some? { assert Tells(net, y, k, AdvertOf(inp).value); }
    x := y;
  }

  lemma PathTold(net: Network, net': Network, n: Addr, inp: Option<Msg>, d: Addr, i: nat)
    requires Inv(net) && Moves(net, net', n, inp) && i < |Rt(net', n, d).paths|
    ensures var e' := Rt(net', n, d);
            e'.paths[i].hopcount >= 1
            && Told(net', Advert(e'.paths[i].nexthop, d, e'.seqno, e'.paths[i].hopcount - 1))
  {
    var e, e' := Rt(net, n, d), Rt(net', n, d);
    var h, c := e'.paths[i].nexthop, e'.paths[i].hopcount;
    assert LinksFrom(e, e', d, inp) by { assert EntryStep(e, e', d, inp); }
    if Offers(inp, d, e'.seqno, h, c) {
      var x := InputInv(net, inp.value);
    } else {
      assert EntryInv(net, n, d);
      var j :| 0 <= j < |e.paths| && e.paths[j].nexthop == h && e.paths[j].hopcount == c;
    }
    ToldStays(net, net', n, inp, Advert(h, d, e'.seqno, c - 1));
  }

  lemma ReportedBound(net: Network, inp: Option<Msg>, d: Addr, q: nat)
    requires Inv(net) && (inp.Some? ==> Sent(net, inp.value)) && Reported(inp, d, q)
    ensures q <= Own(net, d) + 1
  {
    var x := InputInv(net, inp.value);
    var i :| 0 <= i < |inp.value.unreachable| && inp.value.unreachable[i] == Unreachable(d, q);
  }

  lemma NumberBound(net: Network, net': Network, n: Addr, inp: Option<Msg>, d: Addr)
    requires Inv(net) && Moves(net, net', n, inp)
    ensures Rt(net', n, d).seqno <= Own(net', d) + (if Rt(net', n, d).flags == Up then 0 else 1)
    ensures Rt(net', n, d).highestHeard <= Own(net', d) + 1
  {
    var e, e' := Rt(net, n, d), Rt(net', n, d);
    OwnGrows(net, net', n, inp, d);
    assert EntryStep(e, e', d, inp) && EntryInv(net, n, d) && EntryOk(e', net'[n].maxPaths);
    forall q: nat | Reported(inp, d, q) ensures q <= Own(net, d) + 1 { ReportedBound(net, inp, d, q); }
    if e'.flags == Up && e'.seqno != e.seqno {
      assert Offers(inp, d, e'.seqno, e'.paths[0].nexthop, e'.paths[0].hopcount);
      var x := InputInv(net, inp.value);
    }
  }

  lemma PathsStayTold(net: Network, net': Network, n: Addr, inp: Option<Msg>, e: Entry, d: Addr)
    requires Moves(net, net', n, inp) && AllPathsTold(net, e, d)
    ensures AllPathsTold(net', e, d)
  {
    forall i | 0 <= i < |e.paths|
      ensures e.paths[i].hopcount >= 1 && Told(net', Advert(e.paths[i].nexthop, d, e.seqno, e.paths[i].hopcount - 1))
    {
      ToldStays(net, net', n, inp, Advert(e.paths[i].nexthop, d, e.seqno, e.paths[i].hopcount - 1));
    }
  }

  lemma EntryInvKept(net: Network, net': Network, n: Addr, inp: Option<Msg>, x: Addr, d: Addr)
    requires Inv(net) && Moves(net, net', n, inp) && x in net
    ensures EntryInv(net', x, d)
  {
    if x == n {
      NumberBound(net, net', n, inp, d);
      forall i | 0 <= i < |Rt(net', n, d).paths|
        ensures Rt(net', n, d).paths[i].hopcount >= 1
        ensures Told(net', Advert(Rt(net', n, d).paths[i].nexthop, d, Rt(net', n, d).seqno,
                                  Rt(net', n, d).paths[i].hopcount - 1))
      {
        PathTold(net, net', n, inp, d, i);
      }
    } else {
      OwnGrows(net, net', n, inp, d);
      assert EntryInv(net, x, d);
      PathsStayTold(net, net', n, inp, Rt(net, x, d), d);
    }
  }

  lemma OldMessage(net: Network, net': Network, n: Addr, inp: Option<Msg>, x: Addr, m: Msg)
    requires Inv(net) && Moves(net, net', n, inp) && x in net && MessageInv(net, x, m)
    ensures MessageInv(net', x, m)
  {
    forall d ensures Own(net', d) >= Own(net, d) { OwnGrows(net, net', n, inp, d); }
    if AdvertOf(m).Some? && x == n {
      var d := AdvertOf(m).value.dst;
      assert EntryStep(Rt(net, n, d), Rt(net', n, d), d, inp);
    }
  }

  /** A message sent in this event, given that the entries of its sender are in order again. */
  lemma NewMessage(net: Network, net': Network, n: Addr, inp: Option<Msg>, m: Msg)
    requires Inv(net) && Moves(net, net', n, inp) && net'[n].index == n && MaySend(net'[n], m, inp)
    requires forall d {:trigger Rt(net', n, d)} :: EntryInv(net', n, d)
    ensures MessageInv(net', n, m)
  {
    if AdvertOf(m).Some? {
      var d := AdvertOf(m).value.dst;
      assert EntryInv(net', n, d) && EntryOk(Rt(net', n, d), net'[n].maxPaths);
    }
    if m.Rreq? {
      assert EntryInv(net', n, m.dst);
      if !(m.dstSeqno <= Rt(net', n, m.dst).seqno) {
        var x := InputInv(net, inp.value);
        OwnGrows(net, net', n, inp, m.dst);
      }
    }
    if m.Rerr? {
      forall i | 0 <= i < |m.unreachable|
        ensures m.unreachable[i].seqno <= Own(net', m.unreachable[i].dst) + 1 && LostNumber(m.unreachable[i].seqno)
      {
        assert EntryInv(net', n, m.unreachable[i].dst);
      }
    }
  }

  /** What was not told before is what the entry of its teller says now. */
  lemma NewlyTold(net: Network, net': Network, n: Addr, inp: Option<Msg>, a: Advert)
    requires Moves(net, net', n, inp) && Told(net', a) && !Told(net, a)
    ensures AdvertBacked(net'[n], a)
  {
    var x, k :| Tells(net', x, k, a);
    if x != n || k < |net[n].outbox| {
      assert net[x].outbox[k] == net'[x].outbox[k];
      assert Tells(net, x, k, a);
      assert false;
    }
    assert MaySend(net'[n], net'[n].outbox[k], inp);
  }

  ghost predicate AllMessagesInv(net: Network) {
    forall x, k {:trigger net[x].outbox[k]} :: x in net && 0 <= k < |net[x].outbox|
      ==> MessageInv(net, x, net[x].outbox[k])
  }

  lemma ToldInv(net: Network, a: Advert)
    requires AllMessagesInv(net) && Told(net, a)
    ensures a.from in net && AdvertInv(net, a.from, a)
  {
    var x, k :| Tells(net, x, k, a);
    assert MessageInv(net, x, net[x].outbox[k]);
  }

  /** Anything told about another node or itself, together with anything told in the last event. */
  lemma ToldOnce(net: Network, net': Network, n: Addr, inp: Option<Msg>, a: Advert, b: Advert)
    requires Moves(net, net', n, inp) && net'[n].index == n && AllMessagesInv(net')
    requires Told(net', a) && Told(net', b) && a.from == b.from && a.dst == b.dst && a.seqno == b.seqno
    requires !Told(net, a)
    ensures a.hops == b.hops
  {
    NewlyTold(net, net', n, inp, a);
    ToldInv(net', b);
  }

  lemma StaysUnambiguous(net: Network, net': Network, n: Addr, inp: Option<Msg>)
    requires Unambiguous(net) && Moves(net, net', n, inp) && net'[n].index == n && AllMessagesInv(net')
    ensures Unambiguous(net')
  {
    forall a, b | Told(net', a) && Told(net', b) && a.from == b.from && a.dst == b.dst && a.seqno == b.seqno
      ensures a.hops == b.hops
    {
      if !Told(net, a) { ToldOnce(net, net', n, inp, a, b); }
      else if !Told(net, b) { ToldOnce(net, net', n, inp, b, a); }
    }
  }

  lemma InvKept(net: Network, net': Network, n: Addr, inp: Option<Msg>)
    requires Inv(net) && Moves(net, net', n, inp)
    ensures Inv(net')
  {
    forall x, d | x in net' ensures EntryInv(net', x, d) {
      EntryInvKept(net, net', n, inp, x, d);
    }
    forall x, k | x in net' && 0 <= k < |net'[x].outbox| ensures MessageInv(net', x, net'[x].outbox[k]) {
      if x == n && k >= |net[n].outbox| {
        NewMessage(net, net', n, inp, net'[n].outbox[k]);
      } else {
        assert net'[x].outbox[k] == net[x].outbox[k];
        OldMessage(net, net', n, inp, x, net[x].outbox[k]);
      }
    }
    StaysUnambiguous(net, net', n, inp);
  }

  lemma StepMoves(net: Network, net': Network, n: Addr, ev: Event)
    requires Inv(net) && StepAt(net, net', n, ev)
    ensures Moves(net, net', n, Received(ev))
  {
    if ev.Deliver? { var x := InputInv(net, ev.m); }
    EventLegal(net[n], ev);
  }

  /** Every event of every node keeps the invariant. */
  lemma StepInv(net: Network, net': Network)
    requires Inv(net) && Step(net, net')
    ensures Inv(net')
  {
    var n, ev :| StepAt(net, net', n, ev);
    StepMoves(net, net', n, ev);
    InvKept(net, net', n, Received(ev));
  }

  lemma {:induction false} RunInv(run: seq<Network>, i: nat)
    requires Run(run) && i < |run|
    ensures Inv(run[i])
  {
    if i == 0 {
      InitInv(run[0]);
    } else {
      RunInv(run, i - 1);
      assert Step(run[i - 1], run[i - 1 + 1]);
      StepInv(run[i - 1], run[i]);
    }
  }

  // ---------------------------------------------------------------- loop freedom over all choices of paths

  predicate FresherEntry(a: Entry, b: Entry) {
    Fresher(a.seqno, a.advHops, b.seqno, b.advHops)
  }

  ghost predicate HasNexthop(e: Entry, h: Addr) {
    exists i :: 0 <= i < |e.paths| && e.paths[i].nexthop == h
  }

  /** The next hop of every path, unless it is the destination, has a newer number, or the same number
      and a strictly smaller advertised hop count. */
  lemma NextHopFresher(net: Network, n: Addr, d: Addr, h: Addr)
    requires Inv(net) && n in net && HasNexthop(Rt(net, n, d), h)
    ensures h in net && (h != d ==> FresherEntry(Rt(net, h, d), Rt(net, n, d)))
  {
    var e := Rt(net, n, d);
    var i :| 0 <= i < |e.paths| && e.paths[i].nexthop == h;
    assert EntryInv(net, n, d) && EntryOk(e, net[n].maxPaths);
    ToldInv(net, Advert(h, d, e.seqno, e.paths[i].hopcount - 1));
  }

  /** p follows paths towards d, any path at any node; all but its last node are not d. */
  ghost predicate Follows(net: Network, d: Addr, p: seq<Addr>) {
    && p != [] && (forall i :: 0 <= i < |p| ==> p[i] in net)
    && forall i :: 0 <= i < |p| - 1 ==> p[i] != d && HasNexthop(Rt(net, p[i], d), p[i + 1])
  }

  ghost predicate LoopFree(net: Network) {
    forall d, p, i, j :: Follows(net, d, p) && 0 <= i < j < |p| ==> p[i] != p[j]
  }

  lemma {:induction false} FresherAlong(net: Network, d: Addr, p: seq<Addr>, i: nat, j: nat)
    requires Inv(net) && Follows(net, d, p) && i < j < |p| && p[j] != d
    ensures FresherEntry(Rt(net, p[j], d), Rt(net, p[i], d))
  {
    assert HasNexthop(Rt(net, p[j - 1], d), p[j - 1 + 1]);
    NextHopFresher(net, p[j - 1], d, p[j]);
    if i < j - 1 { FresherAlong(net, d, p, i, j - 1); }
  }

  lemma InvLoopFree(net: Network)
    requires Inv(net)
    ensures LoopFree(net)
  {
    forall d, p, i, j | Follows(net, d, p) && 0 <= i < j < |p| ensures p[i] != p[j] {
      if p[j] != d { FresherAlong(net, d, p, i, j); }
    }
  }

  /** In every reachable state, for every destination and whichever path each node picks, no next hops form a loop. */
  lemma AomdvLoopFree(run: seq<Network>, i: nat)
    requires Run(run) && i < |run|
    ensures LoopFree(run[i])
  {
    RunInv(run, i);
    InvLoopFree(run[i]);
  }

  /** Every walk along paths picked by choose ends: at the destination, or at a node without a path. */
  ghost function Walk(net: Network, n: Addr, d: Addr, choose: (Addr, nat) -> nat): (p: seq<Addr>)
    requires Inv(net) && n in net && forall x, k :: 0 < k ==> choose(x, k) < k
    ensures Follows(net, d, p) && p[0] == n
    ensures p[|p| - 1] == d || Rt(net, p[|p| - 1], d).paths == []
    decreases Own(net, d) + 1 - Rt(net, n, d).seqno, !Rt(net, n, d).advHops.Finite?,
              if Rt(net, n, d).advHops.Finite? then Rt(net, n, d).advHops.n else 0
  {
    var e := Rt(net, n, d);
    if n == d || e.paths == [] then [n]
    else
      var h := e.paths[choose(n, |e.paths|)].nexthop;
      assert HasNexthop(e, h);
      NextHopFresher(net, n, d, h);
      assert EntryInv(net, n, d);
      if h == d then [n, d]
      else
        assert EntryInv(net, h, d);
        [n] + Walk(net, h, d, choose)
  }

  // ---------------------------------------------------------------- what every reachable state satisfies

  /** The path list of every entry, in every reachable state. */
  lemma PathListInvariant(run: seq<Network>, i: nat, n: Addr, d: Addr)
    requires Run(run) && i < |run| && n in run[i]
    ensures var e := Rt(run[i], n, d);
            && (forall j, k :: 0 <= j < k < |e.paths| ==>
                  e.paths[j].nexthop != e.paths[k].nexthop && e.paths[j].lasthop != e.paths[k].lasthop)
            && e.numPaths == |e.paths| && (run[i][n].maxPaths >= 1 ==> e.numPaths <= run[i][n].maxPaths)
            && (e.flags == Up <==> e.paths != [])
            && (forall j :: 0 <= j < |e.paths| && e.advHops.Finite? ==> e.paths[j].hopcount <= e.advHops.n)
  {
    RunInv(run, i);
    assert EntryOk(Rt(run[i], n, d), run[i][n].maxPaths);
  }

  lemma FoundAgain(net: Network, n: Addr, a: Advert, k: nat)
    requires Inv(net) && n in net && Told(net, a) && Rt(net, n, a.dst).seqno == a.seqno
    requires k < |Rt(net, n, a.dst).paths| && Rt(net, n, a.dst).paths[k].nexthop == a.from
    ensures Rt(net, n, a.dst).paths[k].hopcount == a.hops + 1
  {
    assert EntryInv(net, n, a.dst);
    var p := Rt(net, n, a.dst).paths[k];
    var b := Advert(p.nexthop, a.dst, a.seqno, p.hopcount - 1);
    assert Told(net, b);
    OneHopCount(net, a, b);
  }

  /** What the handlers assert of a message they receive is true of every message, at every node, in every
      reachable state: its numbers are well formed, and a path found again has the hop count that it offers. */
  lemma MessagesMatch(run: seq<Network>, i: nat, n: Addr, m: Msg)
    requires Run(run) && i < |run| && n in run[i] && Sent(run[i], m)
    ensures NodeOk(run[i][n]) && InputOk(m) && Matches(run[i][n], m)
  {
    RunInv(run, i);
    var x := InputInv(run[i], m);
    if AdvertOf(m).Some? {
      var a := AdvertOf(m).value;
      forall k | 0 <= k < |Rt(run[i], n, a.dst).paths| && Rt(run[i], n, a.dst).seqno == a.seqno
                 && Rt(run[i], n, a.dst).paths[k].nexthop == a.from
        ensures Rt(run[i], n, a.dst).paths[k].hopcount == a.hops + 1
      {
        FoundAgain(run[i], n, a, k);
      }
    }
  }

  /** Information with the number of an entry finds that entry up. */
  lemma SameNumberFindsUp(run: seq<Network>, i: nat, n: Addr, m: Msg)
    requires Run(run) && i < |run| && n in run[i] && Sent(run[i], m) && AdvertOf(m).Some?
    requires Rt(run[i], n, AdvertOf(m).value.dst).seqno == AdvertOf(m).value.seqno
    ensures Rt(run[i], n, AdvertOf(m).value.dst).flags == Up
  {
    RunInv(run, i);
    var x := InputInv(run[i], m);
    assert EntryOk(Rt(run[i], n, AdvertOf(m).value.dst), run[i][n].maxPaths);
  }

  lemma {:induction false} RunKeys(run: seq<Network>, i: nat, j: nat)
    requires Run(run) && i <= j < |run|
    ensures run[j].Keys == run[i].Keys
  {
    if i < j {
      RunKeys(run, i, j - 1);
      assert Step(run[j - 1], run[j - 1 + 1]);
    }
  }

  /** Numbers never fall, and what a node advertises for one number never changes once it is fixed. */
  lemma {:induction false} AdvertisedHopsConstant(run: seq<Network>, i: nat, j: nat, n: Addr, d: Addr)
    requires Run(run) && i <= j < |run| && n in run[i]
    ensures n in run[j] && Rt(run[j], n, d).seqno >= Rt(run[i], n, d).seqno
    ensures Rt(run[j], n, d).seqno == Rt(run[i], n, d).seqno && Rt(run[i], n, d).advHops.Finite?
            ==> Rt(run[j], n, d).advHops == Rt(run[i], n, d).advHops
  {
    RunKeys(run, i, j);
    if i < j {
      AdvertisedHopsConstant(run, i, j - 1, n, d);
      RunKeys(run, i, j - 1);
      RunInv(run, j - 1);
      assert Step(run[j - 1], run[j - 1 + 1]);
      var x, ev :| StepAt(run[j - 1], run[j], x, ev);
      StepMoves(run[j - 1], run[j], x, ev);
      if x == n { assert EntryStep(Rt(run[j - 1], n, d), Rt(run[j], n, d), d, Received(ev)); }
    }
  }

  /** Only the destination issues even numbers: every route in use carries one that it has issued. */
  lemma DestinationControls(run: seq<Network>, i: nat, n: Addr, d: Addr)
    requires Run(run) && i < |run| && n in run[i]
    ensures var e := Rt(run[i], n, d);
            if e.flags == Up then e.seqno % 2 == 0 && 2 <= e.seqno <= Own(run[i], d)
            else LostNumber(e.seqno) && e.seqno <= Own(run[i], d) + 1
  {
    RunInv(run, i);
    assert EntryInv(run[i], n, d) && EntryOk(Rt(run[i], n, d), run[i][n].maxPaths);
  }

  /** A destination answers a request of any run with its own number, or two more if the request has seen that one lost. */
  lemma AnswerStepsByTwo(run: seq<Network>, i: nat, n: Addr, m: Msg)
    requires Run(run) && i < |run| && n in run[i] && m.Rreq? && m.dst == n && Sent(run[i], m)
    ensures AnswerSeqno(run[i][n].seqno, m.dstSeqno)
            == if m.dstSeqno == run[i][n].seqno + 1 then run[i][n].seqno + 2 else run[i][n].seqno
  {
    RunInv(run, i);
    var x := InputInv(run[i], m);
    assert NodeOk(run[i][n]);
    AnswerSeqnoEven(run[i][n].seqno, m.dstSeqno);
  }
}
