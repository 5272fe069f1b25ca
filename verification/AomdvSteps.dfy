/** What one event can do to the paths of one AOMDV node, and to what it sends: each handler in turn keeps the
    path lists in order, takes in no path but the one offered, and sends only what its entries back. The lemmas of
    this module say so handler by handler; the last one collects them for all events. */
module AomdvSteps {
  import opened Common
  import opened RouteQueue
  import opened OnDemand
  import opened Aomdv

  /** The numbers of routes that are down: never known, or given up by counting an even number on. */
  predicate LostNumber(q: nat) {
    q == 0 || q % 2 == 1
  }

  ghost predicate AllLost(us: seq<Unreachable>) {
    forall i :: 0 <= i < |us| ==> LostNumber(us[i].seqno)
  }

  /** Paths to one destination share neither their next hops nor their last hops. */
  ghost predicate Disjoint(ps: seq<Path>) {
    forall i, j :: 0 <= i < j < |ps| ==> ps[i].nexthop != ps[j].nexthop && ps[i].lasthop != ps[j].lasthop
  }

  ghost predicate Counted(ps: seq<Path>, adv: Hops) {
    forall i :: 0 <= i < |ps| ==> ps[i].hopcount >= 1 && (adv.Finite? ==> ps[i].hopcount <= adv.n)
  }

  /** The path-list invariant: up exactly with paths, counted, disjoint, few, and within the advertised hop count. */
  ghost predicate EntryOk(e: Entry, maxPaths: int) {
    && LostNumber(e.highestHeard)
    && e.numPaths == |e.paths|
    && Disjoint(e.paths) && Counted(e.paths, e.advHops)
    && |e.paths| <= Max(1, maxPaths)
    && (e.flags == Up <==> e.paths != [])
    && (if e.flags == Up then e.seqno >= 2 && e.seqno % 2 == 0
        else LostNumber(e.seqno) && e.advHops == Infinite)
  }

  ghost predicate NodeOk(s: Node) {
    && s.seqno >= 2 && s.seqno % 2 == 0
    && (forall d {:trigger Ent(s.rtable, d)} :: EntryOk(Ent(s.rtable, d), s.maxPaths))
  }

  /** A message tells how many hops its sender needs, at most, to dst. */
  datatype Advert = Advert(from: Addr, dst: Addr, seqno: nat, hops: nat)

  function AdvertOf(m: Msg): Option<Advert> {
    match m
    case Rreq(saddr, _, hopCount, _, _, _, src, srcSeqno, _, _) => Some(Advert(saddr, src, srcSeqno, hopCount))
    case Rrep(_, _, _, hopCount, dst, dstSeqno, src, _, _, _, _) => Some(Advert(src, dst, dstSeqno, hopCount))
    case Rerr(_, _) => None
    case Hello(dst, dstSeqno, _) => Some(Advert(dst, dst, dstSeqno, 0))
    case Data(_, _) => None
  }

  predicate AdvertOk(a: Advert) {
    a.seqno >= 2 && a.seqno % 2 == 0
  }

  ghost predicate InputOk(m: Msg) {
    && (AdvertOf(m).Some? ==> AdvertOk(AdvertOf(m).value))
    && (m.Rerr? ==> AllLost(m.unreachable))
  }

  /** Paths found again through the sender of m have the hop count that m offers. */
  ghost predicate Matches(s: Node, m: Msg) {
    AdvertOf(m).Some? ==>
      var a := AdvertOf(m).value;
      var e := Ent(s.rtable, a.dst);
      forall k :: 0 <= k < |e.paths| && e.seqno == a.seqno && e.paths[k].nexthop == a.from
        ==> e.paths[k].hopcount == a.hops + 1
  }

  /** Some path leads through next hop h with this hop count. */
  ghost predicate HasLink(ps: seq<Path>, h: Addr, hopcount: nat) {
    exists i :: 0 <= i < |ps| && ps[i].nexthop == h && ps[i].hopcount == hopcount
  }

  /** The message that arrived offers a path for dst with this number. */
  ghost predicate Offers(inp: Option<Msg>, dst: Addr, seqno: nat, h: Addr, hopcount: nat) {
    && inp.Some? && AdvertOf(inp.value).Some? && hopcount >= 1
    && AdvertOf(inp.value).value == Advert(h, dst, seqno, hopcount - 1)
  }

  ghost predicate Reported(inp: Option<Msg>, dst: Addr, q: nat) {
    inp.Some? && inp.value.Rerr? && Unreachable(dst, q) in inp.value.unreachable
  }

  /** Every path of e' is one of e, or the one that the received message offers. */
  ghost predicate LinksFrom(e: Entry, e': Entry, dst: Addr, inp: Option<Msg>) {
    forall i :: 0 <= i < |e'.paths| ==>
      (e'.seqno == e.seqno && HasLink(e.paths, e'.paths[i].nexthop, e'.paths[i].hopcount))
      || Offers(inp, dst, e'.seqno, e'.paths[i].nexthop, e'.paths[i].hopcount)
  }

  /** What an event may do to the entry for dst. */
  ghost predicate EntryStep(e: Entry, e': Entry, dst: Addr, inp: Option<Msg>) {
    && e'.seqno >= e.seqno
    && (e'.seqno == e.seqno ==> e'.flags == e.flags && (e.advHops.Finite? ==> e'.advHops == e.advHops))
    && (e.flags == Down && e'.flags == Down ==> e'.seqno == e.seqno)
    && LinksFrom(e, e', dst, inp)
    && (e'.highestHeard == e.highestHeard || Reported(inp, dst, e'.highestHeard))
    && (e'.flags == Down ==>
          e'.seqno == e.seqno || e'.seqno == e.seqno + 1 || e'.seqno == e.highestHeard || Reported(inp, dst, e'.seqno))
  }

  ghost predicate ReportOk(s: Node, us: seq<Unreachable>) {
    forall i :: 0 <= i < |us| ==> us[i].seqno <= Ent(s.rtable, us[i].dst).seqno && LostNumber(us[i].seqno)
  }

  /** The node advertises itself, or what its entry says. */
  ghost predicate AdvertBacked(s: Node, a: Advert) {
    && a.from == s.index && AdvertOk(a)
    && (if a.dst == s.index then a.hops == 0 && a.seqno <= s.seqno
        else Ent(s.rtable, a.dst).seqno == a.seqno && Ent(s.rtable, a.dst).advHops == Finite(a.hops))
  }

  ghost predicate MaySend(s: Node, m: Msg, inp: Option<Msg>) {
    && (AdvertOf(m).Some? ==> AdvertBacked(s, AdvertOf(m).value))
    && (m.Rreq? ==>
          m.dstSeqno <= Ent(s.rtable, m.dst).seqno
          || (inp.Some? && inp.value.Rreq? && inp.value.dst == m.dst && inp.value.dstSeqno == m.dstSeqno))
    && (m.Rerr? ==> ReportOk(s, m.unreachable))
  }

  ghost predicate Legal(s: Node, s': Node, inp: Option<Msg>) {
    && s'.index == s.index && s'.maxPaths == s.maxPaths && s'.lenDiff == s.lenDiff
    && NodeOk(s') && s'.seqno >= s.seqno
    && (forall d {:trigger Ent(s'.rtable, d)} :: EntryStep(Ent(s.rtable, d), Ent(s'.rtable, d), d, inp))
    && s.outbox <= s'.outbox
    && (forall k {:trigger s'.outbox[k]} :: |s.outbox| <= k < |s'.outbox| ==> MaySend(s', s'.outbox[k], inp))
  }

  // ---------------------------------------------------------------- entries

  /** Entries that differ in nothing but timers and flags for others. */
  ghost predicate SameLinks(ps: seq<Path>, ps': seq<Path>) {
    |ps| == |ps'| && forall i :: 0 <= i < |ps| ==>
      ps[i].nexthop == ps'[i].nexthop && ps[i].hopcount == ps'[i].hopcount && ps[i].lasthop == ps'[i].lasthop
  }

  ghost predicate SameEntry(e: Entry, e': Entry) {
    && e'.seqno == e.seqno && e'.advHops == e.advHops && e'.flags == e.flags && e'.numPaths == e.numPaths
    && e'.highestHeard == e.highestHeard && SameLinks(e.paths, e'.paths)
  }

  lemma SameEntryOk(e: Entry, e': Entry, maxPaths: int)
    requires EntryOk(e, maxPaths) && SameEntry(e, e')
    ensures EntryOk(e', maxPaths)
  {
  }

  lemma SameEntryStep(e: Entry, e': Entry, dst: Addr, inp: Option<Msg>)
    requires SameEntry(e, e')
    ensures EntryStep(e, e', dst, inp)
  {
    forall i | 0 <= i < |e'.paths| ensures HasLink(e.paths, e'.paths[i].nexthop, e'.paths[i].hopcount) {
      assert e.paths[i].nexthop == e'.paths[i].nexthop && e.paths[i].hopcount == e'.paths[i].hopcount;
    }
  }

  lemma StepTransSame(e0: Entry, e1: Entry, e2: Entry, dst: Addr, inp: Option<Msg>)
    requires EntryStep(e0, e1, dst, inp) && SameEntry(e1, e2)
    ensures EntryStep(e0, e2, dst, inp)
  {
    forall i | 0 <= i < |e2.paths|
      ensures (e2.seqno == e0.seqno && HasLink(e0.paths, e2.paths[i].nexthop, e2.paths[i].hopcount))
              || Offers(inp, dst, e2.seqno, e2.paths[i].nexthop, e2.paths[i].hopcount)
    {
      assert e1.paths[i].nexthop == e2.paths[i].nexthop && e1.paths[i].hopcount == e2.paths[i].hopcount;
    }
  }

  /** Fixing the advertised hop count. */
  lemma AdvertiseOk(e: Entry, maxPaths: int)
    requires EntryOk(e, maxPaths) && e.flags == Up
    ensures EntryOk(Advertise(e), maxPaths) && Advertise(e).advHops.Finite?
  {
    assert e.paths[0].hopcount <= MaxCount(e.paths);
  }

  lemma AdvertiseStep(e0: Entry, e: Entry, dst: Addr, inp: Option<Msg>)
    requires EntryStep(e0, e, dst, inp) && e.flags == Up
    ensures EntryStep(e0, Advertise(e), dst, inp)
  {
  }

  /** A kept part of the paths. */
  lemma CutStep(e: Entry, e': Entry, dst: Addr, maxPaths: int, inp: Option<Msg>)
    requires EntryOk(e, maxPaths) && e'.paths != [] && e'.numPaths == |e'.paths| <= |e.paths|
    requires e' == e.(paths := e'.paths, numPaths := e'.numPaths)
    requires Disjoint(e'.paths) && forall i :: 0 <= i < |e'.paths| ==> e'.paths[i] in e.paths
    ensures EntryOk(e', maxPaths) && EntryStep(e, e', dst, inp)
  {
    forall i | 0 <= i < |e'.paths|
      ensures HasLink(e.paths, e'.paths[i].nexthop, e'.paths[i].hopcount)
      ensures e'.paths[i].hopcount >= 1 && (e.advHops.Finite? ==> e'.paths[i].hopcount <= e.advHops.n)
    {
      var j :| 0 <= j < |e.paths| && e.paths[j] == e'.paths[i];
    }
  }

  lemma PathDeleteParts(ps: seq<Path>, id: Addr)
    requires Disjoint(ps) && PathLookup(ps, id) < |ps|
    ensures Disjoint(PathDelete(ps, id)) && |PathDelete(ps, id)| == |ps| - 1
    ensures forall i :: 0 <= i < |PathDelete(ps, id)| ==> PathDelete(ps, id)[i] in ps
  {
  }

  lemma {:induction false} PathPurgeParts(ps: seq<Path>, now: real)
    requires Disjoint(ps)
    ensures Disjoint(PathPurge(ps, now))
    ensures forall p :: p in PathPurge(ps, now) ==> p in ps
  {
    if ps != [] {
      PathPurgeParts(ps[1..], now);
      forall i | 0 <= i < |PathPurge(ps[1..], now)|
        ensures ps[0].nexthop != PathPurge(ps[1..], now)[i].nexthop && ps[0].lasthop != PathPurge(ps[1..], now)[i].lasthop
      {
        var p := PathPurge(ps[1..], now)[i];
        assert p in ps[1..];
        var j :| 0 <= j < |ps[1..]| && ps[1..][j] == p;
        assert ps[j + 1] == p;
      }
    }
  }

  /** Taking an entry down with a larger lost number. */
  lemma DownStep(e: Entry, e': Entry, dst: Addr, maxPaths: int, inp: Option<Msg>)
    requires EntryOk(e, maxPaths) && e.flags == Up
    requires e'.flags == Down && e'.paths == [] && e'.numPaths == 0 && e'.advHops == Infinite
    requires LostNumber(e'.seqno) && e'.seqno > e.seqno && LostNumber(e'.highestHeard)
    requires e'.seqno == e.seqno + 1 || e'.seqno == e.highestHeard || Reported(inp, dst, e'.seqno)
    requires e'.highestHeard == e.highestHeard || Reported(inp, dst, e'.highestHeard)
    ensures EntryOk(e', maxPaths) && EntryStep(e, e', dst, inp)
  {
  }

  /** A path offered with a newer number. */
  lemma RenewStep(e: Entry, a: Advert, p: Path, maxPaths: int, inp: Option<Msg>)
    requires EntryOk(e, maxPaths) && AdvertOk(a) && e.seqno < a.seqno
    requires inp.Some? && AdvertOf(inp.value) == Some(a) && p.nexthop == a.from && p.hopcount == a.hops + 1
    ensures EntryOk(Renew(e, a.seqno, p), maxPaths) && EntryStep(e, Renew(e, a.seqno, p), a.dst, inp)
  {
    var e' := Renew(e, a.seqno, p);
    assert Offers(inp, a.dst, e'.seqno, e'.paths[0].nexthop, e'.paths[0].hopcount);
  }

  /** A path offered with the same number that is short enough and disjoint from the others. */
  lemma AddPathStep(e: Entry, a: Advert, p: Path, maxPaths: int, inp: Option<Msg>)
    requires EntryOk(e, maxPaths) && AdvertOk(a) && e.seqno == a.seqno && Fewer(Finite(a.hops), e.advHops)
    requires inp.Some? && AdvertOf(inp.value) == Some(a) && p.nexthop == a.from && p.hopcount == a.hops + 1
    requires NewDisjoint(e.paths, p.nexthop, p.lasthop) && e.numPaths < maxPaths
    ensures EntryOk(AddPath(e, p), maxPaths) && EntryStep(e, AddPath(e, p), a.dst, inp)
  {
    var e' := AddPath(e, p);
    forall i | 0 <= i < |e'.paths|
      ensures HasLink(e.paths, e'.paths[i].nexthop, e'.paths[i].hopcount)
              || Offers(inp, a.dst, e'.seqno, e'.paths[i].nexthop, e'.paths[i].hopcount)
    {
      if i < |e.paths| { assert e'.paths[i] == e.paths[i]; }
    }
  }

  lemma ProlongSame(e: Entry, i: nat, until: real)
    requires i < |e.paths|
    ensures SameEntry(e, ProlongPath(e, i, until))
  {
  }

  lemma UsedSame(e: Entry, byOther: bool, now: real)
    ensures SameEntry(e, Used(e, byOther, now))
  {
  }

  ghost predicate OfferGood(e: Entry, o: Offer, a: Advert, maxPaths: int, inp: Option<Msg>) {
    && EntryOk(o.e, maxPaths) && EntryStep(e, o.e, a.dst, inp)
    && (!o.drop ==> o.e.flags == Up && o.e.seqno == a.seqno)
  }

  /** The own path list takes in nothing but what the received message offers. */
  lemma ReverseOfferGood(e: Entry, maxPaths: int, lenDiff: int, a: Advert, p: Path, forMe: bool, inp: Option<Msg>)
    requires EntryOk(e, maxPaths) && AdvertOk(a)
    requires inp.Some? && AdvertOf(inp.value) == Some(a) && p.nexthop == a.from && p.hopcount == a.hops + 1
    ensures OfferGood(e, ReverseOffer(e, maxPaths, lenDiff, a.seqno, a.hops, p, forMe), a, maxPaths, inp)
  {
    SameEntryStep(e, e, a.dst, inp);
    if e.seqno < a.seqno {
      RenewStep(e, a, p, maxPaths, inp);
    } else if e.seqno == a.seqno && Fewer(Finite(a.hops), e.advHops) {
      var i := DisjointLookup(e.paths, p.nexthop, p.lasthop);
      if i < |e.paths| {
        ProlongSame(e, i, p.expire);
        SameEntryOk(e, ProlongPath(e, i, p.expire), maxPaths);
        SameEntryStep(e, ProlongPath(e, i, p.expire), a.dst, inp);
      } else if NewDisjoint(e.paths, p.nexthop, p.lasthop) && e.numPaths < maxPaths {
        AddPathStep(e, a, p, maxPaths, inp);
      }
    }
  }

  lemma ForwardOfferGood(e: Entry, maxPaths: int, lenDiff: int, a: Advert, p: Path, inp: Option<Msg>)
    requires EntryOk(e, maxPaths) && AdvertOk(a)
    requires inp.Some? && AdvertOf(inp.value) == Some(a) && p.nexthop == a.from && p.hopcount == a.hops + 1
    ensures OfferGood(e, ForwardOffer(e, maxPaths, lenDiff, a.seqno, a.hops, p), a, maxPaths, inp)
  {
    ReverseOfferGood(e, maxPaths, lenDiff, a, p, false, inp);
    SameEntryStep(e, e, a.dst, inp);
  }

  // ---------------------------------------------------------------- nodes

  ghost predicate SameNode(s: Node, s': Node) {
    && s'.index == s.index && s'.maxPaths == s.maxPaths && s'.lenDiff == s.lenDiff && s'.seqno == s.seqno
    && (forall d {:trigger Ent(s'.rtable, d)} :: SameEntry(Ent(s.rtable, d), Ent(s'.rtable, d)))
    && s.outbox <= s'.outbox
    && (forall k {:trigger s'.outbox[k]} :: |s.outbox| <= k < |s'.outbox| ==> s'.outbox[k].Data?)
  }

  lemma SameEntryTrans(e0: Entry, e1: Entry, e2: Entry)
    requires SameEntry(e0, e1) && SameEntry(e1, e2)
    ensures SameEntry(e0, e2)
  {
  }

  lemma SameNodeTrans(s0: Node, s1: Node, s2: Node)
    requires SameNode(s0, s1) && SameNode(s1, s2)
    ensures SameNode(s0, s2)
  {
    forall d ensures SameEntry(Ent(s0.rtable, d), Ent(s2.rtable, d)) {
      SameEntryTrans(Ent(s0.rtable, d), Ent(s1.rtable, d), Ent(s2.rtable, d));
    }
    forall k | |s0.outbox| <= k < |s2.outbox| ensures s2.outbox[k].Data? {
      if k < |s1.outbox| { assert s2.outbox[k] == s1.outbox[k]; }
    }
  }

  lemma ForwardDataSame(s: Node, dst: Addr, p: Packet, now: real)
    ensures SameNode(s, ForwardData(s, dst, p, now))
  {
    UsedSame(Ent(s.rtable, dst), p.saddr != s.index, now);
  }

  lemma {:induction false} FlushSame(s: Node, dst: Addr, now: real)
    ensures SameNode(s, Flush(s, dst, now))
    ensures Flush(s, dst, now).bihead == s.bihead
    decreases |s.rqueue|
  {
    var q := Purge(s.rqueue, now);
    var i := FindDst(q, dst);
    if i < |q| {
      var s0 := s.(rqueue := RemoveAt(q, i));
      var s1 := ForwardData(s0, dst, q[i].packet, now);
      ForwardDataSame(s0, dst, q[i].packet, now);
      FlushSame(s1, dst, now);
      SameNodeTrans(s0, s1, Flush(s1, dst, now));
    }
  }

  lemma SameNodeOk(s: Node, s': Node)
    requires NodeOk(s) && SameNode(s, s')
    ensures NodeOk(s')
  {
    forall d ensures EntryOk(Ent(s'.rtable, d), s'.maxPaths) {
      SameEntryOk(Ent(s.rtable, d), Ent(s'.rtable, d), s.maxPaths);
    }
  }

  lemma Unchanged(s: Node, s': Node, inp: Option<Msg>)
    requires NodeOk(s) && SameNode(s, s')
    ensures Legal(s, s', inp)
  {
    SameNodeOk(s, s');
    forall d ensures EntryStep(Ent(s.rtable, d), Ent(s'.rtable, d), d, inp) {
      SameEntryStep(Ent(s.rtable, d), Ent(s'.rtable, d), d, inp);
    }
  }

  /** What was sent stays backed while numbers only grow and advertised hop counts stay. */
  lemma MaySendLater(s: Node, s': Node, m: Msg, inp: Option<Msg>)
    requires MaySend(s, m, inp) && s'.index == s.index && s'.seqno >= s.seqno
    requires forall d {:trigger Ent(s'.rtable, d)} :: Ent(s'.rtable, d).seqno >= Ent(s.rtable, d).seqno
    requires AdvertOf(m).Some? && AdvertOf(m).value.dst != s.index ==>
               var d := AdvertOf(m).value.dst;
               Ent(s'.rtable, d).seqno == Ent(s.rtable, d).seqno && Ent(s'.rtable, d).advHops == Ent(s.rtable, d).advHops
    ensures MaySend(s', m, inp)
  {
  }

  lemma LegalSame(s0: Node, s1: Node, s2: Node, inp: Option<Msg>)
    requires Legal(s0, s1, inp) && SameNode(s1, s2)
    ensures Legal(s0, s2, inp)
  {
    SameNodeOk(s1, s2);
    forall d ensures EntryStep(Ent(s0.rtable, d), Ent(s2.rtable, d), d, inp) {
      StepTransSame(Ent(s0.rtable, d), Ent(s1.rtable, d), Ent(s2.rtable, d), d, inp);
    }
    forall k | |s0.outbox| <= k < |s2.outbox| ensures MaySend(s2, s2.outbox[k], inp) {
      if k < |s1.outbox| {
        assert s2.outbox[k] == s1.outbox[k];
        MaySendLater(s1, s2, s1.outbox[k], inp);
      }
    }
  }

  lemma LegalSend(s0: Node, s1: Node, m: Msg, inp: Option<Msg>)
    requires Legal(s0, s1, inp) && MaySend(s1, m, inp)
    ensures Legal(s0, Send(s1, m), inp)
  {
    var s2 := Send(s1, m);
    forall k | |s0.outbox| <= k < |s2.outbox| ensures MaySend(s2, s2.outbox[k], inp) {
      assert k < |s1.outbox| ==> s2.outbox[k] == s1.outbox[k];
      MaySendLater(s1, s2, s2.outbox[k], inp);
    }
  }

  /** Nothing is told about other nodes. */
  ghost predicate SendsNoAdverts(s: Node, s': Node) {
    forall k {:trigger s'.outbox[k]} :: |s.outbox| <= k < |s'.outbox| ==>
      (AdvertOf(s'.outbox[k]).Some? ==> AdvertOf(s'.outbox[k]).value.dst == s'.index)
  }

  ghost predicate Quiet(s: Node, s': Node, inp: Option<Msg>) {
    Legal(s, s', inp) && SendsNoAdverts(s, s')
  }

  predicate NoAdvert(inp: Option<Msg>) {
    inp.Some? ==> AdvertOf(inp.value).None?
  }

  lemma QuietSame(s0: Node, s1: Node, s2: Node, inp: Option<Msg>)
    requires Quiet(s0, s1, inp) && SameNode(s1, s2)
    ensures Quiet(s0, s2, inp)
  {
    LegalSame(s0, s1, s2, inp);
    forall k | |s0.outbox| <= k < |s2.outbox| && AdvertOf(s2.outbox[k]).Some?
      ensures AdvertOf(s2.outbox[k]).value.dst == s2.index
    {
      assert s2.outbox[k] == s1.outbox[k];
    }
  }

  lemma QuietStart(s: Node, s': Node, inp: Option<Msg>)
    requires NodeOk(s) && SameNode(s, s')
    ensures Quiet(s, s', inp)
  {
    Unchanged(s, s', inp);
  }

  lemma QuietSend(s0: Node, s1: Node, m: Msg, inp: Option<Msg>)
    requires Quiet(s0, s1, inp) && MaySend(s1, m, inp)
    requires AdvertOf(m).Some? ==> AdvertOf(m).value.dst == s1.index
    ensures Quiet(s0, Send(s1, m), inp)
  {
    LegalSend(s0, s1, m, inp);
    var s2 := Send(s1, m);
    forall k | |s0.outbox| <= k < |s2.outbox| && AdvertOf(s2.outbox[k]).Some?
      ensures AdvertOf(s2.outbox[k]).value.dst == s2.index
    {
      if k < |s1.outbox| { assert s2.outbox[k] == s1.outbox[k]; }
    }
  }

  /** A node may raise its own number by two whenever it likes. */
  lemma QuietRaise(s0: Node, s1: Node, s2: Node, inp: Option<Msg>)
    requires Quiet(s0, s1, inp) && s2.index == s1.index && s2.maxPaths == s1.maxPaths && s2.lenDiff == s1.lenDiff
    requires s2.rtable == s1.rtable && s2.outbox == s1.outbox
    requires s2.seqno >= s1.seqno && s2.seqno % 2 == 0
    ensures Quiet(s0, s2, inp)
  {
    forall d ensures Ent(s2.rtable, d) == Ent(s1.rtable, d) {}
    forall k | |s0.outbox| <= k < |s2.outbox| ensures MaySend(s2, s2.outbox[k], inp) {
      MaySendLater(s1, s2, s1.outbox[k], inp);
    }
  }

  /** One more change to one entry. */
  lemma QuietStore(s0: Node, s1: Node, dst: Addr, e: Entry, inp: Option<Msg>)
    requires Quiet(s0, s1, inp) && EntryOk(e, s0.maxPaths)
    requires EntryStep(Ent(s0.rtable, dst), e, dst, inp) && e.seqno >= Ent(s1.rtable, dst).seqno
    ensures Quiet(s0, Store(s1, dst, e), inp)
  {
    var s2 := Store(s1, dst, e);
    forall d ensures EntryOk(Ent(s2.rtable, d), s2.maxPaths) && Ent(s2.rtable, d).seqno >= Ent(s1.rtable, d).seqno
      ensures EntryStep(Ent(s0.rtable, d), Ent(s2.rtable, d), d, inp)
    {
      if d != dst { assert Ent(s2.rtable, d) == Ent(s1.rtable, d); }
    }
    forall k | |s0.outbox| <= k < |s2.outbox| ensures MaySend(s2, s2.outbox[k], inp) {
      MaySendLater(s1, s2, s1.outbox[k], inp);
    }
  }

  lemma StepTransUp(e0: Entry, e1: Entry, e2: Entry, dst: Addr, maxPaths: int, inp: Option<Msg>)
    requires EntryOk(e0, maxPaths) && EntryOk(e1, maxPaths) && EntryOk(e2, maxPaths) && NoAdvert(inp)
    requires EntryStep(e0, e1, dst, inp) && EntryStep(e1, e2, dst, inp) && e1.flags == Up
    ensures EntryStep(e0, e2, dst, inp)
  {
    assert HasLink(e0.paths, e1.paths[0].nexthop, e1.paths[0].hopcount);
    assert e1.seqno == e0.seqno;
    forall i | 0 <= i < |e2.paths|
      ensures e2.seqno == e0.seqno && HasLink(e0.paths, e2.paths[i].nexthop, e2.paths[i].hopcount)
    {
      assert HasLink(e1.paths, e2.paths[i].nexthop, e2.paths[i].hopcount);
      var j :| 0 <= j < |e1.paths| && e1.paths[j].nexthop == e2.paths[i].nexthop && e1.paths[j].hopcount == e2.paths[i].hopcount;
      assert HasLink(e0.paths, e1.paths[j].nexthop, e1.paths[j].hopcount);
    }
  }

  lemma NoLink(ps: seq<Path>, h: Addr, hopcount: nat)
    requires ps == []
    ensures !HasLink(ps, h, hopcount)
  {
  }

  lemma NoLinks(e: Entry, e': Entry, dst: Addr, inp: Option<Msg>)
    requires e.paths == [] && LinksFrom(e, e', dst, inp) && NoAdvert(inp)
    ensures e'.paths == []
  {
    if e'.paths != [] { NoLink(e.paths, e'.paths[0].nexthop, e'.paths[0].hopcount); }
  }

  lemma StepTrans(e0: Entry, e1: Entry, e2: Entry, dst: Addr, maxPaths: int, inp: Option<Msg>)
    requires EntryOk(e0, maxPaths) && EntryOk(e1, maxPaths) && EntryOk(e2, maxPaths) && NoAdvert(inp)
    requires EntryStep(e0, e1, dst, inp) && EntryStep(e1, e2, dst, inp)
    ensures EntryStep(e0, e2, dst, inp)
  {
    if e1.flags == Up {
      StepTransUp(e0, e1, e2, dst, maxPaths, inp);
    } else {
      NoLinks(e1, e2, dst, inp);
    }
  }

  /** Events that rely on no offer and tell nothing about other nodes follow one another. */
  lemma QuietTrans(s0: Node, s1: Node, s2: Node, inp: Option<Msg>)
    requires NodeOk(s0) && Quiet(s0, s1, inp) && Quiet(s1, s2, inp) && NoAdvert(inp)
    ensures Quiet(s0, s2, inp)
  {
    forall d ensures EntryStep(Ent(s0.rtable, d), Ent(s2.rtable, d), d, inp)
      ensures Ent(s2.rtable, d).seqno >= Ent(s1.rtable, d).seqno
    {
      assert EntryStep(Ent(s1.rtable, d), Ent(s2.rtable, d), d, inp);
      StepTrans(Ent(s0.rtable, d), Ent(s1.rtable, d), Ent(s2.rtable, d), d, s0.maxPaths, inp);
    }
    forall k | |s0.outbox| <= k < |s2.outbox|
      ensures MaySend(s2, s2.outbox[k], inp)
      ensures AdvertOf(s2.outbox[k]).Some? ==> AdvertOf(s2.outbox[k]).value.dst == s2.index
    {
      if k < |s1.outbox| {
        assert s2.outbox[k] == s1.outbox[k];
        MaySendLater(s1, s2, s1.outbox[k], inp);
      }
    }
  }

  // ---------------------------------------------------------------- events without an offer

  lemma StoreSame(s: Node, dst: Addr, e: Entry)
    requires SameEntry(Ent(s.rtable, dst), e)
    ensures SameNode(s, Store(s, dst, e))
  {
  }

  lemma RequestedSame(e: Entry, now: real)
    ensures SameEntry(e, Requested(e, now))
  {
  }

  lemma RequestSentQuiet(s: Node, dst: Addr, e: Entry, ttl: int, now: real)
    requires NodeOk(s) && SameEntry(Ent(s.rtable, dst), e)
    ensures Quiet(s, Send(Store(s, dst, e).(bid := s.bid + 1, seqno := s.seqno + 2),
                          Rreq(s.index, ttl, 0, s.bid, dst, e.seqno, s.index, s.seqno + 2, now, 0)), None)
  {
    var s1 := Store(s, dst, e);
    StoreSame(s, dst, e);
    QuietStart(s, s1, None);
    var s2 := s1.(bid := s.bid + 1, seqno := s.seqno + 2);
    QuietRaise(s, s1, s2, None);
    QuietSend(s, s2, Rreq(s.index, ttl, 0, s.bid, dst, e.seqno, s.index, s2.seqno, now, 0), None);
  }

  lemma SendRequestQuiet(s: Node, dst: Addr, now: real)
    requires NodeOk(s)
    ensures Quiet(s, SendRequest(s, dst, now), None)
  {
    var e := Ent(s.rtable, dst);
    if e.flags == Up || e.reqTimeout > now {
      SameRefl(s);
      QuietStart(s, s, None);
    } else if e.reqCnt > RREQ_RETRIES {
      var s1 := Store(s, dst, e.(reqTimeout := now + MAX_RREQ_TIMEOUT, reqCnt := 0));
      StoreSame(s, dst, e.(reqTimeout := now + MAX_RREQ_TIMEOUT, reqCnt := 0));
      QuietStart(s, s1, None);
      PurgedSame(s1, SendRequest(s, dst, now));
      QuietSame(s, s1, SendRequest(s, dst, now), None);
    } else {
      var e1 := Requested(e, now);
      RequestedSame(e, now);
      RequestSentQuiet(s, dst, e1, RequestTtl(e), now);
    }
  }

  lemma SendErrorQuiet(s0: Node, s: Node, us: seq<Unreachable>, inp: Option<Msg>)
    requires Quiet(s0, s, inp) && ReportOk(s, us)
    ensures Quiet(s0, SendError(s, us), inp)
  {
    if us != [] { QuietSend(s0, s, Rerr(s.index, us), inp); }
  }

  /** Losing one neighbour cuts a path or takes the entry down. */
  lemma FailStep(e: Entry, id: Addr, dst: Addr, maxPaths: int)
    requires EntryOk(e, maxPaths)
    ensures EntryOk(FailEntry(e, id), maxPaths) && EntryStep(e, FailEntry(e, id), dst, None)
    ensures FailEntry(e, id).paths == [] ==> LostNumber(FailEntry(e, id).seqno)
  {
    if Fails(e, id) {
      PathDeleteParts(e.paths, id);
      if CutPath(e, id).paths != [] { CutStep(e, CutPath(e, id), dst, maxPaths, None); }
      else { DownStep(e, FailEntry(e, id), dst, maxPaths, None); }
    } else {
      SameEntryStep(e, e, dst, None);
    }
  }

  lemma FailTableQuiet(s: Node, id: Addr)
    requires NodeOk(s)
    ensures Quiet(s, s.(rtable := FailTable(s.rtable, id)), None)
  {
    var s1 := s.(rtable := FailTable(s.rtable, id));
    forall d
      ensures EntryOk(Ent(s1.rtable, d), s.maxPaths) && EntryStep(Ent(s.rtable, d), Ent(s1.rtable, d), d, None)
    {
      if d in s.rtable { FailStep(Ent(s.rtable, d), id, d, s.maxPaths); }
      else { SameEntryStep(FRESH_ENTRY, FRESH_ENTRY, d, None); assert EntryOk(Ent(s.rtable, d), s.maxPaths); }
    }
  }

  lemma {:induction false} FailReportFrom(t: Table, l: seq<Addr>, id: Addr, i: nat)
    requires i < |FailReport(t, l, id)|
    ensures var u := FailReport(t, l, id)[i];
            u.dst in t && FailEntry(t[u.dst], id).paths == [] && u.seqno == FailEntry(t[u.dst], id).seqno
  {
    var item := FailItem(t, l[0], id);
    if i >= |item| { FailReportFrom(t, l[1..], id, i - |item|); }
  }

  lemma HandleLinkFailureQuiet(s: Node, id: Addr)
    requires NodeOk(s)
    ensures Quiet(s, HandleLinkFailure(s, id), None)
  {
    var s1 := s.(rtable := FailTable(s.rtable, id));
    FailTableQuiet(s, id);
    var us := FailReport(s.rtable, s.rlist, id);
    forall i | 0 <= i < |us| ensures us[i].seqno <= Ent(s1.rtable, us[i].dst).seqno && LostNumber(us[i].seqno) {
      FailReportFrom(s.rtable, s.rlist, id, i);
      FailStep(Ent(s.rtable, us[i].dst), id, us[i].dst, s.maxPaths);
    }
    SendErrorQuiet(s, s1, us, None);
  }

  lemma {:induction false} SalvageSame(s: Node, ifq: seq<Queued>, id: Addr, now: real)
    ensures SameNode(s, SalvageAll(s, ifq, id, now))
    decreases |ifq|
  {
    if ifq == [] {
      SameRefl(s);
    } else {
      var s1 := if ifq[0].nexthop == id then Salvage(s, ifq[0], now) else s;
      SameRefl(s);
      ForwardDataSame(s, ifq[0].p.daddr, ifq[0].p, now);
      SalvageSame(s1, ifq[1..], id, now);
      SameNodeTrans(s, s1, SalvageAll(s1, ifq[1..], id, now));
    }
  }

  lemma NbDeleteQuiet(s: Node, id: Addr, ifq: seq<Queued>, now: real)
    requires NodeOk(s)
    ensures Quiet(s, NbDelete(s, id, ifq, now), None)
  {
    var s1 := s.(seqno := s.seqno + 2, nbhead := NbRemove(s.nbhead, id));
    var s2 := HandleLinkFailure(s1, id);
    QuietStart(s, s, None);
    QuietRaise(s, s, s1, None);
    HandleLinkFailureQuiet(s1, id);
    QuietTrans(s, s1, s2, None);
    SalvageSame(s2, ifq, id, now);
    QuietSame(s, s2, SalvageAll(s2, ifq, id, now), None);
  }

  lemma {:induction false} NbPurgeQuiet(s: Node, nb: seq<Neighbor>, ifq: seq<Queued>, now: real)
    requires NodeOk(s)
    ensures Quiet(s, NbPurge(s, nb, ifq, now), None)
    decreases |nb|
  {
    if nb == [] {
      QuietStart(s, s, None);
    } else if nb[0].expire <= now {
      var s1, rest := NbDelete(s, nb[0].addr, ifq, now), Elsewhere(ifq, nb[0].addr);
      NbDeleteQuiet(s, nb[0].addr, ifq, now);
      NbPurgeQuiet(s1, nb[1..], rest, now);
      QuietTrans(s, s1, NbPurge(s1, nb[1..], rest, now), None);
    } else {
      NbPurgeQuiet(s, nb[1..], ifq, now);
    }
  }

  /** Dropping expired paths, and with the last of them the route. */
  lemma ExpiryStep(e: Entry, dst: Addr, now: real, maxPaths: int)
    requires EntryOk(e, maxPaths) && e.flags == Up
    ensures var e1 := Purged(e, now);
            var e' := if e1.paths != [] then e1 else RtDown(e1.(seqno := ExpiredSeqno(e1)));
            EntryOk(e', maxPaths) && EntryStep(e, e', dst, None)
  {
    var e1 := Purged(e, now);
    PathPurgeParts(e.paths, now);
    if e1.paths != [] { CutStep(e, e1, dst, maxPaths, None); }
    else { DownStep(e, RtDown(e1.(seqno := ExpiredSeqno(e1))), dst, maxPaths, None); }
  }

  lemma PurgeRouteQuiet(s: Node, dst: Addr, now: real)
    requires NodeOk(s)
    ensures Quiet(s, PurgeRoute(s, dst, now), None)
  {
    var e := Ent(s.rtable, dst);
    var s' := PurgeRoute(s, dst, now);
    if e.flags == Up && e.expire < now {
      ExpiryStep(e, dst, now, s.maxPaths);
      QuietStart(s, s, None);
      var e1 := Purged(e, now);
      var e' := if e1.paths != [] then e1 else RtDown(e1.(seqno := ExpiredSeqno(e1)));
      QuietStore(s, s, dst, e', None);
      PurgedSame(Store(s, dst, e'), s');
      QuietSame(s, Store(s, dst, e'), s', None);
    } else if e.flags == Up {
      FlushSame(s, dst, now);
      QuietStart(s, s', None);
    } else if Find(s.rqueue, dst) {
      SendRequestQuiet(s, dst, now);
    } else {
      QuietStart(s, s', None);
    }
  }

  lemma PurgedSame(s: Node, s': Node)
    requires s'.index == s.index && s'.maxPaths == s.maxPaths && s'.lenDiff == s.lenDiff && s'.seqno == s.seqno
    requires s'.rtable == s.rtable && s'.outbox == s.outbox
    ensures SameNode(s, s')
  {
  }

  lemma SameRefl(s: Node)
    ensures SameNode(s, s)
  {
  }

  lemma {:induction false} PurgeRoutesQuiet(s: Node, l: seq<Addr>, now: real)
    requires NodeOk(s)
    ensures Quiet(s, PurgeRoutes(s, l, now), None)
    decreases |l|
  {
    if l == [] {
      QuietStart(s, s, None);
    } else {
      PurgeRouteQuiet(s, l[0], now);
      PurgeRoutesQuiet(PurgeRoute(s, l[0], now), l[1..], now);
      QuietTrans(s, PurgeRoute(s, l[0], now), PurgeRoutes(s, l, now), None);
    }
  }

  lemma ResolveQuiet(s: Node, p: Packet, now: real)
    requires NodeOk(s)
    ensures Quiet(s, Resolve(s, p, now), None)
  {
    var e := Ent(s.rtable, p.daddr);
    var s1 := Store(s, p.daddr, e);
    StoreSame(s, p.daddr, e);
    QuietStart(s, s1, None);
    assert EntryOk(Ent(s.rtable, p.daddr), s.maxPaths);
    if e.flags == Up {
      ForwardDataSame(s1, p.daddr, p, now);
      QuietSame(s, s1, ForwardData(s1, p.daddr, p, now), None);
    } else if p.saddr == s.index {
      var s2 := s1.(rqueue := Enque(s1.rqueue, p, now));
      PurgedSame(s1, s2);
      QuietSame(s, s1, s2, None);
      SendRequestQuiet(s2, p.daddr, now);
      QuietTrans(s, s2, SendRequest(s2, p.daddr, now), None);
    } else {
      QuietSend(s, s1, Rerr(s.index, [Unreachable(p.daddr, e.seqno)]), None);
    }
  }

  lemma ForwardBroadcastQuiet(s: Node, p: Packet, up: bool)
    requires NodeOk(s)
    ensures Quiet(s, ForwardBroadcast(s, p, up), None)
  {
    SameRefl(s);
    assert SameNode(s, ForwardBroadcast(s, p, up));
    QuietStart(s, ForwardBroadcast(s, p, up), None);
  }

  lemma RecvDataQuiet(s: Node, p: Packet, up: bool, now: real)
    requires NodeOk(s)
    ensures Quiet(s, RecvData(s, p, up, now), None)
  {
    var s' := RecvData(s, p, up, now);
    if s' == s {
      SameRefl(s);
      QuietStart(s, s', None);
    } else if p.daddr == IP_BROADCAST {
      var q := if p.saddr == s.index then p else p.(ttl := p.ttl - 1);
      assert s' == ForwardBroadcast(s, q, up);
      ForwardBroadcastQuiet(s, q, up);
    } else {
      var q := p.(ttl := if p.saddr == s.index then NETWORK_DIAMETER else p.ttl - 1);
      assert s' == Resolve(s, q, now);
      ResolveQuiet(s, q, now);
    }
  }

  lemma SayHelloQuiet(s: Node)
    requires NodeOk(s)
    ensures Quiet(s, SayHello(s), None)
  {
    QuietStart(s, s, None);
    if HasActiveRoute(s) {
      QuietSend(s, s, Hello(s.index, s.seqno, (1.0 + ALLOWED_HELLO_LOSS) * HELLO_INTERVAL), None);
    }
  }

  // ---------------------------------------------------------------- errors

  lemma BrokenStep(e: Entry, u: Unreachable, from: Addr, maxPaths: int, inp: Option<Msg>)
    requires EntryOk(e, maxPaths) && Breaks(e, u, from) && LostNumber(u.seqno) && Reported(inp, u.dst, u.seqno)
    ensures var e' := BrokenEntry(e, u, from);
            && EntryOk(e', maxPaths) && EntryStep(e, e', u.dst, inp)
            && (e'.paths == [] ==> LostNumber(e'.seqno))
  {
    PathDeleteParts(e.paths, from);
    var e' := BrokenEntry(e, u, from);
    if e'.paths != [] {
      CutStep(e, CutPath(e, from), u.dst, maxPaths, inp);
    } else {
      DownStep(e, e', u.dst, maxPaths, inp);
    }
  }

  /** What the report says of one unreachable destination is what the entry says then. */
  lemma BreakRouteQuiet(s: Node, u: Unreachable, from: Addr, inp: Option<Msg>)
    requires NodeOk(s) && LostNumber(u.seqno) && Reported(inp, u.dst, u.seqno)
    ensures Quiet(s, s.(rtable := BreakRoute(s.rtable, u, from)), inp)
    ensures ReportOk(s.(rtable := BreakRoute(s.rtable, u, from)), ReportItem(s.rtable, u, from))
  {
    QuietStart(s, s, inp);
    if u.dst in s.rtable && Breaks(s.rtable[u.dst], u, from) {
      var e := Ent(s.rtable, u.dst);
      BrokenStep(e, u, from, s.maxPaths, inp);
      QuietStore(s, s, u.dst, BrokenEntry(e, u, from), inp);
      assert s.(rtable := BreakRoute(s.rtable, u, from)) == Store(s, u.dst, BrokenEntry(e, u, from));
    }
  }

  lemma ReportLater(s: Node, s': Node, us: seq<Unreachable>)
    requires ReportOk(s, us)
    requires forall d {:trigger Ent(s'.rtable, d)} :: Ent(s'.rtable, d).seqno >= Ent(s.rtable, d).seqno
    ensures ReportOk(s', us)
  {
  }

  /** The list us is part of the error message that arrived. */
  ghost predicate PartOf(us: seq<Unreachable>, inp: Option<Msg>) {
    forall i :: 0 <= i < |us| ==> LostNumber(us[i].seqno) && Reported(inp, us[i].dst, us[i].seqno)
  }

  lemma PartOfRest(us: seq<Unreachable>, inp: Option<Msg>)
    requires PartOf(us, inp) && us != []
    ensures PartOf(us[1..], inp) && LostNumber(us[0].seqno) && Reported(inp, us[0].dst, us[0].seqno)
  {
  }

  lemma {:induction false} AfterErrorsQuiet(s: Node, us: seq<Unreachable>, from: Addr, inp: Option<Msg>)
    requires NodeOk(s) && NoAdvert(inp) && PartOf(us, inp)
    ensures Quiet(s, s.(rtable := AfterErrors(s.rtable, us, from)), inp)
    decreases |us|
  {
    if us == [] {
      SameRefl(s);
      QuietStart(s, s, inp);
    } else {
      var s1 := s.(rtable := BreakRoute(s.rtable, us[0], from));
      PartOfRest(us, inp);
      BreakRouteQuiet(s, us[0], from, inp);
      AfterErrorsQuiet(s1, us[1..], from, inp);
      QuietTrans(s, s1, s.(rtable := AfterErrors(s.rtable, us, from)), inp);
    }
  }

  lemma ReportJoin(s: Node, us: seq<Unreachable>, vs: seq<Unreachable>)
    requires ReportOk(s, us) && ReportOk(s, vs)
    ensures ReportOk(s, us + vs)
  {
  }

  lemma {:induction false} ErrorReportOk(s: Node, us: seq<Unreachable>, from: Addr, inp: Option<Msg>)
    requires NodeOk(s) && NoAdvert(inp) && PartOf(us, inp)
    ensures ReportOk(s.(rtable := AfterErrors(s.rtable, us, from)), ErrorReport(s.rtable, us, from))
    decreases |us|
  {
    if us != [] {
      var s1 := s.(rtable := BreakRoute(s.rtable, us[0], from));
      var s2 := s.(rtable := AfterErrors(s.rtable, us, from));
      PartOfRest(us, inp);
      BreakRouteQuiet(s, us[0], from, inp);
      ErrorReportOk(s1, us[1..], from, inp);
      AfterErrorsQuiet(s1, us[1..], from, inp);
      ReportLater(s1, s2, ReportItem(s.rtable, us[0], from));
      ReportJoin(s2, ReportItem(s.rtable, us[0], from), ErrorReport(s1.rtable, us[1..], from));
    }
  }

  lemma RecvErrorQuiet(s: Node, m: Msg)
    requires NodeOk(s) && m.Rerr? && AllLost(m.unreachable)
    ensures Quiet(s, RecvError(s, m), Some(m))
  {
    AfterErrorsQuiet(s, m.unreachable, m.saddr, Some(m));
    ErrorReportOk(s, m.unreachable, m.saddr, Some(m));
    SendErrorQuiet(s, s.(rtable := AfterErrors(s.rtable, m.unreachable, m.saddr)),
                   ErrorReport(s.rtable, m.unreachable, m.saddr), Some(m));
  }

  // ---------------------------------------------------------------- offers and answers

  /** The node has taken in what the message offers, and its entry for the offered destination is up. */
  ghost predicate Taken(s: Node, s': Node, a: Advert, inp: Option<Msg>) {
    && Quiet(s, s', inp)
    && Ent(s'.rtable, a.dst).flags == Up && Ent(s'.rtable, a.dst).seqno == a.seqno
  }

  lemma TakeOffer(s: Node, s0: Node, o: Offer, a: Advert, inp: Option<Msg>, now: real)
    requires NodeOk(s) && SameNode(s, s0) && s0.rtable == s.rtable
    requires OfferGood(Ent(s.rtable, a.dst), o, a, s.maxPaths, inp)
    ensures Quiet(s, Store(s0, a.dst, o.e), inp)
    ensures !o.drop ==> Taken(s, Flush(Store(s0, a.dst, ResetSearch(o.e)), a.dst, now), a, inp)
  {
    QuietStart(s, s0, inp);
    QuietStore(s, s0, a.dst, o.e, inp);
    if !o.drop {
      var s1 := Store(s0, a.dst, ResetSearch(o.e));
      assert SameNode(Store(s0, a.dst, o.e), s1);
      QuietSame(s, Store(s0, a.dst, o.e), s1, inp);
      FlushSame(s1, a.dst, now);
      QuietSame(s, s1, Flush(s1, a.dst, now), inp);
      assert SameEntry(Ent(s1.rtable, a.dst), Ent(Flush(s1, a.dst, now).rtable, a.dst));
    }
  }

  /** An entry that is up is advertised with the largest hop count of its paths. */
  lemma AdvertiseQuiet(s0: Node, s: Node, dst: Addr, byOther: bool, inp: Option<Msg>)
    requires Quiet(s0, s, inp) && Ent(s.rtable, dst).flags == Up
    ensures var rt := Advertise(Ent(s.rtable, dst)).(error := byOther || Ent(s.rtable, dst).error);
            && Quiet(s0, Store(s, dst, rt), inp) && EntryOk(rt, s.maxPaths)
            && rt.advHops.Finite? && rt.seqno == Ent(s.rtable, dst).seqno && rt.flags == Up
  {
    var e := Ent(s.rtable, dst);
    var rt := Advertise(e).(error := byOther || e.error);
    AdvertiseOk(e, s.maxPaths);
    assert EntryStep(Ent(s0.rtable, dst), e, dst, inp);
    AdvertiseStep(Ent(s0.rtable, dst), e, dst, inp);
    StepTransSame(Ent(s0.rtable, dst), Advertise(e), rt, dst, inp);
    SameEntryOk(Advertise(e), rt, s.maxPaths);
    QuietStore(s0, s, dst, rt, inp);
  }

  lemma AnswerSeqnoEven(own: nat, wanted: nat)
    ensures AnswerSeqno(own, wanted) >= own && AnswerSeqno(own, wanted) % 2 == 0
    ensures AnswerSeqno(own, wanted) >= wanted
    ensures own % 2 == 0 && wanted <= own + 1 ==>
              AnswerSeqno(own, wanted) == if wanted == own + 1 then own + 2 else own
  {
  }

  lemma OwnAnswerLegal(s0: Node, s: Node, m: Msg, inp: Option<Msg>)
    requires Quiet(s0, s, inp) && m.Rreq? && m.dst == s.index
    ensures Legal(s0, OwnAnswer(s, m), inp)
  {
    AnswerSeqnoEven(s.seqno, m.dstSeqno);
    var s1 := s.(seqno := AnswerSeqno(s.seqno, m.dstSeqno));
    QuietRaise(s0, s, s1, inp);
    QuietSend(s0, s1, Rrep(m.src, m.saddr, NETWORK_DIAMETER, 0, s.index, s1.seqno, s.index, MY_ROUTE_TIMEOUT,
                           m.timestamp, m.bcastId, m.saddr), inp);
  }

  lemma TableAnswerLegal(s0: Node, s: Node, m: Msg, now: real, inp: Option<Msg>)
    requires Quiet(s0, s, inp) && m.Rreq? && m.dst != s.index && CanAnswer(s.rtable, m)
    ensures Legal(s0, TableAnswer(s, m, now), inp)
  {
    AdvertiseQuiet(s0, s, m.dst, true, inp);
    var rt := Advertise(Ent(s.rtable, m.dst)).(error := true);
    var s1 := Store(s, m.dst, rt);
    var s2 := s1.(bihead := IdMark(s.bihead, m.src, m.bcastId));
    PurgedSame(s1, s2);
    QuietSame(s0, s1, s2, inp);
    var lifetime := if rt.paths == [] then 0.0 else rt.paths[0].expire - now;
    LegalSend(s0, s2, Rrep(m.src, m.saddr, NETWORK_DIAMETER, rt.advHops.n, m.dst, rt.seqno, s.index, lifetime,
                           m.timestamp, m.bcastId, FirstLasthop(rt)), inp);
  }

  lemma PassOnLegal(s0: Node, s: Node, m: Msg)
    requires Quiet(s0, s, Some(m)) && m.Rreq? && m.src != s.index
    requires Ent(s.rtable, m.src).flags == Up && Ent(s.rtable, m.src).seqno == m.srcSeqno
    ensures Legal(s0, PassOn(s, m), Some(m))
  {
    AdvertiseQuiet(s0, s, m.src, false, Some(m));
    var rt0 := Advertise(Ent(s.rtable, m.src));
    var s1 := Store(s, m.src, rt0);
    if m.ttl - 1 != 0 {
      assert m.dst in s.rtable ==> Ent(s1.rtable, m.dst).seqno == s.rtable[m.dst].seqno;
      LegalSend(s0, s1, Rreq(s.index, m.ttl - 1, rt0.advHops.n, m.bcastId, m.dst,
                             if m.dst in s.rtable then Max(s.rtable[m.dst].seqno, m.dstSeqno) else m.dstSeqno,
                             m.src, m.srcSeqno, m.timestamp, FirstLasthop(rt0)), Some(m));
    }
  }

  lemma AnswerLegal(s0: Node, s: Node, m: Msg, haveReverse: bool, seen: bool, now: real)
    requires Quiet(s0, s, Some(m)) && m.Rreq? && m.src != s.index
    requires Ent(s.rtable, m.src).flags == Up && Ent(s.rtable, m.src).seqno == m.srcSeqno
    ensures Legal(s0, Answer(s, m, haveReverse, seen, now), Some(m))
  {
    if m.dst == s.index {
      OwnAnswerLegal(s0, s, m, Some(m));
    } else if CanAnswer(s.rtable, m) {
      if haveReverse && IdCount(s.bihead, m.src, m.bcastId) == 0 { TableAnswerLegal(s0, s, m, now, Some(m)); }
    } else if !seen {
      PassOnLegal(s0, s, m);
    }
  }

  lemma OfferOfGood(s: Node, m: Msg, now: real)
    requires NodeOk(s) && m.Rreq? && InputOk(m)
    ensures OfferGood(Ent(s.rtable, m.src), OfferOf(s, m, now), AdvertOf(m).value, s.maxPaths, Some(m))
  {
    var p := Path(m.saddr, m.hopCount + 1, now + REV_ROUTE_LIFE, FirstHop(s, m));
    var a := AdvertOf(m).value;
    var e := Ent(s.rtable, m.src);
    assert EntryOk(e, s.maxPaths);
    var o := ReverseOffer(e, s.maxPaths, s.lenDiff, a.seqno, a.hops, p, m.dst == s.index);
    assert OfferOf(s, m, now) == o;
    ReverseOfferGood(e, s.maxPaths, s.lenDiff, a, p, m.dst == s.index, Some(m));
  }

  lemma RequestTaken(s: Node, m: Msg, now: real)
    requires NodeOk(s) && m.Rreq? && InputOk(m)
    ensures var o := OfferOf(Remember(s, m, now), m, now);
            && Quiet(s, Store(Remember(s, m, now), m.src, o.e), Some(m))
            && (!o.drop ==> Taken(s, Flush(Store(Remember(s, m, now), m.src, ResetSearch(o.e)), m.src, now),
                                  AdvertOf(m).value, Some(m)))
  {
    var s1 := Remember(s, m, now);
    PurgedSame(s, s1);
    SameNodeOk(s, s1);
    OfferOfGood(s1, m, now);
    TakeOffer(s, s1, OfferOf(s1, m, now), AdvertOf(m).value, Some(m), now);
  }

  lemma RecvRequestLegal(s: Node, m: Msg, now: real)
    requires NodeOk(s) && m.Rreq? && InputOk(m)
    ensures Legal(s, RecvRequest(s, m, now), Some(m))
  {
    if m.src == s.index {
      SameRefl(s);
      Unchanged(s, s, Some(m));
    } else {
      RequestTaken(s, m, now);
      var s1 := Remember(s, m, now);
      var o := OfferOf(s1, m, now);
      if !o.drop {
        var s2 := Flush(Store(s1, m.src, ResetSearch(o.e)), m.src, now);
        AnswerLegal(s, s2, m, o.kept, IdSeen(s.bihead, m.src, m.bcastId), now);
      }
    }
  }

  lemma ForwardReplyLegal(s0: Node, s: Node, m: Msg, now: real)
    requires m.Rrep? && Taken(s0, s, AdvertOf(m).value, Some(m)) && m.dst != s.index
    ensures Legal(s0, ForwardReply(s, m, now), Some(m))
  {
    if CanForward(s, m) {
      AdvertiseQuiet(s0, s, m.dst, true, Some(m));
      var rt := Advertise(Ent(s.rtable, m.dst)).(error := true);
      var s1 := Store(s, m.dst, rt);
      var s2 := s1.(bihead := IdMark(s.bihead, m.daddr, m.bcastId));
      PurgedSame(s1, s2);
      QuietSame(s0, s1, s2, Some(m));
      var rt0 := Used(Ent(s2.rtable, m.daddr), false, now);
      UsedSame(Ent(s2.rtable, m.daddr), false, now);
      var s3 := Store(s2, m.daddr, rt0);
      StoreSame(s2, m.daddr, rt0);
      QuietSame(s0, s2, s3, Some(m));
      if m.ttl - 1 != 0 {
        assert SameEntry(Ent(s2.rtable, m.dst), Ent(s3.rtable, m.dst));
        LegalSend(s0, s3, Rrep(m.daddr, FirstNexthop(rt0), m.ttl - 1, rt.advHops.n, m.dst, m.dstSeqno, s.index,
                               m.lifetime, m.timestamp, m.bcastId, FirstLasthop(Ent(s3.rtable, m.dst))), Some(m));
      }
    }
  }

  lemma ReplyOfferGood(s: Node, m: Msg, now: real)
    requires NodeOk(s) && m.Rrep? && InputOk(m)
    ensures OfferGood(Ent(s.rtable, m.dst), ReplyOffer(s, m, now), AdvertOf(m).value, s.maxPaths, Some(m))
  {
    var p := Path(m.src, m.hopCount + 1, now + m.lifetime, m.firstHop);
    var a := AdvertOf(m).value;
    var e := Ent(s.rtable, m.dst);
    assert EntryOk(e, s.maxPaths);
    var o := ForwardOffer(e, s.maxPaths, s.lenDiff, a.seqno, a.hops, p);
    assert ReplyOffer(s, m, now) == o;
    ForwardOfferGood(e, s.maxPaths, s.lenDiff, a, p, Some(m));
  }

  lemma ReplyTaken(s: Node, m: Msg, now: real)
    requires NodeOk(s) && m.Rrep? && InputOk(m)
    ensures var o := ReplyOffer(s, m, now);
            && Quiet(s, Store(s, m.dst, o.e), Some(m))
            && (!o.drop ==> Taken(s, Flush(Store(s, m.dst, ResetSearch(o.e)), m.dst, now), AdvertOf(m).value, Some(m)))
  {
    ReplyOfferGood(s, m, now);
    SameRefl(s);
    TakeOffer(s, s, ReplyOffer(s, m, now), AdvertOf(m).value, Some(m), now);
  }

  /** Whatever a request offers, the entry afterwards is in order. */
  lemma OfferStored(s: Node, m: Msg, now: real)
    requires NodeOk(s) && m.Rreq? && InputOk(m)
    ensures var o := OfferOf(s, m, now);
            NodeOk(Store(s, m.src, o.e)) && (!o.drop ==> o.e.flags == Up)
  {
    var o := OfferOf(s, m, now);
    OfferOfGood(s, m, now);
    SameRefl(s);
    QuietStart(s, s, Some(m));
    QuietStore(s, s, m.src, o.e, Some(m));
  }

  lemma ReplyStored(s: Node, m: Msg, now: real)
    requires NodeOk(s) && m.Rrep? && InputOk(m)
    ensures var o := ReplyOffer(s, m, now);
            NodeOk(Store(s, m.dst, o.e)) && (!o.drop ==> o.e.flags == Up)
  {
    var o := ReplyOffer(s, m, now);
    ReplyOfferGood(s, m, now);
    SameRefl(s);
    QuietStart(s, s, Some(m));
    QuietStore(s, s, m.dst, o.e, Some(m));
  }

  /** A reply, or a hello read as one. */
  lemma RecvReplyLegal(s: Node, m: Msg, now: real)
    requires NodeOk(s) && m.Rrep? && InputOk(m)
    ensures Legal(s, RecvReply(s, m, now), Some(m))
  {
    if m.dst == s.index {
      SameRefl(s);
      Unchanged(s, s, Some(m));
    } else {
      ReplyTaken(s, m, now);
      var o := ReplyOffer(s, m, now);
      if !o.drop {
        var s1 := Flush(Store(s, m.dst, ResetSearch(o.e)), m.dst, now);
        if m.daddr != s.index { ForwardReplyLegal(s, s1, m, now); }
      }
    }
  }

  /** Messages that offer the same stand for each other. */
  lemma SameOffer(s: Node, s': Node, m: Msg, m': Msg)
    requires AdvertOf(m) == AdvertOf(m') && !m.Rreq? && !m.Rerr? && !m'.Rreq? && !m'.Rerr?
    requires Legal(s, s', Some(m))
    ensures Legal(s, s', Some(m'))
  {
    forall d ensures EntryStep(Ent(s.rtable, d), Ent(s'.rtable, d), d, Some(m')) {
      assert EntryStep(Ent(s.rtable, d), Ent(s'.rtable, d), d, Some(m));
    }
    forall k | |s.outbox| <= k < |s'.outbox| ensures MaySend(s', s'.outbox[k], Some(m')) {
      assert MaySend(s', s'.outbox[k], Some(m));
    }
  }

  lemma RecvHelloLegal(s: Node, m: Msg, now: real)
    requires NodeOk(s) && m.Hello? && InputOk(m)
    ensures Legal(s, RecvHello(s, m, now), Some(m))
  {
    var s' := RecvHello(s, m, now);
    var m' := HelloAsReply(s, m);
    var i := NbLookup(s.nbhead, m.dst);
    var s1 := s.(nbhead :=
      if i == |s.nbhead| then [Neighbor(m.dst, now + HELLO_INTERVAL * ALLOWED_HELLO_LOSS)] + s.nbhead
      else s.nbhead[i := s.nbhead[i].(expire := now + 1.5 * ALLOWED_HELLO_LOSS * HELLO_INTERVAL)]);
    PurgedSame(s, s1);
    SameNodeOk(s, s1);
    RecvReplyLegal(s1, m', now);
    SameOffer(s1, s', m', m);
    assert Legal(s, s', Some(m));
  }

  // ---------------------------------------------------------------- all events

  function Received(ev: Event): Option<Msg> {
    if ev.Deliver? then Some(ev.m) else None
  }

  lemma Irrelevant(s: Node, s': Node, m: Msg)
    requires m.Data? && Legal(s, s', None)
    ensures Legal(s, s', Some(m))
  {
    forall d ensures EntryStep(Ent(s.rtable, d), Ent(s'.rtable, d), d, Some(m)) {
      assert EntryStep(Ent(s.rtable, d), Ent(s'.rtable, d), d, None);
    }
    forall k | |s.outbox| <= k < |s'.outbox| ensures MaySend(s', s'.outbox[k], Some(m)) {
      assert MaySend(s', s'.outbox[k], None);
    }
  }

  /** Every event keeps the path-list invariant and changes entries only in the allowed ways. */
  lemma EventLegal(s: Node, ev: Event)
    requires NodeOk(s) && (ev.Deliver? ==> InputOk(ev.m))
    ensures Legal(s, Handle(s, ev), Received(ev))
  {
    match ev {
      case Deliver(m, now) =>
        match m {
           case Rreq(_, _, _, _, _, _, _, _, _, _) => RecvRequestLegal(s, m, now);
           case Rrep(_, _, _, _, _, _, _, _, _, _, _) => RecvReplyLegal(s, m, now);
           case Rerr(_, _) => RecvErrorQuiet(s, m);
           case Hello(_, _, _) => RecvHelloLegal(s, m, now);
           case Data(p, _) => RecvDataQuiet(s, ReceptionCounted(p), true, now); Irrelevant(s, Handle(s, ev), m);
         }
      case Originate(p, now) => RecvDataQuiet(s, p, false, now);
      case RouteTimer(now) => PurgeRoutesQuiet(s, s.rlist, now);
      case BroadcastTimer(now) => QuietStart(s, Handle(s, ev), None);
      case NeighborTimer(ifq, now) => NbPurgeQuiet(s, s.nbhead, ifq, now);
      case HelloTimer(now) => SayHelloQuiet(s);
    }
  }
}
