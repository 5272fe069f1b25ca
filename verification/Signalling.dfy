/** Admission control along paths of links. */
module Signalling {
  // Requests reserve on their way out, confirmations keep the reservation or give it back, teardowns end it.

  import opened Common

  const NFLOWS := 500

  // ---------------------------------------------------------------- one link

  /** A link and its parameter-based controller: capacity stands for utilization_ times bandwidth_. */
  datatype Link = Link(capacity: real, resvRate: real, pending: seq<int>, numfl: int)

  /** The number of flows starts at -1; only tracing sets it to 0. */
  function NewLink(capacity: real): Link {
    Link(capacity, 0.0, seq(NFLOWS, i => -1), -1)
  }

  /** The first slot with this flow id, or the number of slots. */
  function Lookup(pending: seq<int>, flowid: int): (i: nat)
    ensures i <= |pending|
    ensures i < |pending| ==> pending[i] == flowid
    ensures forall k :: 0 <= k < i ==> pending[k] != flowid
  {
    if pending == [] then 0 else if pending[0] == flowid then 0 else 1 + Lookup(pending[1..], flowid)
  }

  predicate Admits(l: Link, rate: real) {
    l.resvRate + rate <= l.capacity
  }

  /** A request at a link: whether it is admitted, and the link afterwards; the simulation ends when an admitted
      flow finds no free slot. */
  function Request(l: Link, flowid: int, rate: real): Option<Link> {
    if !Admits(l, rate) then Some(l)
    else
      var j := Lookup(l.pending, -1);
      if j == |l.pending| then None
      else Some(l.(resvRate := l.resvRate + rate, pending := l.pending[j := flowid], numfl := l.numfl + 1))
  }

  function Confirm(l: Link, flowid: int, rate: real, decision: bool): Link {
    var j := Lookup(l.pending, flowid);
    if j == |l.pending| then l
    else if decision then l.(pending := l.pending[j := -1])
    else l.(resvRate := l.resvRate - rate, pending := l.pending[j := -1], numfl := l.numfl - 1)
  }

  function Teardown(l: Link, rate: real): Link {
    l.(resvRate := l.resvRate - rate, numfl := l.numfl - 1)
  }

  /** add-trace with a trace channel attached. */
  function AddTrace(l: Link): Link {
    l.(numfl := 0)
  }

  // ---------------------------------------------------------------- flows and steps

  /** A flow and how far its messages have come: what the links on its path have decided, and how many of them
      the confirmation and the teardown have passed. */
  datatype Flow = Flow(id: int, rate: real, path: seq<nat>, admitted: seq<bool>, confirmed: nat, torn: nat)

  /** What upsets the books of a link: a teardown of a flow that it does not hold for good, and the start of a
      trace while it holds so many flows. */
  datatype Note = Stray(link: nat, rate: real) | Trace(link: nat, holders: int)

  /** log keeps these notes in the order of time. */
  datatype System = System(links: seq<Link>, flows: seq<Flow>, log: seq<Note>)

  predicate AllAdmitted(f: Flow) {
    forall j :: 0 <= j < |f.admitted| ==> f.admitted[j]
  }

  /** The messages of a flow follow one another along its path; only an accepted flow is torn down. */
  predicate Progress(f: Flow) {
    && |f.admitted| <= |f.path| && f.confirmed <= |f.admitted| && f.torn <= f.confirmed
    && (f.confirmed > 0 ==> |f.admitted| == |f.path|)
    && (f.torn > 0 ==> AllAdmitted(f))
  }

  ghost predicate FlowOk(f: Flow, links: nat) {
    && f.id != -1 && f.rate >= 0.0 && Progress(f)
    && (forall j :: 0 <= j < |f.path| ==> f.path[j] < links)
    && (forall j, k :: 0 <= j < k < |f.path| ==> f.path[j] != f.path[k])
  }

  predicate RequestEnabled(s: System, i: nat) {
    && i < |s.flows| && |s.flows[i].admitted| < |s.flows[i].path| && s.flows[i].path[|s.flows[i].admitted|] < |s.links|
    && Request(s.links[s.flows[i].path[|s.flows[i].admitted|]], s.flows[i].id, s.flows[i].rate).Some?
  }

  /** The request of flow i passes its next link. */
  function RequestStep(s: System, i: nat): System
    requires RequestEnabled(s, i)
  {
    var f := s.flows[i];
    var l := f.path[|f.admitted|];
    System(s.links[l := Request(s.links[l], f.id, f.rate).value],
           s.flows[i := f.(admitted := f.admitted + [Admits(s.links[l], f.rate)])], s.log)
  }

  predicate ConfirmEnabled(s: System, i: nat) {
    && i < |s.flows| && |s.flows[i].admitted| == |s.flows[i].path|
    && s.flows[i].confirmed < |s.flows[i].path| && s.flows[i].path[s.flows[i].confirmed] < |s.links|
  }

  /** The confirmation of flow i, which carries what all links together decided, passes its next link. */
  function ConfirmStep(s: System, i: nat): System
    requires ConfirmEnabled(s, i)
  {
    var f := s.flows[i];
    var l := f.path[f.confirmed];
    System(s.links[l := Confirm(s.links[l], f.id, f.rate, AllAdmitted(f))],
           s.flows[i := f.(confirmed := f.confirmed + 1)], s.log)
  }

  predicate TeardownEnabled(s: System, i: nat) {
    && i < |s.flows| && |s.flows[i].admitted| == |s.flows[i].path| && AllAdmitted(s.flows[i])
    && s.flows[i].torn < s.flows[i].confirmed <= |s.flows[i].path| && s.flows[i].path[s.flows[i].torn] < |s.links|
  }

  function TeardownStep(s: System, i: nat): System
    requires TeardownEnabled(s, i)
  {
    var f := s.flows[i];
    var l := f.path[f.torn];
    System(s.links[l := Teardown(s.links[l], f.rate)], s.flows[i := f.(torn := f.torn + 1)], s.log)
  }

  // ---------------------------------------------------------------- who holds what

  /** The place of link l on a path, or the length of the path. */
  function HopOf(path: seq<nat>, l: nat): (j: nat)
    ensures j <= |path|
    ensures j < |path| ==> path[j] == l
    ensures forall k :: 0 <= k < j ==> path[k] != l
  {
    if path == [] then 0 else if path[0] == l then 0 else 1 + HopOf(path[1..], l)
  }

  /** A flow holds its rate at hop j from its admission there until it is given back or torn down. */
  predicate HoldsHop(f: Flow, j: nat) {
    j < |f.admitted| && f.admitted[j] && f.torn <= j && (j < f.confirmed ==> AllAdmitted(f))
  }

  predicate Holds(f: Flow, l: nat) {
    HopOf(f.path, l) < |f.path| && HoldsHop(f, HopOf(f.path, l))
  }

  /** It waits there for its confirmation. */
  predicate Waits(f: Flow, l: nat) {
    Holds(f, l) && f.confirmed <= HopOf(f.path, l)
  }

  function Share(f: Flow, l: nat): real {
    if Holds(f, l) then f.rate else 0.0
  }

  function Count(f: Flow, l: nat): int {
    if Holds(f, l) then 1 else 0
  }

  /** The rates that the first n flows hold at link l. */
  function Held(flows: seq<Flow>, l: nat, n: nat): real
    requires n <= |flows|
  {
    if n == 0 then 0.0 else Held(flows, l, n - 1) + Share(flows[n - 1], l)
  }

  function Holders(flows: seq<Flow>, l: nat, n: nat): int
    requires n <= |flows|
  {
    if n == 0 then 0 else Holders(flows, l, n - 1) + Count(flows[n - 1], l)
  }

  /** The source of a flow sends a teardown whenever it stops: also when the flow was rejected, is torn down already
      or still waits for its confirmation. */
  predicate StrayEnabled(s: System, i: nat, l: nat) {
    i < |s.flows| && l < |s.links| && l in s.flows[i].path && (!Holds(s.flows[i], l) || Waits(s.flows[i], l))
  }

  function StrayStep(s: System, i: nat, l: nat): System
    requires StrayEnabled(s, i, l)
  {
    var rate := s.flows[i].rate;
    s.(links := s.links[l := Teardown(s.links[l], rate)], log := s.log + [Stray(l, rate)])
  }

  function TraceStep(s: System, l: nat): System
    requires l < |s.links|
  {
    s.(links := s.links[l := AddTrace(s.links[l])], log := s.log + [Trace(l, Holders(s.flows, l, |s.flows|))])
  }

  /** Flows take their steps in any order; a message that is lost just stops its flow. */
  ghost predicate Step(s: System, s': System) {
    || (exists i :: RequestEnabled(s, i) && s' == RequestStep(s, i))
    || (exists i :: ConfirmEnabled(s, i) && s' == ConfirmStep(s, i))
    || (exists i :: TeardownEnabled(s, i) && s' == TeardownStep(s, i))
    || (exists i, l :: StrayEnabled(s, i, l) && s' == StrayStep(s, i, l))
    || (exists l: nat :: l < |s.links| && s' == TraceStep(s, l))
  }

  ghost predicate Init(s: System) {
    && s.log == []
    && (forall l :: 0 <= l < |s.links| ==> s.links[l] == NewLink(s.links[l].capacity) && s.links[l].capacity >= 0.0)
    && (forall i :: 0 <= i < |s.flows| ==>
          FlowOk(s.flows[i], |s.links|) && s.flows[i].admitted == [] && s.flows[i].confirmed == s.flows[i].torn == 0)
    && (forall i, j :: 0 <= i < j < |s.flows| ==> s.flows[i].id != s.flows[j].id)
  }

  ghost predicate Run(run: seq<System>) {
    run != [] && Init(run[0]) && forall i :: 0 <= i < |run| - 1 ==> Step(run[i], run[i + 1])
  }

  // ---------------------------------------------------------------- the books

  /** The rates of the stray teardowns at link l. */
  function StrayRate(log: seq<Note>, l: nat): real {
    if log == [] then 0.0
    else
      var n := log[|log| - 1];
      StrayRate(log[..|log| - 1], l) + if n.Stray? && n.link == l then n.rate else 0.0
  }

  /** By how much the number of flows at link l is too small: one for the start at -1, or what was there when the
      trace began, and one for each stray teardown since. */
  function Missed(log: seq<Note>, l: nat): int {
    if log == [] then 1
    else
      var n := log[|log| - 1];
      if n.link != l then Missed(log[..|log| - 1], l)
      else if n.Trace? then n.holders
      else Missed(log[..|log| - 1], l) + 1
  }

  lemma Noted(log: seq<Note>, n: Note, l: nat)
    ensures StrayRate(log + [n], l) == StrayRate(log, l) + if n.Stray? && n.link == l then n.rate else 0.0
    ensures n.link != l ==> Missed(log + [n], l) == Missed(log, l)
    ensures n.link == l ==> Missed(log + [n], l) == if n.Trace? then n.holders else Missed(log, l) + 1
  {
    assert (log + [n])[..|log|] == log;
  }

  lemma {:induction false} HeldUpdate(flows: seq<Flow>, l: nat, i: nat, f: Flow, n: nat)
    requires n <= |flows| && i < |flows|
    ensures Held(flows[i := f], l, n) == Held(flows, l, n) + if i < n then Share(f, l) - Share(flows[i], l) else 0.0
    ensures Holders(flows[i := f], l, n) == Holders(flows, l, n) + if i < n then Count(f, l) - Count(flows[i], l) else 0
  {
    if n > 0 { HeldUpdate(flows, l, i, f, n - 1); }
  }

  /** Slots name flows, no flow twice. */
  ghost predicate NoTwice(pending: seq<int>) {
    forall a, b :: 0 <= a < b < |pending| && pending[a] != -1 ==> pending[a] != pending[b]
  }

  /** The slots of link l are those of the flows that wait there. */
  ghost predicate SlotsOk(pending: seq<int>, flows: seq<Flow>, l: nat) {
    && NoTwice(pending)
    && (forall i :: 0 <= i < |flows| ==> (Waits(flows[i], l) <==> flows[i].id in pending))
  }

  /** The books of link l: what is reserved is what is held less the stray teardowns, within the capacity, and those
      who wait have a slot. */
  ghost predicate LinkOk(s: System, l: nat)
    requires l < |s.links|
  {
    && s.links[l].resvRate == Held(s.flows, l, |s.flows|) - StrayRate(s.log, l)
    && s.links[l].resvRate <= s.links[l].capacity
    && s.links[l].numfl == Holders(s.flows, l, |s.flows|) - Missed(s.log, l)
    && SlotsOk(s.links[l].pending, s.flows, l)
  }

  ghost predicate Inv(s: System) {
    && (forall l :: 0 <= l < |s.links| ==> LinkOk(s, l))
    && (forall i :: 0 <= i < |s.flows| ==> FlowOk(s.flows[i], |s.links|))
    && (forall i, j :: 0 <= i < j < |s.flows| ==> s.flows[i].id != s.flows[j].id)
    && (forall k :: 0 <= k < |s.log| ==> NoteOk(s.log[k]))
  }

  predicate NoteOk(n: Note) {
    if n.Stray? then n.rate >= 0.0 else n.holders >= 0
  }

  // ---------------------------------------------------------------- steps keep the books

  lemma HopAt(path: seq<nat>, j: nat)
    requires j < |path| && forall a, b :: 0 <= a < b < |path| ==> path[a] != path[b]
    ensures HopOf(path, path[j]) == j
  {
    assert HopOf(path, path[j]) <= j;
  }

  /** A slot given to a flow that had none, or taken from one that had it. */
  lemma SlotFilled(pending: seq<int>, j: nat, id: int)
    requires NoTwice(pending) && j < |pending| && pending[j] == -1 && id !in pending && id != -1
    ensures NoTwice(pending[j := id])
    ensures forall x :: x != -1 ==> (x in pending[j := id] <==> x in pending || x == id)
  {
    var p := pending[j := id];
    forall x | x != -1 && x in pending ensures x in p {
      var k :| 0 <= k < |pending| && pending[k] == x;
      assert p[k] == x;
    }
    assert p[j] == id;
  }

  lemma SlotFreed(pending: seq<int>, j: nat)
    requires NoTwice(pending) && j < |pending| && pending[j] != -1
    ensures NoTwice(pending[j := -1])
    ensures forall x :: x != -1 ==> (x in pending[j := -1] <==> x in pending && x != pending[j])
  {
    var p := pending[j := -1];
    forall x | x != -1 && x in pending && x != pending[j] ensures x in p {
      var k :| 0 <= k < |pending| && pending[k] == x;
      assert p[k] == x;
    }
    forall x | x != -1 && x in p ensures x in pending && x != pending[j] {
      var k :| 0 <= k < |p| && p[k] == x;
      assert pending[k] == x;
    }
  }

  lemma {:induction false} HeldNonNegative(flows: seq<Flow>, l: nat, n: nat)
    requires n <= |flows| && forall i :: 0 <= i < n ==> flows[i].rate >= 0.0
    ensures Held(flows, l, n) >= 0.0 && Holders(flows, l, n) >= 0
  {
    if n > 0 { HeldNonNegative(flows, l, n - 1); }
  }

  /** The other links see nothing of what flow i does at one of them. */
  ghost predicate SameElsewhere(f: Flow, f': Flow, l: nat) {
    forall k :: k != l ==> Holds(f', k) == Holds(f, k) && Waits(f', k) == Waits(f, k)
  }

  lemma OtherLink(s: System, i: nat, f': Flow, l: nat, k: nat, links': seq<Link>)
    requires Inv(s) && i < |s.flows| && k < |s.links| == |links'| && k != l && links'[k] == s.links[k]
    requires SameElsewhere(s.flows[i], f', l) && f'.rate == s.flows[i].rate && f'.id == s.flows[i].id
    ensures LinkOk(System(links', s.flows[i := f'], s.log), k)
  {
    HeldUpdate(s.flows, k, i, f', |s.flows|);
    assert LinkOk(s, k);
  }

  lemma StepInv(s: System, i: nat, f': Flow, l: nat, link': Link)
    requires Inv(s) && i < |s.flows| && l < |s.links| && SameElsewhere(s.flows[i], f', l)
    requires FlowOk(f', |s.links|) && f'.rate == s.flows[i].rate && f'.id == s.flows[i].id
    requires LinkOk(System(s.links[l := link'], s.flows[i := f'], s.log), l)
    ensures Inv(System(s.links[l := link'], s.flows[i := f'], s.log))
  {
    var s' := System(s.links[l := link'], s.flows[i := f'], s.log);
    forall k | 0 <= k < |s'.links| ensures LinkOk(s', k) {
      if k != l { OtherLink(s, i, f', l, k, s'.links); }
    }
  }

  /** The slots of link l after flow i alone has got or lost one. */
  lemma SlotsUpdate(s: System, i: nat, f': Flow, l: nat, pending': seq<int>)
    requires Inv(s) && i < |s.flows| && l < |s.links| && f'.id == s.flows[i].id && NoTwice(pending')
    requires forall x :: x != -1 && x != f'.id ==> (x in pending' <==> x in s.links[l].pending)
    requires f'.id in pending' <==> Waits(f', l)
    ensures SlotsOk(pending', s.flows[i := f'], l)
  {
    assert LinkOk(s, l);
    var flows' := s.flows[i := f'];
    forall k | 0 <= k < |flows'| ensures Waits(flows'[k], l) <==> flows'[k].id in pending' {
      if k != i {
        assert s.flows[k].id != s.flows[i].id;
        assert FlowOk(s.flows[k], |s.links|);
      }
    }
  }

  lemma RequestBooks(s: System, i: nat)
    requires Inv(s) && RequestEnabled(s, i)
    ensures LinkOk(RequestStep(s, i), s.flows[i].path[|s.flows[i].admitted|])
  {
    var f, s' := s.flows[i], RequestStep(s, i);
    var l := f.path[|f.admitted|];
    var f' := s'.flows[i];
    assert FlowOk(f, |s.links|) && LinkOk(s, l);
    HopAt(f.path, |f.admitted|);
    HeldUpdate(s.flows, l, i, f', |s.flows|);
    if Admits(s.links[l], f.rate) { SlotFilled(s.links[l].pending, Lookup(s.links[l].pending, -1), f.id); }
    SlotsUpdate(s, i, f', l, s'.links[l].pending);
  }

  lemma RequestInv(s: System, i: nat)
    requires Inv(s) && RequestEnabled(s, i)
    ensures Inv(RequestStep(s, i))
  {
    var f, s' := s.flows[i], RequestStep(s, i);
    var l := f.path[|f.admitted|];
    assert FlowOk(f, |s.links|);
    RequestBooks(s, i);
    StepInv(s, i, s'.flows[i], l, s'.links[l]);
  }

  lemma ConfirmBooks(s: System, i: nat)
    requires Inv(s) && ConfirmEnabled(s, i)
    ensures LinkOk(ConfirmStep(s, i), s.flows[i].path[s.flows[i].confirmed])
  {
    var f, s' := s.flows[i], ConfirmStep(s, i);
    var l := f.path[f.confirmed];
    var f' := s'.flows[i];
    assert FlowOk(f, |s.links|) && LinkOk(s, l);
    HopAt(f.path, f.confirmed);
    HeldUpdate(s.flows, l, i, f', |s.flows|);
    if Waits(f, l) { SlotFreed(s.links[l].pending, Lookup(s.links[l].pending, f.id)); }
    SlotsUpdate(s, i, f', l, s'.links[l].pending);
  }

  lemma ConfirmInv(s: System, i: nat)
    requires Inv(s) && ConfirmEnabled(s, i)
    ensures Inv(ConfirmStep(s, i))
  {
    var f, s' := s.flows[i], ConfirmStep(s, i);
    var l := f.path[f.confirmed];
    assert FlowOk(f, |s.links|);
    ConfirmBooks(s, i);
    StepInv(s, i, s'.flows[i], l, s'.links[l]);
  }

  lemma TeardownBooks(s: System, i: nat)
    requires Inv(s) && TeardownEnabled(s, i)
    ensures LinkOk(TeardownStep(s, i), s.flows[i].path[s.flows[i].torn])
  {
    var f, s' := s.flows[i], TeardownStep(s, i);
    var l := f.path[f.torn];
    var f' := s'.flows[i];
    assert FlowOk(f, |s.links|) && LinkOk(s, l);
    HopAt(f.path, f.torn);
    HeldUpdate(s.flows, l, i, f', |s.flows|);
    SlotsUpdate(s, i, f', l, s'.links[l].pending);
  }

  lemma TeardownInv(s: System, i: nat)
    requires Inv(s) && TeardownEnabled(s, i)
    ensures Inv(TeardownStep(s, i))
  {
    var f, s' := s.flows[i], TeardownStep(s, i);
    var l := f.path[f.torn];
    assert FlowOk(f, |s.links|);
    TeardownBooks(s, i);
    StepInv(s, i, s'.flows[i], l, s'.links[l]);
  }

  /** A note about link l leaves the flows and the other links alone. */
  lemma NoteInv(s: System, l: nat, link': Link, n: Note)
    requires Inv(s) && l < |s.links| && n.link == l && NoteOk(n)
    requires LinkOk(s.(links := s.links[l := link'], log := s.log + [n]), l)
    ensures Inv(s.(links := s.links[l := link'], log := s.log + [n]))
  {
    var s' := s.(links := s.links[l := link'], log := s.log + [n]);
    forall k | 0 <= k < |s'.links| ensures LinkOk(s', k) {
      if k != l {
        assert LinkOk(s, k);
        Noted(s.log, n, k);
      }
    }
    assert forall i :: 0 <= i < |s'.flows| ==> FlowOk(s.flows[i], |s.links|);
  }

  lemma StrayInv(s: System, i: nat, l: nat)
    requires Inv(s) && StrayEnabled(s, i, l)
    ensures Inv(StrayStep(s, i, l))
  {
    assert LinkOk(s, l) && FlowOk(s.flows[i], |s.links|);
    var n := Stray(l, s.flows[i].rate);
    Noted(s.log, n, l);
    NoteInv(s, l, Teardown(s.links[l], s.flows[i].rate), n);
  }

  lemma TraceInv(s: System, l: nat)
    requires Inv(s) && l < |s.links|
    ensures Inv(TraceStep(s, l))
  {
    assert LinkOk(s, l);
    assert forall i :: 0 <= i < |s.flows| ==> FlowOk(s.flows[i], |s.links|);
    HeldNonNegative(s.flows, l, |s.flows|);
    var n := Trace(l, Holders(s.flows, l, |s.flows|));
    Noted(s.log, n, l);
    NoteInv(s, l, AddTrace(s.links[l]), n);
  }

  lemma {:induction false} NothingHeld(flows: seq<Flow>, l: nat, n: nat)
    requires n <= |flows| && forall i :: 0 <= i < n ==> flows[i].admitted == []
    ensures Held(flows, l, n) == 0.0 && Holders(flows, l, n) == 0
  {
    if n > 0 { NothingHeld(flows, l, n - 1); }
  }

  lemma InitInv(s: System)
    requires Init(s)
    ensures Inv(s)
  {
    forall l | 0 <= l < |s.links| ensures LinkOk(s, l) {
      NothingHeld(s.flows, l, |s.flows|);
      assert s.links[l] == NewLink(s.links[l].capacity);
      forall i | 0 <= i < |s.flows| ensures !Waits(s.flows[i], l) && s.flows[i].id !in s.links[l].pending {
        assert FlowOk(s.flows[i], |s.links|);
      }
    }
  }

  lemma StepKeepsInv(s: System, s': System)
    requires Inv(s) && Step(s, s')
    ensures Inv(s')
  {
    if i :| RequestEnabled(s, i) && s' == RequestStep(s, i) { RequestInv(s, i); }
    else if i :| ConfirmEnabled(s, i) && s' == ConfirmStep(s, i) { ConfirmInv(s, i); }
    else if i :| TeardownEnabled(s, i) && s' == TeardownStep(s, i) { TeardownInv(s, i); }
    else if i, l :| StrayEnabled(s, i, l) && s' == StrayStep(s, i, l) { StrayInv(s, i, l); }
    else {
      var l: nat :| l < |s.links| && s' == TraceStep(s, l);
      TraceInv(s, l);
    }
  }

  lemma {:induction false} RunInv(run: seq<System>, k: nat)
    requires Run(run) && k < |run|
    ensures Inv(run[k])
  {
    if k == 0 {
      InitInv(run[0]);
    } else {
      RunInv(run, k - 1);
      assert Step(run[k - 1], run[k - 1 + 1]);
      StepKeepsInv(run[k - 1], run[k]);
    }
  }

  // ---------------------------------------------------------------- main results

  /** At any time, whatever the interleaving, each link has reserved the rates that it holds less those of stray
      teardowns, and no more than its capacity; and its number of flows is short by the stray teardowns and what it
      started with. */
  lemma ReservedIsHeld(run: seq<System>, k: nat, l: nat)
    requires Run(run) && k < |run| && l < |run[k].links|
    ensures var s := run[k];
            && s.links[l].resvRate == Held(s.flows, l, |s.flows|) - StrayRate(s.log, l)
            && s.links[l].resvRate <= s.links[l].capacity
            && s.links[l].numfl == Holders(s.flows, l, |s.flows|) - Missed(s.log, l)
  {
    RunInv(run, k);
    assert LinkOk(run[k], l);
  }

  lemma {:induction false} StrayRateZero(log: seq<Note>, l: nat)
    requires forall k :: 0 <= k < |log| ==> NoteOk(log[k])
    ensures StrayRate(log, l) >= 0.0
    ensures StrayRate(log, l) == 0.0 <==> forall n :: n in log && n.Stray? && n.link == l ==> n.rate == 0.0
  {
    if log != [] {
      var rest, last := log[..|log| - 1], log[|log| - 1];
      StrayRateZero(rest, l);
      assert log == rest + [last] && NoteOk(last);
    }
  }

  /** The reserved rate is right exactly when each stray teardown at the link was for a flow without a rate; then the
      link holds no more than its capacity. */
  lemma RateRight(run: seq<System>, k: nat, l: nat)
    requires Run(run) && k < |run| && l < |run[k].links|
    ensures var s := run[k];
            && (s.links[l].resvRate == Held(s.flows, l, |s.flows|) <==>
                  forall n :: n in s.log && n.Stray? && n.link == l ==> n.rate == 0.0)
            && ((forall n :: n in s.log && n.Stray? && n.link == l ==> n.rate == 0.0) ==>
                  Held(s.flows, l, |s.flows|) <= s.links[l].capacity)
  {
    ReservedIsHeld(run, k, l);
    RunInv(run, k);
    StrayRateZero(run[k].log, l);
  }

  /** Link l has room for this rate beside what it holds, less what stray teardowns have freed. */
  predicate HasRoom(s: System, l: nat, rate: real)
    requires l < |s.links|
  {
    Held(s.flows, l, |s.flows|) - StrayRate(s.log, l) + rate <= s.links[l].capacity
  }

  /** In every run a request is admitted at a link exactly when the link has room for it. */
  lemma AdmittedIffRoom(run: seq<System>, k: nat, i: nat)
    requires Run(run) && k + 1 < |run| && RequestEnabled(run[k], i) && run[k + 1] == RequestStep(run[k], i)
    ensures var f := run[k].flows[i];
            var l := f.path[|f.admitted|];
            run[k + 1].flows == run[k].flows[i := f.(admitted := f.admitted + [HasRoom(run[k], l, f.rate)])]
  {
    ReservedIsHeld(run, k, run[k].flows[i].path[|run[k].flows[i].admitted|]);
  }

  /** The request of flow i passes hop j in step k. */
  ghost predicate PassesHop(run: seq<System>, k: nat, i: nat, j: nat) {
    && k + 1 < |run| && RequestEnabled(run[k], i) && run[k + 1] == RequestStep(run[k], i)
    && |run[k].flows[i].admitted| == j
  }

  lemma RequestOnly(s: System, k: nat, i: nat)
    requires RequestEnabled(s, k) && i < |s.flows|
    ensures var f := RequestStep(s, k).flows[i];
            && |RequestStep(s, k).flows| == |s.flows| && f.path == s.flows[i].path && f.rate == s.flows[i].rate
            && (if k == i then |f.admitted| == |s.flows[i].admitted| + 1 && s.flows[i].admitted <= f.admitted
                else f.admitted == s.flows[i].admitted)
  {
  }

  /** A step leaves the decisions that flow i carries as they are, unless it is the next one of its request. */
  lemma DecisionsStay(s: System, s': System, i: nat)
    requires Step(s, s') && i < |s.flows|
    ensures |s'.flows| == |s.flows|
    ensures s'.flows[i].path == s.flows[i].path && s'.flows[i].rate == s.flows[i].rate
    ensures || s'.flows[i].admitted == s.flows[i].admitted
            || (RequestEnabled(s, i) && s' == RequestStep(s, i)
                && |s'.flows[i].admitted| == |s.flows[i].admitted| + 1 && s.flows[i].admitted <= s'.flows[i].admitted)
  {
    if k :| RequestEnabled(s, k) && s' == RequestStep(s, k) {
      RequestOnly(s, k, i);
    } else if k :| ConfirmEnabled(s, k) && s' == ConfirmStep(s, k) {
    } else if k :| TeardownEnabled(s, k) && s' == TeardownStep(s, k) {
    }
  }

  lemma {:induction false} FlowsStay(run: seq<System>, n: nat)
    requires Run(run) && n < |run|
    ensures |run[n].flows| == |run[0].flows|
  {
    if n > 0 && |run[n - 1].flows| > 0 {
      FlowsStay(run, n - 1);
      assert Step(run[n - 1], run[n - 1 + 1]);
      DecisionsStay(run[n - 1], run[n], 0);
    } else if n > 0 {
      FlowsStay(run, n - 1);
      assert Step(run[n - 1], run[n - 1 + 1]);
    }
  }

  /** Each decision that a flow carries was made by a link that had room for it, or had not, when the request passed. */
  lemma {:induction false} DecisionMade(run: seq<System>, n: nat, i: nat, j: nat) returns (k: nat)
    requires Run(run) && n < |run| && i < |run[n].flows| && j < |run[n].flows[i].admitted|
    ensures k < n && PassesHop(run, k, i, j) && i < |run[k].flows|
    ensures run[k].flows[i].path == run[n].flows[i].path && run[k].flows[i].rate == run[n].flows[i].rate
    ensures var l := run[k].flows[i].path[j];
            l < |run[k].links| && run[n].flows[i].admitted[j] == HasRoom(run[k], l, run[k].flows[i].rate)
  {
    if n == 0 {
      assert false;
    } else {
      assert Step(run[n - 1], run[n - 1 + 1]);
      FlowsStay(run, n);
      FlowsStay(run, n - 1);
      DecisionsStay(run[n - 1], run[n], i);
      if j < |run[n - 1].flows[i].admitted| {
        k := DecisionMade(run, n - 1, i, j);
      } else {
        k := n - 1;
        AdmittedIffRoom(run, k, i);
      }
    }
  }

  /** In step k the request of flow i passes hop j of this path, and the link there has no room for it. */
  ghost predicate RefusedAt(run: seq<System>, k: nat, i: nat, j: nat, path: seq<nat>) {
    && PassesHop(run, k, i, j) && run[k].flows[i].path == path && path[j] < |run[k].links|
    && !HasRoom(run[k], path[j], run[k].flows[i].rate)
  }

  /** Some link of the path has refused flow i. */
  ghost predicate RefusedSomewhere(run: seq<System>, n: nat, i: nat, path: seq<nat>) {
    exists k: nat, j: nat :: k < n && RefusedAt(run, k, i, j, path)
  }

  lemma RejectionHasRefusal(run: seq<System>, n: nat, i: nat, j: nat)
    requires Run(run) && n < |run| && i < |run[n].flows| && j < |run[n].flows[i].admitted|
    requires !run[n].flows[i].admitted[j]
    ensures RefusedSomewhere(run, n, i, run[n].flows[i].path)
  {
    var k := DecisionMade(run, n, i, j);
    assert RefusedAt(run, k, i, j, run[n].flows[i].path);
  }

  lemma RefusalRejects(run: seq<System>, n: nat, i: nat, k: nat, j: nat)
    requires Run(run) && n < |run| && i < |run[n].flows| && k < n && RefusedAt(run, k, i, j, run[n].flows[i].path)
    ensures j < |run[n].flows[i].admitted| && !run[n].flows[i].admitted[j]
  {
    AdmittedIffRoom(run, k, i);
    AdmittedStays(run, k + 1, n, i, j);
  }

  /** Once its request has passed all links, a flow is rejected exactly when some link of its path had no room for it
      when the request passed there. */
  lemma RejectedIffNoRoom(run: seq<System>, n: nat, i: nat)
    requires Run(run) && n < |run| && i < |run[n].flows| && |run[n].flows[i].admitted| == |run[n].flows[i].path|
    ensures !AllAdmitted(run[n].flows[i]) <==> RefusedSomewhere(run, n, i, run[n].flows[i].path)
  {
    var f := run[n].flows[i];
    if !AllAdmitted(f) {
      var j :| 0 <= j < |f.admitted| && !f.admitted[j];
      RejectionHasRefusal(run, n, i, j);
    }
    if RefusedSomewhere(run, n, i, f.path) {
      var k: nat, j: nat :| k < n && RefusedAt(run, k, i, j, f.path);
      RefusalRejects(run, n, i, k, j);
    }
  }

  lemma {:induction false} AdmittedStays(run: seq<System>, k: nat, n: nat, i: nat, j: nat)
    requires Run(run) && k <= n < |run| && i < |run[k].flows| && j < |run[k].flows[i].admitted|
    ensures i < |run[n].flows| && j < |run[n].flows[i].admitted|
    ensures run[n].flows[i].admitted[j] == run[k].flows[i].admitted[j]
    decreases n
  {
    if k < n {
      AdmittedStays(run, k, n - 1, i, j);
      assert Step(run[n - 1], run[n - 1 + 1]);
      DecisionsStay(run[n - 1], run[n], i);
    }
  }

  /** The last note about link l is the start of a trace while it held no flow. */
  predicate TracedFromStart(log: seq<Note>, l: nat) {
    && log != []
    && var n := log[|log| - 1];
       if n.link == l then n == Trace(l, 0) else TracedFromStart(log[..|log| - 1], l)
  }

  lemma {:induction false} MissedNone(log: seq<Note>, l: nat)
    requires forall k :: 0 <= k < |log| ==> NoteOk(log[k])
    ensures Missed(log, l) >= 0
    ensures Missed(log, l) == 0 <==> TracedFromStart(log, l)
  {
    if log != [] {
      MissedNone(log[..|log| - 1], l);
      assert NoteOk(log[|log| - 1]);
    }
  }

  /** The number of flows is right exactly when the link is traced, the trace began while it held none, and no stray
      teardown has come since. */
  lemma CountRight(run: seq<System>, k: nat, l: nat)
    requires Run(run) && k < |run| && l < |run[k].links|
    ensures run[k].links[l].numfl == Holders(run[k].flows, l, |run[k].flows|) <==> TracedFromStart(run[k].log, l)
  {
    ReservedIsHeld(run, k, l);
    RunInv(run, k);
    MissedNone(run[k].log, l);
  }

  /** Once the confirmation has crossed the path, all links beyond the teardown hold the flow if it was accepted,
      and none does otherwise; and none waits any more. */
  lemma AllOrNothing(run: seq<System>, k: nat, i: nat, j: nat)
    requires Run(run) && k < |run| && i < |run[k].flows| && j < |run[k].flows[i].path|
    requires run[k].flows[i].confirmed == |run[k].flows[i].path|
    ensures var f := run[k].flows[i];
            && (Holds(f, f.path[j]) <==> AllAdmitted(f) && f.torn <= j)
            && !Waits(f, f.path[j])
            && f.path[j] < |run[k].links| && f.id !in run[k].links[f.path[j]].pending
  {
    RunInv(run, k);
    var f := run[k].flows[i];
    assert FlowOk(f, |run[k].links|);
    HopAt(f.path, j);
    assert LinkOk(run[k], f.path[j]);
  }

  // ---------------------------------------------------------------- a rejected flow that is torn down

  /** One link and three flows of this rate that cross it, with what has come of them. */
  function OneLink(capacity: real, rate: real, pending: seq<int>, resvRate: real, numfl: int,
                   flows: seq<(seq<bool>, nat)>, log: seq<Note>): System
    requires |flows| == 3
  {
    System([Link(capacity, resvRate, pending, numfl)],
           [Flow(0, rate, [0], flows[0].0, flows[0].1, 0), Flow(1, rate, [0], flows[1].0, flows[1].1, 0),
            Flow(2, rate, [0], flows[2].0, flows[2].1, 0)], log)
  }

  /** The first flow is accepted; the second is rejected and torn down all the same; so the third gets in. */
  function OverAdmission(c: real, rate: real): seq<System> {
    var free := seq(NFLOWS, i => -1);
    var taken := free[0 := 0];
    var log := [Stray(0, rate)];
    [ OneLink(c, rate, free, 0.0, -1, [([], 0), ([], 0), ([], 0)], []),
      OneLink(c, rate, taken, rate, 0, [([true], 0), ([], 0), ([], 0)], []),
      OneLink(c, rate, free, rate, 0, [([true], 1), ([], 0), ([], 0)], []),
      OneLink(c, rate, free, rate, 0, [([true], 1), ([false], 0), ([], 0)], []),
      OneLink(c, rate, free, rate, 0, [([true], 1), ([false], 1), ([], 0)], []),
      OneLink(c, rate, free, 0.0, -1, [([true], 1), ([false], 1), ([], 0)], log),
      OneLink(c, rate, free[0 := 2], rate, 0, [([true], 1), ([false], 1), ([true], 0)], log) ]
  }

  lemma FirstAccepted(c: real, rate: real)
    requires 0.0 < rate <= c < rate + rate
    ensures var run := OverAdmission(c, rate); Step(run[0], run[1]) && Step(run[1], run[2])
  {
    var run := OverAdmission(c, rate);
    var none: seq<bool> := [];
    assert none + [true] == [true];
    assert RequestEnabled(run[0], 0) && run[1] == RequestStep(run[0], 0);
    assert seq(NFLOWS, i => -1)[0 := 0][0 := -1] == seq(NFLOWS, i => -1);
    assert ConfirmEnabled(run[1], 0) && run[2] == ConfirmStep(run[1], 0);
  }

  lemma SecondRejected(c: real, rate: real)
    requires 0.0 < rate <= c < rate + rate
    ensures var run := OverAdmission(c, rate); Step(run[2], run[3]) && Step(run[3], run[4]) && Step(run[4], run[5])
  {
    var run := OverAdmission(c, rate);
    var none: seq<bool> := [];
    assert none + [false] == [false];
    assert RequestEnabled(run[2], 1) && run[3] == RequestStep(run[2], 1);
    assert ConfirmEnabled(run[3], 1) && run[4] == ConfirmStep(run[3], 1);
    assert StrayEnabled(run[4], 1, 0) && run[5] == StrayStep(run[4], 1, 0);
  }

  lemma ThirdAdmitted(c: real, rate: real)
    requires 0.0 < rate <= c < rate + rate
    ensures var run := OverAdmission(c, rate); Step(run[5], run[6]) && Held(run[6].flows, 0, 3) == rate + rate
  {
    var run := OverAdmission(c, rate);
    var none: seq<bool> := [];
    assert none + [true] == [true];
    assert RequestEnabled(run[5], 2) && run[6] == RequestStep(run[5], 2);
    var fs := run[6].flows;
    assert Share(fs[0], 0) == rate && Share(fs[1], 0) == 0.0 && Share(fs[2], 0) == rate;
    assert Held(fs, 0, 0) == 0.0;
    assert Held(fs, 0, 1) == rate;
    assert Held(fs, 0, 2) == rate;
  }

  lemma StartsFree(c: real, rate: real)
    requires 0.0 < rate <= c
    ensures Init(OverAdmission(c, rate)[0])
  {
    var s := OverAdmission(c, rate)[0];
    assert forall i :: 0 <= i < |s.flows| ==> FlowOk(s.flows[i], |s.links|);
  }

  lemma SixSteps(run: seq<System>)
    requires |run| == 7 && Init(run[0]) && Step(run[0], run[1]) && Step(run[1], run[2]) && Step(run[2], run[3])
    requires Step(run[3], run[4]) && Step(run[4], run[5]) && Step(run[5], run[6])
    ensures Run(run)
  {
  }

  /** For every capacity and every rate that fits it once but not twice there is a run in which the link, after a
      rejected flow has been torn down, holds more than its capacity. */
  lemma StrayOverAdmits(capacity: real, rate: real)
    requires 0.0 < rate <= capacity < rate + rate
    ensures var run := OverAdmission(capacity, rate);
            Run(run) && Held(run[6].flows, 0, 3) == rate + rate > capacity == run[6].links[0].capacity
  {
    var run := OverAdmission(capacity, rate);
    StartsFree(capacity, rate);
    FirstAccepted(capacity, rate);
    SecondRejected(capacity, rate);
    ThirdAdmitted(capacity, rate);
    SixSteps(run);
  }
}
