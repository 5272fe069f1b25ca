/** The bandwidth allocator of the analytic simulator. */
module Asim {
  // Progressive filling of links with scaled demands.


  /** The input: capacities, the links of every flow in order, which flows are short, and the flows of every link. */
  datatype Topology = Topology(mu: seq<real>, adj: seq<seq<nat>>, isShort: seq<bool>, theflows: seq<seq<nat>>)

  ghost predicate WellFormed(t: Topology) {
    && |t.isShort| == |t.adj| && |t.theflows| == |t.mu|
    && (forall f, j :: 0 <= f < |t.adj| && 0 <= j < |t.adj[f]| ==> t.adj[f][j] < |t.mu|)
    && (forall f :: 0 <= f < |t.adj| ==> t.adj[f] != [])
    && (forall l, i :: 0 <= l < |t.mu| && 0 <= i < |t.theflows[l]| ==> t.theflows[l][i] < |t.adj|)
    && (forall l, f :: 0 <= l < |t.mu| && 0 <= f < |t.adj| ==> (f in t.theflows[l] <==> l in t.adj[f]))
  }

  /** What may be put on a link. */
  function Cap(t: Topology, l: nat): real
    requires l < |t.mu|
  {
    t.mu[l] * 1.05
  }

  /** What a flow of this amount adds to link l on the first n hops of its route. */
  function OnLink(path: seq<nat>, l: nat, amount: real, n: nat): real
    requires n <= |path|
  {
    if n == 0 then 0.0 else OnLink(path, l, amount, n - 1) + if path[n - 1] == l then amount else 0.0
  }

  function Along(path: seq<nat>, l: nat, amount: real): real {
    OnLink(path, l, amount, |path|)
  }

  /** The total on link l if each of the first n flows sends its amount. */
  function LoadTo(adj: seq<seq<nat>>, amounts: seq<real>, l: nat, n: nat): real
    requires n <= |adj| == |amounts|
  {
    if n == 0 then 0.0 else LoadTo(adj, amounts, l, n - 1) + Along(adj[n - 1], l, amounts[n - 1])
  }

  function Load(adj: seq<seq<nat>>, amounts: seq<real>, l: nat): real
    requires |adj| == |amounts|
  {
    LoadTo(adj, amounts, l, |adj|)
  }

  lemma {:induction false} OnLinkMono(path: seq<nat>, l: nat, a: real, b: real, n: nat)
    requires n <= |path| && a <= b
    ensures OnLink(path, l, a, n) <= OnLink(path, l, b, n)
    ensures a < b && l in path[..n] ==> OnLink(path, l, a, n) < OnLink(path, l, b, n)
    ensures l !in path[..n] ==> OnLink(path, l, a, n) == 0.0
  {
    if n > 0 {
      OnLinkMono(path, l, a, b, n - 1);
      assert path[..n] == path[..n - 1] + [path[n - 1]];
    }
  }

  lemma AlongMono(path: seq<nat>, l: nat, a: real, b: real)
    requires a <= b
    ensures Along(path, l, a) <= Along(path, l, b)
    ensures a < b && l in path ==> Along(path, l, a) < Along(path, l, b)
    ensures l !in path ==> Along(path, l, a) == 0.0
  {
    OnLinkMono(path, l, a, b, |path|);
    assert path[..|path|] == path;
  }

  lemma {:induction false} OnLinkZero(path: seq<nat>, l: nat, n: nat)
    requires n <= |path|
    ensures OnLink(path, l, 0.0, n) == 0.0
  {
    if n > 0 { OnLinkZero(path, l, n - 1); }
  }

  lemma {:induction false} OnLinkScale(path: seq<nat>, l: nat, g: real, a: real, n: nat)
    requires n <= |path|
    ensures OnLink(path, l, g * a, n) == g * OnLink(path, l, a, n)
  {
    if n > 0 { OnLinkScale(path, l, g, a, n - 1); }
  }

  lemma {:induction false} LoadMono(adj: seq<seq<nat>>, x: seq<real>, y: seq<real>, l: nat, n: nat)
    requires n <= |adj| == |x| == |y|
    requires forall f :: 0 <= f < n && l in adj[f] ==> x[f] <= y[f]
    ensures LoadTo(adj, x, l, n) <= LoadTo(adj, y, l, n)
    ensures forall f :: 0 <= f < n && l in adj[f] && x[f] < y[f] ==> LoadTo(adj, x, l, n) < LoadTo(adj, y, l, n)
  {
    if n > 0 {
      LoadMono(adj, x, y, l, n - 1);
      if l in adj[n - 1] {
        AlongMono(adj[n - 1], l, x[n - 1], y[n - 1]);
      } else {
        AlongMono(adj[n - 1], l, x[n - 1], x[n - 1]);
        AlongMono(adj[n - 1], l, y[n - 1], y[n - 1]);
      }
    }
  }

  lemma {:induction false} LoadUpdate(adj: seq<seq<nat>>, x: seq<real>, f: nat, v: real, l: nat, n: nat)
    requires n <= |adj| == |x| && f < |adj|
    ensures LoadTo(adj, x[f := v], l, n)
            == LoadTo(adj, x, l, n) + if f < n then Along(adj[f], l, v) - Along(adj[f], l, x[f]) else 0.0
  {
    if n > 0 { LoadUpdate(adj, x, f, v, l, n - 1); }
  }

  lemma {:induction false} LoadZero(adj: seq<seq<nat>>, x: seq<real>, l: nat, n: nat)
    requires n <= |adj| == |x| && forall f :: 0 <= f < n && l in adj[f] ==> x[f] == 0.0
    ensures LoadTo(adj, x, l, n) == 0.0
  {
    if n > 0 {
      LoadZero(adj, x, l, n - 1);
      AlongMono(adj[n - 1], l, x[n - 1], x[n - 1]);
      OnLinkZero(adj[n - 1], l, |adj[n - 1]|);
    }
  }

  // ---------------------------------------------------------------- weighted max-min fairness

  /** An allocation that leaves short flows alone and overloads no link. */
  ghost predicate Feasible(t: Topology, demand: seq<real>, x: seq<real>)
    requires WellFormed(t) && |demand| == |t.adj|
  {
    && |x| == |t.adj|
    && (forall f :: 0 <= f < |x| && t.isShort[f] ==> x[f] == demand[f])
    && (forall l :: 0 <= l < |t.mu| ==> Load(t.adj, x, l) <= Cap(t, l))
  }

  ghost predicate Positive(demand: seq<real>) {
    forall f :: 0 <= f < |demand| ==> demand[f] > 0.0
  }

  function Ratio(x: seq<real>, demand: seq<real>, f: nat): real
    requires f < |x| == |demand| && demand[f] > 0.0
  {
    x[f] / demand[f]
  }

  /** Nobody gets more without somebody getting less who has no larger share of its demand. */
  ghost predicate Fair(t: Topology, demand: seq<real>, x: seq<real>)
    requires WellFormed(t) && |demand| == |t.adj| && Positive(demand)
  {
    && Feasible(t, demand, x)
    && forall y, f :: Feasible(t, demand, y) && 0 <= f < |x| && !t.isShort[f] && y[f] > x[f] ==>
         exists g :: 0 <= g < |x| && !t.isShort[g] && y[g] < x[g] && Ratio(x, demand, g) <= Ratio(x, demand, f)
  }

  /** Link b is full, flow f crosses it, and no other normal flow there has a larger share of its demand. */
  ghost predicate FullFor(t: Topology, demand: seq<real>, x: seq<real>, f: nat, b: nat)
    requires WellFormed(t) && |x| == |demand| == |t.adj| && Positive(demand) && f < |x|
  {
    && b < |t.mu| && b in t.adj[f] && Load(t.adj, x, b) == Cap(t, b)
    && forall g :: 0 <= g < |x| && !t.isShort[g] && b in t.adj[g] ==> Ratio(x, demand, g) <= Ratio(x, demand, f)
  }

  /** An allocation that gives every normal flow a full link of this kind is fair. */
  lemma BottlenecksMakeFair(t: Topology, demand: seq<real>, x: seq<real>)
    requires WellFormed(t) && |demand| == |t.adj| && Positive(demand) && Feasible(t, demand, x)
    requires forall f :: 0 <= f < |x| && !t.isShort[f] ==> exists b :: FullFor(t, demand, x, f, b)
    ensures Fair(t, demand, x)
  {
    forall y, f | Feasible(t, demand, y) && 0 <= f < |x| && !t.isShort[f] && y[f] > x[f]
      ensures exists g :: 0 <= g < |x| && !t.isShort[g] && y[g] < x[g] && Ratio(x, demand, g) <= Ratio(x, demand, f)
    {
      var b :| FullFor(t, demand, x, f, b);
      if forall g :: 0 <= g < |x| && b in t.adj[g] ==> x[g] <= y[g] {
        LoadMono(t.adj, x, y, b, |x|);
        assert false;
      }
    }
  }

  lemma {:induction false} LeastOf(s: seq<real>, pick: seq<nat>) returns (i: nat)
    requires pick != [] && forall k :: 0 <= k < |pick| ==> pick[k] < |s|
    ensures i in pick && forall j :: j in pick ==> s[i] <= s[j]
  {
    i := pick[0];
    if |pick| > 1 {
      var j := LeastOf(s, pick[1..]);
      if s[j] < s[i] { i := j; }
    }
  }

  /** The smaller of the two shares that a flow gets. */
  function Lower(x: seq<real>, y: seq<real>, demand: seq<real>, f: nat): real
    requires f < |x| == |y| == |demand| && demand[f] > 0.0
  {
    if x[f] <= y[f] then Ratio(x, demand, f) else Ratio(y, demand, f)
  }

  function Lowers(x: seq<real>, y: seq<real>, demand: seq<real>, n: nat): (r: seq<real>)
    requires n <= |x| == |y| == |demand| && Positive(demand)
    ensures |r| == n && forall f :: 0 <= f < n ==> r[f] == Lower(x, y, demand, f)
  {
    if n == 0 then [] else Lowers(x, y, demand, n - 1) + [Lower(x, y, demand, n - 1)]
  }

  lemma LowerSymmetric(x: seq<real>, y: seq<real>, demand: seq<real>, f: nat)
    requires f < |x| == |y| == |demand| && demand[f] > 0.0
    ensures Lower(x, y, demand, f) == Lower(y, x, demand, f)
  {
  }

  function Differing(x: seq<real>, y: seq<real>, n: nat): (r: seq<nat>)
    requires n <= |x| == |y|
    ensures forall k :: 0 <= k < |r| ==> r[k] < n && x[r[k]] != y[r[k]]
    ensures forall f :: 0 <= f < n && x[f] != y[f] ==> f in r
  {
    if n == 0 then [] else Differing(x, y, n - 1) + if x[n - 1] != y[n - 1] then [n - 1] else []
  }

  /** Where a fair allocation gives less than another, it gives even less to someone else. */
  lemma LowerElsewhere(t: Topology, demand: seq<real>, x: seq<real>, y: seq<real>, f: nat) returns (g: nat)
    requires WellFormed(t) && |demand| == |t.adj| && Positive(demand)
    requires Fair(t, demand, x) && Feasible(t, demand, y) && f < |x| && x[f] < y[f]
    ensures g < |x| && x[g] != y[g] && Lower(x, y, demand, g) < Lower(x, y, demand, f)
  {
    assert !t.isShort[f];
    g :| 0 <= g < |x| && !t.isShort[g] && y[g] < x[g] && Ratio(x, demand, g) <= Ratio(x, demand, f);
    DivMono(y[g], x[g], demand[g]);
  }

  lemma DivMono(a: real, b: real, d: real)
    requires a < b && d > 0.0
    ensures a / d < b / d
  {
  }

  lemma NotLeast(lower: seq<real>, diff: seq<nat>, f: nat, g: nat)
    requires f < |lower| && g < |lower| && lower[g] < lower[f]
    requires forall j :: j in diff ==> j < |lower| && lower[f] <= lower[j]
    ensures g !in diff
  {
  }

  /** There is at most one weighted max-min fair allocation. */
  lemma FairUnique(t: Topology, demand: seq<real>, x: seq<real>, y: seq<real>)
    requires WellFormed(t) && |demand| == |t.adj| && Positive(demand)
    requires Fair(t, demand, x) && Fair(t, demand, y)
    ensures x == y
  {
    var diff := Differing(x, y, |x|);
    if diff != [] {
      var lower := Lowers(x, y, demand, |x|);
      var f := LeastOf(lower, diff);
      var g;
      if x[f] < y[f] {
        g := LowerElsewhere(t, demand, x, y, f);
      } else {
        g := LowerElsewhere(t, demand, y, x, f);
        LowerSymmetric(x, y, demand, f);
        LowerSymmetric(x, y, demand, g);
      }
      NotLeast(lower, diff, f, g);
    }
  }

  // ---------------------------------------------------------------- one round of filling

  /** The part of the links and flows that the filling loop works on: what each flow sends, which flows are scaled,
      and for each link the capacity left and what unscaled flows still ask for. */
  datatype Fill = Fill(p: seq<real>, scaled: seq<bool>, uc: seq<real>, utput: seq<real>)

  ghost predicate Sized(t: Topology, s: Fill) {
    |s.p| == |s.scaled| == |t.adj| && |s.uc| == |s.utput| == |t.mu|
  }

  /** What the unscaled flows ask for, and what the scaled ones have. */
  function Open(p: seq<real>, scaled: seq<bool>): (r: seq<real>)
    requires |p| == |scaled|
    ensures |r| == |p| && forall f :: 0 <= f < |p| ==> r[f] == if scaled[f] then 0.0 else p[f]
  {
    seq(|p|, f requires 0 <= f < |p| => if scaled[f] then 0.0 else p[f])
  }

  function Closed(p: seq<real>, scaled: seq<bool>): (r: seq<real>)
    requires |p| == |scaled|
    ensures |r| == |p| && forall f :: 0 <= f < |p| ==> r[f] == if scaled[f] then p[f] else 0.0
  {
    seq(|p|, f requires 0 <= f < |p| => if scaled[f] then p[f] else 0.0)
  }

  /** One flow gets its demand divided by g. */
  function ScaleOne(t: Topology, s: Fill, f: nat, g: real): Fill
    requires WellFormed(t) && Sized(t, s) && f < |t.adj| && g > 0.0
  {
    var v := s.p[f] / g;
    Fill(s.p[f := v], s.scaled[f := true],
         seq(|s.uc|, l requires 0 <= l < |s.uc| => s.uc[l] - Along(t.adj[f], l, v)),
         seq(|s.utput|, l requires 0 <= l < |s.utput| => s.utput[l] - Along(t.adj[f], l, s.p[f])))
  }

  /** Flow f has what it is due: its demand if it is short or unscaled, the given share of it otherwise. */
  ghost predicate FlowOk(t: Topology, demand: seq<real>, share: seq<real>, s: Fill, f: nat)
    requires WellFormed(t) && Sized(t, s) && |demand| == |share| == |t.adj| && f < |t.adj|
  {
    if t.isShort[f] then s.scaled[f] && s.p[f] == demand[f]
    else if s.scaled[f] then share[f] > 0.0 && s.p[f] == demand[f] * share[f]
    else s.p[f] == demand[f]
  }

  /** The two accounts of link l. */
  ghost predicate LinkOk(t: Topology, s: Fill, l: nat)
    requires WellFormed(t) && Sized(t, s) && l < |t.mu|
  {
    && s.utput[l] == Load(t.adj, Open(s.p, s.scaled), l)
    && s.uc[l] == Cap(t, l) - Load(t.adj, Closed(s.p, s.scaled), l)
  }

  ghost predicate Balanced(t: Topology, demand: seq<real>, share: seq<real>, s: Fill) {
    && WellFormed(t) && Sized(t, s) && |demand| == |share| == |t.adj| && Positive(demand)
    && (forall f :: 0 <= f < |t.adj| ==> FlowOk(t, demand, share, s, f))
    && (forall l :: 0 <= l < |t.mu| ==> LinkOk(t, s, l))
  }

  /** No link asks for more than g times what it has left. */
  ghost predicate Within(s: Fill, g: real) {
    |s.uc| == |s.utput| && forall l :: 0 <= l < |s.uc| ==> 0.0 <= s.utput[l] <= g * s.uc[l]
  }

  lemma OpenNonNegative(t: Topology, demand: seq<real>, share: seq<real>, s: Fill, l: nat)
    requires Balanced(t, demand, share, s) && l < |t.mu|
    ensures s.utput[l] >= 0.0
  {
    var zero := seq(|t.adj|, f => 0.0);
    LoadZero(t.adj, zero, l, |t.adj|);
    forall f | 0 <= f < |t.adj| ensures Open(s.p, s.scaled)[f] >= 0.0 { assert FlowOk(t, demand, share, s, f); }
    LoadMono(t.adj, zero, Open(s.p, s.scaled), l, |t.adj|);
    assert LinkOk(t, s, l);
  }

  lemma ScaleLink(t: Topology, s: Fill, f: nat, g: real, l: nat)
    requires WellFormed(t) && Sized(t, s) && f < |t.adj| && g > 0.0 && l < |t.mu| && !s.scaled[f]
    requires LinkOk(t, s, l)
    ensures LinkOk(t, ScaleOne(t, s, f, g), l)
  {
    var s' := ScaleOne(t, s, f, g);
    var v := s.p[f] / g;
    assert v * g == s.p[f];
    assert Open(s'.p, s'.scaled) == Open(s.p, s.scaled)[f := 0.0];
    assert Closed(s'.p, s'.scaled) == Closed(s.p, s.scaled)[f := v];
    LoadUpdate(t.adj, Open(s.p, s.scaled), f, 0.0, l, |t.adj|);
    LoadUpdate(t.adj, Closed(s.p, s.scaled), f, v, l, |t.adj|);
    OnLinkZero(t.adj[f], l, |t.adj[f]|);
  }

  lemma AsShare(d: real, g: real)
    requires d > 0.0 && g > 0.0
    ensures d / g == d * (1.0 / g) && 1.0 / g > 0.0 && d / g > 0.0
  {
  }

  /** Dividing a demand keeps the accounts. */
  lemma ScaleKeepsBalance(t: Topology, demand: seq<real>, share: seq<real>, s: Fill, f: nat, g: real)
    requires Balanced(t, demand, share, s) && f < |t.adj| && g > 0.0 && !s.scaled[f]
    ensures Balanced(t, demand, share[f := 1.0 / g], ScaleOne(t, s, f, g))
  {
    var s', share' := ScaleOne(t, s, f, g), share[f := 1.0 / g];
    assert FlowOk(t, demand, share, s, f);
    AsShare(demand[f], g);
    forall k | 0 <= k < |t.adj| ensures FlowOk(t, demand, share', s', k) {
      assert FlowOk(t, demand, share, s, k);
    }
    forall l | 0 <= l < |t.mu| ensures LinkOk(t, s', l) {
      ScaleLink(t, s, f, g, l);
    }
  }

  /** Both accounts of every link fall, and what it has left stays as far above what is asked for. */
  lemma ScaleKeepsSlack(t: Topology, demand: seq<real>, share: seq<real>, s: Fill, f: nat, g: real, l: nat)
    requires Balanced(t, demand, share, s) && f < |t.adj| && g > 0.0 && !s.scaled[f] && l < |t.mu|
    ensures var s' := ScaleOne(t, s, f, g);
            && s'.uc[l] <= s.uc[l] && s'.utput[l] <= s.utput[l]
            && g * s'.uc[l] - s'.utput[l] == g * s.uc[l] - s.utput[l]
  {
    var v := s.p[f] / g;
    assert FlowOk(t, demand, share, s, f);
    AsShare(s.p[f], g);
    OnLinkScale(t.adj[f], l, g, v, |t.adj[f]|);
    assert v * g == g * v == s.p[f];
    AlongMono(t.adj[f], l, 0.0, v);
    AlongMono(t.adj[f], l, 0.0, s.p[f]);
    OnLinkZero(t.adj[f], l, |t.adj[f]|);
    Distribute(g, s.uc[l], Along(t.adj[f], l, v));
  }

  lemma Distribute(g: real, a: real, b: real)
    ensures g * (a - b) == g * a - g * b
  {
  }

  lemma ScaleKeepsWithin(t: Topology, demand: seq<real>, share: seq<real>, s: Fill, f: nat, g: real)
    requires Balanced(t, demand, share, s) && f < |t.adj| && g > 0.0 && !s.scaled[f] && Within(s, g)
    ensures Within(ScaleOne(t, s, f, g), g)
  {
    var s' := ScaleOne(t, s, f, g);
    ScaleKeepsBalance(t, demand, share, s, f, g);
    forall l | 0 <= l < |t.mu| ensures 0.0 <= s'.utput[l] <= g * s'.uc[l] {
      OpenNonNegative(t, demand, share[f := 1.0 / g], s', l);
      ScaleKeepsSlack(t, demand, share, s, f, g, l);
    }
  }

  /** Link b has nothing left, and all normal flows on it are scaled, none with a larger share than f. */
  ghost predicate Bottleneck(t: Topology, share: seq<real>, s: Fill, f: nat, b: nat)
    requires WellFormed(t) && Sized(t, s) && |share| == |t.adj| && f < |t.adj|
  {
    && b < |t.mu| && b in t.adj[f] && s.uc[b] == 0.0
    && forall k :: 0 <= k < |t.adj| && !t.isShort[k] && b in t.adj[k] ==> s.scaled[k] && share[k] <= share[f]
  }

  ghost predicate Settled(t: Topology, share: seq<real>, s: Fill, f: nat)
    requires WellFormed(t) && Sized(t, s) && |share| == |t.adj| && f < |t.adj|
  {
    exists b :: Bottleneck(t, share, s, f, b)
  }

  /** During the round at link b: scaled flows are settled, or have just been scaled because they cross b. */
  ghost predicate RoundInv(t: Topology, demand: seq<real>, share: seq<real>, s: Fill, b: nat, g: real) {
    && Balanced(t, demand, share, s) && b < |t.mu| && g > 0.0 && Within(s, g) && s.utput[b] == g * s.uc[b]
    && forall f :: 0 <= f < |t.adj| && !t.isShort[f] && s.scaled[f] ==>
         share[f] <= 1.0 / g
         && (Settled(t, share, s, f) || (b in t.adj[f] && share[f] == 1.0 / g))
  }

  lemma StaysSettled(t: Topology, demand: seq<real>, share: seq<real>, s: Fill, f: nat, g: real, k: nat)
    requires Balanced(t, demand, share, s) && g > 0.0 && Within(s, g) && f < |t.adj| && !s.scaled[f]
    requires k < |t.adj| && k != f && Settled(t, share, s, k)
    ensures Settled(t, share[f := 1.0 / g], ScaleOne(t, s, f, g), k)
  {
    var s' := ScaleOne(t, s, f, g);
    var b: nat :| Bottleneck(t, share, s, k, b);
    assert FlowOk(t, demand, share, s, f);
    ScaleKeepsWithin(t, demand, share, s, f, g);
    ScaleKeepsSlack(t, demand, share, s, f, g, b);
    NonNegativeFactor(g, s'.uc[b]);
    assert Bottleneck(t, share[f := 1.0 / g], s', k, b);
  }

  lemma NegativeFactor(g: real, a: real)
    requires g > 0.0 && a < 0.0
    ensures g * a < 0.0
  {
  }

  lemma NonNegativeFactor(g: real, a: real)
    requires g > 0.0 && g * a >= 0.0
    ensures a >= 0.0
    ensures g * a == 0.0 ==> a == 0.0
  {
    if a < 0.0 { NegativeFactor(g, a); }
  }

  lemma ScaleKeepsRound(t: Topology, demand: seq<real>, share: seq<real>, s: Fill, b: nat, g: real, f: nat)
    requires RoundInv(t, demand, share, s, b, g) && f < |t.adj| && b in t.adj[f] && !s.scaled[f]
    ensures RoundInv(t, demand, share[f := 1.0 / g], ScaleOne(t, s, f, g), b, g)
  {
    var s' := ScaleOne(t, s, f, g);
    ScaleKeepsBalance(t, demand, share, s, f, g);
    ScaleKeepsWithin(t, demand, share, s, f, g);
    ScaleKeepsSlack(t, demand, share, s, f, g, b);
    forall k | 0 <= k < |t.adj| && !t.isShort[k] && s'.scaled[k] && k != f
      ensures Settled(t, share[f := 1.0 / g], s', k) || (b in t.adj[k] && share[k] == 1.0 / g)
    {
      if Settled(t, share, s, k) { StaysSettled(t, demand, share, s, f, g, k); }
    }
  }

  /** All scaled flows are settled, none with a larger share than 1 / g. */
  ghost predicate AllSettled(t: Topology, demand: seq<real>, share: seq<real>, s: Fill, g: real) {
    && Balanced(t, demand, share, s) && g > 0.0 && Within(s, g)
    && forall f :: 0 <= f < |t.adj| && !t.isShort[f] && s.scaled[f] ==> share[f] <= 1.0 / g && Settled(t, share, s, f)
  }

  lemma ClosedLink(t: Topology, demand: seq<real>, share: seq<real>, s: Fill, b: nat)
    requires Balanced(t, demand, share, s) && b < |t.mu|
    requires forall f :: 0 <= f < |t.adj| && b in t.adj[f] ==> s.scaled[f]
    ensures s.utput[b] == 0.0
  {
    LoadZero(t.adj, Open(s.p, s.scaled), b, |t.adj|);
    assert LinkOk(t, s, b);
  }

  /** When all flows of link b are scaled it is full, and settles them. */
  lemma RoundSettles(t: Topology, demand: seq<real>, share: seq<real>, s: Fill, b: nat, g: real)
    requires RoundInv(t, demand, share, s, b, g)
    requires forall f :: 0 <= f < |t.adj| && b in t.adj[f] ==> s.scaled[f]
    ensures s.utput[b] == 0.0 && s.uc[b] == 0.0 && AllSettled(t, demand, share, s, g)
  {
    LoadZero(t.adj, Open(s.p, s.scaled), b, |t.adj|);
    assert LinkOk(t, s, b);
    NonNegativeFactor(g, s.uc[b]);
    forall f | 0 <= f < |t.adj| && !t.isShort[f] && s.scaled[f] ensures Settled(t, share, s, f) {
      if !Settled(t, share, s, f) { assert Bottleneck(t, share, s, f, b); }
    }
  }

  /** The most congested link of the next round is no more congested, so the next shares are no smaller. */
  lemma NextRound(t: Topology, demand: seq<real>, share: seq<real>, s: Fill, g: real, b: nat, h: real)
    requires AllSettled(t, demand, share, s, g) && b < |t.mu| && h > 0.0 && s.uc[b] > 0.0
    requires s.utput[b] == h * s.uc[b] && Within(s, h)
    ensures h <= g && RoundInv(t, demand, share, s, b, h)
  {
    var c := s.uc[b];
    if h > g { MulStrict(c, g, h); }
    InverseMono(h, g);
  }

  lemma MulStrict(c: real, a: real, b: real)
    requires c > 0.0 && a < b
    ensures a * c < b * c
  {
  }

  lemma InverseMono(h: real, g: real)
    requires 0.0 < h <= g
    ensures 1.0 / g <= 1.0 / h
  {
  }

  /** When no link asks for anything, every normal flow is scaled and has a full link of its own kind. */
  lemma NothingOpen(t: Topology, demand: seq<real>, share: seq<real>, s: Fill, f: nat)
    requires Balanced(t, demand, share, s) && f < |t.adj| && forall l :: 0 <= l < |t.mu| ==> s.utput[l] == 0.0
    ensures s.scaled[f]
  {
    var l := t.adj[f][0];
    var zero := seq(|t.adj|, k => 0.0);
    LoadZero(t.adj, zero, l, |t.adj|);
    forall k | 0 <= k < |t.adj| ensures Open(s.p, s.scaled)[k] >= 0.0 { assert FlowOk(t, demand, share, s, k); }
    LoadMono(t.adj, zero, Open(s.p, s.scaled), l, |t.adj|);
    assert LinkOk(t, s, l) && FlowOk(t, demand, share, s, f);
    assert l in t.adj[f];
  }

  lemma TimesOver(d: real, share: real)
    requires d > 0.0
    ensures d * share / d == share
  {
  }

  lemma EndFullFor(t: Topology, demand: seq<real>, share: seq<real>, s: Fill, f: nat, b: nat)
    requires Balanced(t, demand, share, s) && forall k :: 0 <= k < |t.adj| ==> s.scaled[k]
    requires f < |t.adj| && !t.isShort[f] && Bottleneck(t, share, s, f, b)
    ensures FullFor(t, demand, s.p, f, b)
  {
    assert Closed(s.p, s.scaled) == s.p;
    assert LinkOk(t, s, b);
    forall k | 0 <= k < |t.adj| && !t.isShort[k] ensures Ratio(s.p, demand, k) == share[k] {
      assert FlowOk(t, demand, share, s, k);
      TimesOver(demand[k], share[k]);
    }
  }

  /** What the filling loop is for: the weighted max-min fair allocation, with a full link for every normal flow. */
  ghost predicate Divided(t: Topology, demand: seq<real>, x: seq<real>) {
    && WellFormed(t) && |demand| == |t.adj| && Positive(demand) && Fair(t, demand, x)
    && forall f :: 0 <= f < |t.adj| && !t.isShort[f] ==> exists b :: FullFor(t, demand, x, f, b)
  }

  /** The allocation when the loop ends. */
  lemma EndFair(t: Topology, demand: seq<real>, share: seq<real>, s: Fill, g: real)
    requires AllSettled(t, demand, share, s, g) && forall l :: 0 <= l < |t.mu| ==> s.utput[l] == 0.0
    ensures Divided(t, demand, s.p)
  {
    forall f | 0 <= f < |t.adj| ensures s.scaled[f] && FlowOk(t, demand, share, s, f) {
      NothingOpen(t, demand, share, s, f);
    }
    assert Closed(s.p, s.scaled) == s.p;
    forall l | 0 <= l < |t.mu| ensures Load(t.adj, s.p, l) <= Cap(t, l) {
      assert LinkOk(t, s, l);
      NonNegativeFactor(g, s.uc[l]);
    }
    forall f | 0 <= f < |t.adj| && !t.isShort[f] ensures exists b :: FullFor(t, demand, s.p, f, b) {
      var b: nat :| Bottleneck(t, share, s, f, b);
      EndFullFor(t, demand, share, s, f, b);
    }
    BottlenecksMakeFair(t, demand, s.p);
  }

  /** How many of the first n links are still asked for something. */
  function Busy(utput: seq<real>, n: nat): (c: nat)
    requires n <= |utput|
    ensures c <= n
  {
    if n == 0 then 0 else Busy(utput, n - 1) + if utput[n - 1] > 0.0 then 1 else 0
  }

  lemma {:induction false} BusyDrops(u: seq<real>, v: seq<real>, b: nat, n: nat)
    requires n <= |u| == |v| && b < |u| && u[b] > 0.0 && v[b] <= 0.0 && forall l :: 0 <= l < |u| ==> v[l] <= u[l]
    ensures Busy(v, n) <= Busy(u, n) - if b < n then 1 else 0
  {
    if n > 0 { BusyDrops(u, v, b, n - 1); }
  }

  // ---------------------------------------------------------------- the program

  /** What the short flows put on a link. */
  function ShortOnly(t: Topology, demand: seq<real>): (r: seq<real>)
    requires |t.isShort| == |demand|
    ensures |r| == |demand| && forall f :: 0 <= f < |r| ==> r[f] == if t.isShort[f] then demand[f] else 0.0
  {
    seq(|demand|, f requires 0 <= f < |demand| => if t.isShort[f] then demand[f] else 0.0)
  }

  /** Short flows overload no link, and fill none that a normal flow crosses. */
  ghost predicate Room(t: Topology, demand: seq<real>)
    requires WellFormed(t) && |demand| == |t.adj|
  {
    forall l :: 0 <= l < |t.mu| ==>
      && Load(t.adj, ShortOnly(t, demand), l) <= Cap(t, l)
      && (Load(t.adj, ShortOnly(t, demand), l) == Cap(t, l) ==>
            forall f :: 0 <= f < |t.adj| && !t.isShort[f] ==> l !in t.adj[f])
  }

  /** No allocation that gives every normal flow something is feasible without room for it. */
  lemma FeasibleNeedsRoom(t: Topology, demand: seq<real>, x: seq<real>)
    requires WellFormed(t) && |demand| == |t.adj| && Positive(demand) && Feasible(t, demand, x) && Positive(x)
    ensures Room(t, demand)
  {
    forall l | 0 <= l < |t.mu|
      ensures Load(t.adj, ShortOnly(t, demand), l) <= Cap(t, l)
      ensures forall f :: 0 <= f < |t.adj| && !t.isShort[f] && l in t.adj[f]
                ==> Load(t.adj, ShortOnly(t, demand), l) < Cap(t, l)
    {
      LoadMono(t.adj, ShortOnly(t, demand), x, l, |t.adj|);
    }
  }

  lemma QuotientBound(a: real, c: real, g: real)
    requires c > 0.0 && a / c <= g
    ensures a <= g * c
  {
    assert a == (a / c) * c;
    MulMono(c, a / c, g);
  }

  lemma QuotientIs(a: real, c: real, g: real)
    requires c != 0.0 && a >= 0.0 && a / c == g > 0.0
    ensures a == g * c && a > 0.0 && c > 0.0
  {
    assert a == g * c;
    if c < 0.0 { NegativeFactor(g, c); }
  }

  lemma MulMono(c: real, a: real, b: real)
    requires c >= 0.0 && a <= b
    ensures a * c <= b * c
  {
  }

  lemma CapNonNegative(t: Topology, demand: seq<real>, l: nat)
    requires WellFormed(t) && |demand| == |t.adj| && Positive(demand) && Room(t, demand) && l < |t.mu|
    ensures t.mu[l] >= 0.0
  {
    var zero := seq(|t.adj|, f => 0.0);
    LoadZero(t.adj, zero, l, |t.adj|);
    LoadMono(t.adj, zero, ShortOnly(t, demand), l, |t.adj|);
    assert 0.0 <= Load(t.adj, ShortOnly(t, demand), l) <= Cap(t, l);
  }

  /** No link has more asked of it than nothing when it has nothing left. */
  ghost predicate Tidy(s: Fill) {
    |s.uc| == |s.utput|
    && forall l :: 0 <= l < |s.uc| ==> s.uc[l] >= 0.0 && s.utput[l] >= 0.0 && (s.uc[l] == 0.0 ==> s.utput[l] == 0.0)
  }

  /** Before the first round nothing is scaled but the short flows. */
  lemma OpeningBalance(t: Topology, demand: seq<real>, share: seq<real>, s: Fill)
    requires WellFormed(t) && |demand| == |t.adj| && Positive(demand)
    requires Sized(t, s) && |share| == |demand| && s.p == demand && s.scaled == t.isShort
    requires forall l :: 0 <= l < |t.mu| ==> s.utput[l] == Load(t.adj, Open(s.p, s.scaled), l)
    requires forall l :: 0 <= l < |t.mu| ==> s.uc[l] == Cap(t, l) - Load(t.adj, ShortOnly(t, demand), l)
    ensures Balanced(t, demand, share, s) && (Room(t, demand) ==> Tidy(s))
  {
    assert Closed(s.p, s.scaled) == ShortOnly(t, demand);
    forall f | 0 <= f < |t.adj| ensures FlowOk(t, demand, share, s, f) {}
    forall l | 0 <= l < |t.mu| ensures LinkOk(t, s, l) {}
    forall l | 0 <= l < |t.mu| ensures s.utput[l] >= 0.0 { OpenNonNegative(t, demand, share, s, l); }
    if Room(t, demand) {
      forall l | 0 <= l < |t.mu| && s.uc[l] == 0.0 ensures s.utput[l] == 0.0 {
        LoadZero(t.adj, Open(s.p, s.scaled), l, |t.adj|);
      }
    }
  }

  lemma DividedLoads(t: Topology, demand: seq<real>, x: seq<real>)
    requires Divided(t, demand, x) && Room(t, demand)
    ensures |x| == |t.adj| && forall l :: 0 <= l < |t.mu| ==> Load(t.adj, x, l) <= Cap(t, l) <= t.mu[l] * 1.1
  {
    forall l | 0 <= l < |t.mu| ensures t.mu[l] >= 0.0 { CapNonNegative(t, demand, l); }
  }

  /** When the search finds a link, its round can start; when it finds none, all is settled. */
  ghost predicate LoopInv(t: Topology, demand: seq<real>, share: seq<real>, s: Fill, bneck: int, g: real) {
    if bneck >= 0 then RoundInv(t, demand, share, s, bneck, g) && s.utput[bneck] > 0.0
    else AllSettled(t, demand, share, s, g) && forall l :: 0 <= l < |t.mu| ==> s.utput[l] == 0.0
  }

  /** What holds whether there is room or not: the accounts balance, and a link that was found asks for something. */
  ghost predicate TurnInv(t: Topology, demand: seq<real>, share: seq<real>, s: Fill, bneck: int, g: real, room: bool) {
    && Balanced(t, demand, share, s) && g > 0.0 && -1 <= bneck < |t.mu|
    && (bneck >= 0 ==> s.utput[bneck] > 0.0 && s.utput[bneck] == g * s.uc[bneck])
    && (room ==> LoopInv(t, demand, share, s, bneck, g))
  }

  /** What a search has found. */
  ghost predicate Found(s: Fill, bneck: int, g: real) {
    && |s.uc| == |s.utput| && -1 <= bneck < |s.uc|
    && (bneck >= 0 ==> g > 0.0 && s.uc[bneck] > 0.0 && s.utput[bneck] > 0.0 && s.utput[bneck] == g * s.uc[bneck])
    && (Tidy(s) ==> if bneck >= 0 then Within(s, g) else forall l :: 0 <= l < |s.utput| ==> s.utput[l] == 0.0)
  }

  /** How much more is asked of link l than it has left. */
  function Congestion(s: Fill, l: nat): real
    requires l < |s.uc| == |s.utput| && s.uc[l] != 0.0
  {
    s.utput[l] / s.uc[l]
  }

  lemma SearchFound(s: Fill, bneck: int, g: real)
    requires |s.uc| == |s.utput| && -1 <= bneck < |s.uc| && forall l :: 0 <= l < |s.uc| ==> s.utput[l] >= 0.0
    requires if bneck == -1 then g == 0.0 else s.uc[bneck] != 0.0 && 0.0 < g == Congestion(s, bneck)
    requires forall l :: 0 <= l < |s.uc| && s.uc[l] != 0.0 ==> Congestion(s, l) <= g
    ensures Found(s, bneck, g)
  {
    if bneck >= 0 { QuotientIs(s.utput[bneck], s.uc[bneck], g); }
    if Tidy(s) {
      forall l | 0 <= l < |s.uc| ensures s.utput[l] <= g * s.uc[l] {
        if s.uc[l] != 0.0 { QuotientBound(s.utput[l], s.uc[l], g); }
      }
    }
  }

  lemma FirstRound(t: Topology, demand: seq<real>, share: seq<real>, s: Fill, bneck: int, g: real, room: bool)
    requires Balanced(t, demand, share, s) && s.scaled == t.isShort && (room ==> Tidy(s)) && Found(s, bneck, g)
    ensures TurnInv(t, demand, share, s, bneck, if bneck >= 0 then g else 1.0, room)
  {
  }

  lemma SettledTidy(t: Topology, demand: seq<real>, share: seq<real>, s: Fill, g: real)
    requires AllSettled(t, demand, share, s, g)
    ensures Tidy(s)
  {
    forall l | 0 <= l < |t.mu| ensures s.uc[l] >= 0.0 && (s.uc[l] == 0.0 ==> s.utput[l] == 0.0) {
      NonNegativeFactor(g, s.uc[l]);
    }
  }

  /** The round is over, the next link found. */
  lemma NextTurn(t: Topology, demand: seq<real>, share: seq<real>, s: Fill, g: real, bneck: int, h: real, room: bool)
    requires Balanced(t, demand, share, s) && g > 0.0 && (room ==> AllSettled(t, demand, share, s, g)) && Found(s, bneck, h)
    ensures TurnInv(t, demand, share, s, bneck, if bneck >= 0 then h else g, room)
    ensures room && bneck >= 0 ==> h <= g
  {
    if room {
      SettledTidy(t, demand, share, s, g);
      if bneck >= 0 { NextRound(t, demand, share, s, g, bneck, h); }
    }
  }

  /** Every flow sends something at any time. */
  lemma AlwaysPositive(t: Topology, demand: seq<real>, share: seq<real>, s: Fill)
    requires Balanced(t, demand, share, s)
    ensures Positive(s.p)
  {
    forall f | 0 <= f < |s.p| ensures s.p[f] > 0.0 {
      assert FlowOk(t, demand, share, s, f);
      if !t.isShort[f] && s.scaled[f] { TimesPositive(demand[f], share[f]); }
    }
  }

  lemma TimesPositive(a: real, b: real)
    requires a > 0.0 && b > 0.0
    ensures a * b > 0.0
  {
  }

  class Allocator {
    const t: Topology
    const uc: array<real>
    const utput: array<real>
    const tlambda: array<real>
    const plambda: array<real>
    const lambda: array<real>
    const pTput: array<real>
    const scaled: array<bool>

    ghost predicate Valid() {
      && WellFormed(t)
      && uc.Length == utput.Length == tlambda.Length == plambda.Length == lambda.Length == |t.mu|
      && pTput.Length == scaled.Length == |t.adj|
      && uc != utput && uc != tlambda && uc != plambda && uc != lambda && uc != pTput
      && utput != tlambda && utput != plambda && utput != lambda && utput != pTput
      && tlambda != plambda && tlambda != lambda && tlambda != pTput
      && plambda != lambda && plambda != pTput && lambda != pTput
    }

    function Filling(): Fill
      reads pTput, scaled, uc, utput
    {
      Fill(pTput[..], scaled[..], uc[..], utput[..])
    }

    constructor (t: Topology)
      requires WellFormed(t)
      ensures Valid() && this.t == t
      ensures fresh(uc) && fresh(utput) && fresh(tlambda) && fresh(plambda) && fresh(lambda) && fresh(pTput) && fresh(scaled)
    {
      this.t := t;
      uc, utput := new real[|t.mu|], new real[|t.mu|];
      tlambda, plambda, lambda := new real[|t.mu|], new real[|t.mu|], new real[|t.mu|];
      pTput, scaled := new real[|t.adj|], new bool[|t.adj|];
    }

    /** Takes v and w off the two accounts of every link of a route. */
    method TakeOff(path: seq<nat>, v: real, w: real)
      requires Valid() && forall j :: 0 <= j < |path| ==> path[j] < |t.mu|
      modifies uc, utput
      ensures forall l :: 0 <= l < |t.mu| ==> uc[l] == old(uc[l]) - Along(path, l, v)
      ensures forall l :: 0 <= l < |t.mu| ==> utput[l] == old(utput[l]) - Along(path, l, w)
    {
      for j := 0 to |path|
        invariant forall l :: 0 <= l < |t.mu| ==> uc[l] == old(uc[l]) - OnLink(path, l, v, j)
        invariant forall l :: 0 <= l < |t.mu| ==> utput[l] == old(utput[l]) - OnLink(path, l, w, j)
      {
        uc[path[j]] := uc[path[j]] - v;
        utput[path[j]] := utput[path[j]] - w;
      }
    }

    /** One flow is scaled and taken off the accounts of its links. */
    method ScaleFlow(f: nat, g: real)
      requires Valid() && f < |t.adj| && g > 0.0
      modifies pTput, scaled, uc, utput
      ensures Filling() == ScaleOne(t, old(Filling()), f, g)
    {
      ghost var s0 := old(Filling());
      pTput[f] := pTput[f] / g;
      scaled[f] := true;
      assert pTput[f] * g == s0.p[f];
      TakeOff(t.adj[f], pTput[f], pTput[f] * g);
      assert uc[..] == ScaleOne(t, s0, f, g).uc;
      assert utput[..] == ScaleOne(t, s0, f, g).utput;
    }

    /** The body of the filling loop, at the most congested link b. */
    method Round(b: nat, g: real, ghost demand: seq<real>, ghost share0: seq<real>, ghost room: bool)
      returns (ghost share: seq<real>)
      requires Valid() && Balanced(t, demand, share0, Filling()) && b < |t.mu| && g > 0.0 && utput[b] == g * uc[b]
      requires room ==> RoundInv(t, demand, share0, Filling(), b, g)
      modifies pTput, scaled, uc, utput
      ensures Balanced(t, demand, share, Filling()) && utput[b] == 0.0
      ensures room ==> AllSettled(t, demand, share, Filling(), g)
      ensures forall l :: 0 <= l < |t.mu| ==> utput[l] <= old(utput[l])
    {
      share := share0;
      for i := 0 to |t.theflows[b]|
        invariant Balanced(t, demand, share, Filling()) && utput[b] == g * uc[b]
        invariant room ==> RoundInv(t, demand, share, Filling(), b, g)
        invariant forall k :: 0 <= k < i ==> scaled[t.theflows[b][k]]
        invariant forall l :: 0 <= l < |t.mu| ==> utput[l] <= old(utput[l])
      {
        var f := t.theflows[b][i];
        ghost var s := Filling();
        if !t.isShort[f] && !scaled[f] {
          assert f in t.theflows[b];
          ScaleKeepsBalance(t, demand, share, s, f, g);
          if room { ScaleKeepsRound(t, demand, share, s, b, g, f); }
          forall l | 0 <= l < |t.mu| ensures ScaleOne(t, s, f, g).utput[l] <= s.utput[l] {
            ScaleKeepsSlack(t, demand, share, s, f, g, l);
          }
          ScaleKeepsSlack(t, demand, share, s, f, g, b);
          ScaleFlow(f, g);
          share := share[f := 1.0 / g];
        } else {
          assert FlowOk(t, demand, share, s, f);
        }
      }
      forall f | 0 <= f < |t.adj| && b in t.adj[f] ensures scaled[f] {
        assert f in t.theflows[b];
      }
      CloseRound(b, g, demand, share, room);
    }

    /** The end of a round: the link is closed. */
    method CloseRound(b: nat, g: real, ghost demand: seq<real>, ghost share: seq<real>, ghost room: bool)
      requires Valid() && Balanced(t, demand, share, Filling()) && b < |t.mu| && g > 0.0 && utput[b] == g * uc[b]
      requires room ==> RoundInv(t, demand, share, Filling(), b, g)
      requires forall f :: 0 <= f < |t.adj| && b in t.adj[f] ==> scaled[f]
      modifies uc
      ensures Balanced(t, demand, share, Filling()) && utput[b] == 0.0
      ensures room ==> AllSettled(t, demand, share, Filling(), g)
    {
      ghost var s := Filling();
      ClosedLink(t, demand, share, s, b);
      NonNegativeFactor(g, s.uc[b]);
      if room { RoundSettles(t, demand, share, s, b, g); }
      uc[b] := 0.0;
      assert uc[..] == s.uc;
    }

    /** The search for the most congested link. */
    method FindBottleneck() returns (bneck: int, maxgamma: real)
      requires Valid() && forall l :: 0 <= l < |t.mu| ==> utput[l] >= 0.0
      ensures Found(Filling(), bneck, maxgamma)
    {
      bneck, maxgamma := -1, 0.0;
      for i := 0 to |t.mu|
        invariant -1 <= bneck < i && maxgamma >= 0.0
        invariant if bneck == -1 then maxgamma == 0.0 else uc[bneck] != 0.0 && 0.0 < maxgamma == Congestion(Filling(), bneck)
        invariant forall l :: 0 <= l < i && uc[l] != 0.0 ==> Congestion(Filling(), l) <= maxgamma
      {
        if uc[i] != 0.0 {
          var q := utput[i] / uc[i];
          assert q == Congestion(Filling(), i);
          if q > maxgamma { bneck, maxgamma := i, q; }
        }
      }
      SearchFound(Filling(), bneck, maxgamma);
    }

    /** UpdateHelper: what all flows put on the links. */
    method UpdateHelper()
      requires Valid()
      modifies tlambda
      ensures forall l :: 0 <= l < |t.mu| ==> tlambda[l] == Load(t.adj, pTput[..], l)
    {
      for i := 0 to |t.mu|
        invariant forall l :: 0 <= l < i ==> tlambda[l] == 0.0
      {
        tlambda[i] := 0.0;
      }
      for i := 0 to |t.adj|
        invariant forall l :: 0 <= l < |t.mu| ==> tlambda[l] == LoadTo(t.adj, pTput[..], l, i)
      {
        for j := 0 to |t.adj[i]|
          invariant forall l :: 0 <= l < |t.mu| ==>
            tlambda[l] == LoadTo(t.adj, pTput[..], l, i) + OnLink(t.adj[i], l, pTput[i], j)
        {
          tlambda[t.adj[i][j]] := tlambda[t.adj[i][j]] + pTput[i];
        }
      }
    }

    /** Update: the arrival rates follow the loads, halfway after the first iteration. */
    method Update(niter: int)
      requires Valid()
      modifies tlambda, plambda, lambda
      ensures plambda[..] == old(lambda[..])
      ensures forall l :: 0 <= l < |t.mu| ==> tlambda[l] == Load(t.adj, pTput[..], l)
      ensures forall l :: 0 <= l < |t.mu| ==>
                lambda[l] == if niter == 0 then tlambda[l]
                             else (old(lambda[l]) + if tlambda[l] > t.mu[l] * 1.1 then t.mu[l] * 1.1 else tlambda[l]) / 2.0
    {
      UpdateHelper();
      for i := 0 to |t.mu|
        modifies plambda, lambda
        invariant forall l :: 0 <= l < i ==> plambda[l] == old(lambda[l])
        invariant forall l :: i <= l < |t.mu| ==> lambda[l] == old(lambda[l])
        invariant forall l :: 0 <= l < i ==>
          lambda[l] == if niter == 0 then tlambda[l]
                       else (old(lambda[l]) + if tlambda[l] > t.mu[l] * 1.1 then t.mu[l] * 1.1 else tlambda[l]) / 2.0
      {
        plambda[i] := lambda[i];
        var tk := t.mu[i] * 1.1;
        if niter != 0 {
          if tlambda[i] > tk { lambda[i] := (lambda[i] + tk) / 2.0; } else { lambda[i] := (tlambda[i] + lambda[i]) / 2.0; }
        } else {
          lambda[i] := tlambda[i];
        }
      }
      assert plambda[..] == old(lambda[..]);
    }

    /** The first loop of newupdate. */
    method ClearAccounts()
      requires Valid()
      modifies uc, utput
      ensures forall l :: 0 <= l < |t.mu| ==> uc[l] == Cap(t, l) && utput[l] == 0.0
    {
      for i := 0 to |t.mu|
        invariant forall l :: 0 <= l < i ==> uc[l] == Cap(t, l) && utput[l] == 0.0
      {
        uc[i] := t.mu[i] * 1.05;
        utput[i] := 0.0;
      }
    }

    /** Puts what a flow asks for on the links of its route: for good if it is short. */
    method PutOn(path: seq<nat>, short: bool, v: real)
      requires Valid() && forall j :: 0 <= j < |path| ==> path[j] < |t.mu|
      modifies uc, utput
      ensures forall l :: 0 <= l < |t.mu| ==> uc[l] == old(uc[l]) - Along(path, l, if short then v else 0.0)
      ensures forall l :: 0 <= l < |t.mu| ==> utput[l] == old(utput[l]) + Along(path, l, if short then 0.0 else v)
    {
      ghost var closed, open := if short then v else 0.0, if short then 0.0 else v;
      for j := 0 to |path|
        invariant forall l :: 0 <= l < |t.mu| ==> uc[l] == old(uc[l]) - OnLink(path, l, closed, j)
        invariant forall l :: 0 <= l < |t.mu| ==> utput[l] == old(utput[l]) + OnLink(path, l, open, j)
      {
        if short { uc[path[j]] := uc[path[j]] - v; } else { utput[path[j]] := utput[path[j]] + v; }
      }
    }

    /** The first part of newupdate: the accounts before anything is scaled. */
    method OpenAccounts()
      requires Valid()
      modifies scaled, uc, utput
      ensures scaled[..] == t.isShort
      ensures forall l :: 0 <= l < |t.mu| ==> utput[l] == Load(t.adj, Open(pTput[..], t.isShort), l)
      ensures forall l :: 0 <= l < |t.mu| ==> uc[l] == Cap(t, l) - Load(t.adj, ShortOnly(t, pTput[..]), l)
    {
      ghost var open, short := Open(pTput[..], t.isShort), ShortOnly(t, pTput[..]);
      ClearAccounts();
      for i := 0 to |t.adj|
        invariant forall f :: 0 <= f < i ==> scaled[f] == t.isShort[f]
        invariant forall l :: 0 <= l < |t.mu| ==> utput[l] == LoadTo(t.adj, open, l, i)
        invariant forall l :: 0 <= l < |t.mu| ==> uc[l] == Cap(t, l) - LoadTo(t.adj, short, l, i)
      {
        scaled[i] := t.isShort[i];
        PutOn(t.adj[i], t.isShort[i], pTput[i]);
      }
      assert scaled[..] == t.isShort;
    }

    /** One round of the filling loop, and the search for the next link. */
    method Turn(b: nat, g: real, ghost demand: seq<real>, ghost share0: seq<real>, ghost room: bool)
      returns (bneck: int, maxgamma: real, ghost share: seq<real>)
      requires Valid() && TurnInv(t, demand, share0, Filling(), b, g, room)
      modifies pTput, scaled, uc, utput
      ensures TurnInv(t, demand, share, Filling(), bneck, if bneck >= 0 then maxgamma else g, room)
      ensures room && bneck >= 0 ==> maxgamma <= g
      ensures utput[b] == 0.0 && forall l :: 0 <= l < |t.mu| ==> utput[l] <= old(utput[l])
    {
      share := Round(b, g, demand, share0, room);
      forall l | 0 <= l < |t.mu| ensures utput[l] >= 0.0 { OpenNonNegative(t, demand, share, Filling(), l); }
      bneck, maxgamma := FindBottleneck();
      NextTurn(t, demand, share, Filling(), g, bneck, maxgamma, room);
    }

    /** The filling loop of newupdate, up to the first search that finds no link. */
    method FillLinks(b: int, gamma: real, ghost demand: seq<real>, ghost share0: seq<real>, ghost g0: real, ghost room: bool)
      returns (ghost rounds: nat, ghost share: seq<real>, ghost g: real)
      requires Valid() && (b >= 0 ==> g0 == gamma) && TurnInv(t, demand, share0, Filling(), b, g0, room)
      modifies pTput, scaled, uc, utput
      ensures rounds <= |t.mu| && TurnInv(t, demand, share, Filling(), -1, g, room)
    {
      var bneck, maxgamma := b, gamma;
      share, g, rounds := share0, g0, 0;
      while bneck + 1 != 0
        invariant bneck >= 0 ==> g == maxgamma
        invariant TurnInv(t, demand, share, Filling(), bneck, g, room)
        invariant rounds + Busy(utput[..], |t.mu|) <= |t.mu|
        decreases Busy(utput[..], |t.mu|)
      {
        ghost var before, full := utput[..], bneck;
        bneck, maxgamma, share := Turn(bneck, maxgamma, demand, share, room);
        if bneck >= 0 { g := maxgamma; }
        BusyDrops(before, utput[..], full, |t.mu|);
        rounds := rounds + 1;
      }
    }

    /** The part of newupdate that divides the links: it does what it is for exactly when there is room. */
    method Divide() returns (ghost rounds: nat)
      requires Valid() && Positive(pTput[..])
      modifies pTput, scaled, uc, utput
      ensures rounds <= |t.mu| && Positive(pTput[..])
      ensures Divided(t, old(pTput[..]), pTput[..]) <==> Room(t, old(pTput[..]))
    {
      ghost var demand := pTput[..];
      ghost var room := Room(t, demand);
      OpenAccounts();
      ghost var share := demand;
      OpeningBalance(t, demand, share, Filling());
      forall l | 0 <= l < |t.mu| ensures utput[l] >= 0.0 { OpenNonNegative(t, demand, share, Filling(), l); }
      var bneck, maxgamma := FindBottleneck();
      FirstRound(t, demand, share, Filling(), bneck, maxgamma, room);
      ghost var g := if bneck >= 0 then maxgamma else 1.0;
      rounds, share, g := FillLinks(bneck, maxgamma, demand, share, g, room);
      AlwaysPositive(t, demand, share, Filling());
      if room { EndFair(t, demand, share, Filling(), g); }
      else if Divided(t, demand, pTput[..]) { FeasibleNeedsRoom(t, demand, pTput[..]); }
    }

    /** newupdate: divides the links among the normal flows, then takes over the new loads. */
    method NewUpdate(niter: int) returns (ghost rounds: nat)
      requires Valid() && Positive(pTput[..])
      modifies pTput, scaled, uc, utput, tlambda, plambda, lambda
      ensures rounds <= |t.mu|
      ensures Divided(t, old(pTput[..]), pTput[..]) <==> Room(t, old(pTput[..]))
      ensures forall l :: 0 <= l < |t.mu| ==> tlambda[l] == Load(t.adj, pTput[..], l)
      ensures plambda[..] == old(lambda[..])
      ensures Room(t, old(pTput[..])) ==> forall l :: 0 <= l < |t.mu| ==>
                && tlambda[l] <= Cap(t, l)
                && lambda[l] == if niter == 0 then tlambda[l] else (old(lambda[l]) + tlambda[l]) / 2.0
    {
      rounds := Divide();
      if Room(t, old(pTput[..])) { DividedLoads(t, old(pTput[..]), pTput[..]); }
      Update(niter);
    }
  }
}
