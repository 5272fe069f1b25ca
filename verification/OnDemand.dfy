/** What the AODV and the AOMDV routing agents have in common. */
module OnDemand {
  import opened Common
  import opened RouteQueue

  const MY_ROUTE_TIMEOUT := 10.0
  const ACTIVE_ROUTE_TIMEOUT := 10.0
  const REV_ROUTE_LIFE := 6.0
  const BCAST_ID_SAVE := 6.0
  const RREQ_RETRIES := 3
  const TTL_START := 5
  const TTL_THRESHOLD := 7
  const TTL_INCREMENT := 2
  const NODE_TRAVERSAL_TIME := 0.03
  const NETWORK_DIAMETER := 30
  const HELLO_INTERVAL := 1.0
  const ALLOWED_HELLO_LOSS := 3.0

  /** How long to wait for an answer: there and back through the ring, and longer with every request that has
      gone through the whole network. */
  function Backoff(ttl: nat, perHop: real, cnt: nat): real {
    2.0 * ttl as real * perHop * (if cnt > 0 then cnt as real else 1.0)
  }

  lemma BackoffGrows(ttl: nat, perHop: real, cnt: nat)
    ensures Backoff(ttl, perHop, 0) == Backoff(ttl, perHop, 1) == 2.0 * ttl as real * perHop
    ensures cnt > 0 ==> Backoff(ttl, perHop, cnt + 1) == Backoff(ttl, perHop, cnt) + 2.0 * ttl as real * perHop
  {
    var once := 2.0 * ttl as real * perHop;
    assert once * (cnt + 1) as real == once * cnt as real + once;
  }

  /** How far a request goes, when the last route had this length and the last request went that far: through the
      whole network when one of them reached seven hops or no route was ever known, else two hops further than the
      wider of them, and five when both are nothing. */
  function WideningRing(reached: Hops, asked: nat): nat {
    if WholeNetwork(reached, asked) then 30
    else
      var wider := if reached.n > asked then reached.n else asked;
      if wider == 0 then 5 else wider + 2
  }

  predicate WholeNetwork(reached: Hops, asked: nat) {
    reached.Infinite? || reached.n >= 7 || asked >= 7
  }

  /** A lost route in an error report. */
  datatype Unreachable = Unreachable(dst: Addr, seqno: nat)

  datatype Neighbor = Neighbor(addr: Addr, expire: real)

  function NbLookup(nb: seq<Neighbor>, addr: Addr): (i: nat)
    ensures i <= |nb|
    ensures i < |nb| ==> nb[i].addr == addr
    ensures forall k :: 0 <= k < i ==> nb[k].addr != addr
  {
    if nb == [] then 0
    else if nb[0].addr == addr then 0
    else 1 + NbLookup(nb[1..], addr)
  }

  function NbRemove(nb: seq<Neighbor>, id: Addr): seq<Neighbor> {
    var i := NbLookup(nb, id);
    if i < |nb| then nb[..i] + nb[i + 1..] else nb
  }

  /** The first place with this address goes, and no other; with different addresses nobody by it is left. */
  lemma {:induction false} RemovedNeighbor(nb: seq<Neighbor>, id: Addr)
    ensures forall k :: 0 <= k < |nb| && nb[k].addr != id ==> nb[k] in NbRemove(nb, id)
    ensures |NbRemove(nb, id)| == |nb| - if exists k :: 0 <= k < |nb| && nb[k].addr == id then 1 else 0
    ensures (forall i, j :: 0 <= i < j < |nb| ==> nb[i].addr != nb[j].addr)
            ==> forall k :: 0 <= k < |NbRemove(nb, id)| ==> NbRemove(nb, id)[k].addr != id
  {
    var i, r := NbLookup(nb, id), NbRemove(nb, id);
    if i < |nb| {
      assert forall k :: 0 <= k < i ==> r[k] == nb[k];
      assert forall k {:trigger nb[k]} :: i < k < |nb| ==> r[k - 1] == nb[k];
      assert forall k {:trigger r[k]} :: i <= k < |r| ==> r[k] == nb[k + 1];
    }
  }

  /** A neighbour of list nb with this address was not heard of in time. */
  ghost predicate TimedOut(nb: seq<Neighbor>, id: Addr, now: real) {
    exists k: nat :: k < |nb| && nb[k].addr == id && nb[k].expire <= now
  }

  function CountTimedOut(nb: seq<Neighbor>, now: real): nat {
    if nb == [] then 0 else (if nb[0].expire <= now then 1 else 0) + CountTimedOut(nb[1..], now)
  }

  lemma TimedOutTail(nb: seq<Neighbor>, id: Addr, now: real)
    requires nb != []
    ensures TimedOut(nb, id, now) <==> (nb[0].addr == id && nb[0].expire <= now) || TimedOut(nb[1..], id, now)
  {
    if TimedOut(nb[1..], id, now) {
      var k: nat :| k < |nb[1..]| && nb[1..][k].addr == id && nb[1..][k].expire <= now;
      assert nb[k + 1] == nb[1..][k];
    }
    if TimedOut(nb, id, now) && !(nb[0].addr == id && nb[0].expire <= now) {
      var k: nat :| k < |nb| && nb[k].addr == id && nb[k].expire <= now;
      assert nb[1..][k - 1] == nb[k];
    }
  }

  /** rqueue.deque(dst): drops what has timed out and takes the first packet for dst. */
  method TakeFor(q0: seq<Buffered>, dst: Addr, now: real) returns (q: seq<Buffered>, p: Option<Packet>)
    ensures var live := Purge(q0, now);
            var i := FindDst(live, dst);
            if i == |live| then p == None && q == live else p == Some(live[i].packet) && q == RemoveAt(live, i)
    ensures p.Some? ==> |q| < |q0|
  {
    q := Purge(q0, now);
    var i := FindDst(q, dst);
    if i == |q| { return q, None; }
    p := Some(q[i].packet);
    q := RemoveAt(q, i);
  }

  /** Takes out every packet for dst, one after the other. */
  method DropFor(q0: seq<Buffered>, dst: Addr, now: real) returns (q: seq<Buffered>)
    ensures q == Without(Purge(q0, now), dst)
  {
    ghost var live := Purge(q0, now);
    PurgeKeepsLive(q0, now);
    RemoveOrDone(live, dst);
    if Find(live, dst) { RemoveKeepsLive(live, FindDst(live, dst), now); }
    var p;
    q, p := TakeFor(q0, dst, now);
    while p.Some?
      invariant Live(q, now)
      invariant if p.Some? then Without(q, dst) == Without(live, dst) else q == Without(live, dst)
      decreases if p.Some? then 1 + |q| else 0
    {
      ghost var before := q;
      PurgeLive(q, now);
      RemoveOrDone(q, dst);
      if Find(q, dst) { RemoveKeepsLive(q, FindDst(q, dst), now); }
      q, p := TakeFor(q, dst, now);
      assert q == before || q == RemoveAt(before, FindDst(before, dst));
    }
  }

  /** A table on its way from t to t', when the loop over the list of routes still has those of list todo before it. */
  function Partly<E>(t: map<Addr, E>, t': map<Addr, E>, todo: seq<Addr>): map<Addr, E>
    requires t'.Keys == t.Keys
  {
    map d | d in t :: if d in todo then t[d] else t'[d]
  }

  lemma OneMore<E>(t: map<Addr, E>, t': map<Addr, E>, todo: seq<Addr>)
    requires t'.Keys == t.Keys && NoRepeats(todo) && todo != [] && todo[0] in t
    ensures var p, d := Partly(t, t', todo), todo[0];
            d in p && p[d] == t[d] && Partly(t, t', todo[1..]) == p[d := t'[d]]
  {
    TailOfList(todo);
  }

  lemma FirstAndLast<E>(t: map<Addr, E>, t': map<Addr, E>, l: seq<Addr>)
    requires t'.Keys == t.Keys && forall d :: d in t ==> d in l
    ensures Partly(t, t', l) == t && Partly(t, t', []) == t'
  {
    assert forall d :: d in t ==> Partly(t, t', l)[d] == t[d];
  }
}
