/** What the drop-front send buffer of the routing agents holds, as a sequence of packets with their deadlines. */
module RouteQueue {
  import opened Common

  const MAX_LEN := 64
  const TIMEOUT := 30.0

  /** The header fields of a data packet that the routing agents look at. */
  datatype Packet = Packet(saddr: Addr, daddr: Addr, ttl: int, numForwards: nat)

  /** The link layer counts each reception of a packet. */
  function ReceptionCounted(p: Packet): Packet {
    p.(numForwards := p.numForwards + 1)
  }

  /** A packet in the send buffer, with the time after which it is dropped. */
  datatype Buffered = Buffered(packet: Packet, ts: real)

  /** The packets that have not timed out, in their old order. */
  function Purge(q: seq<Buffered>, now: real): (r: seq<Buffered>)
    ensures |r| <= |q|
  {
    if q == [] then []
    else if q[0].ts < now then Purge(q[1..], now)
    else [q[0]] + Purge(q[1..], now)
  }

  function Enque(q: seq<Buffered>, p: Packet, now: real): seq<Buffered> {
    var live := Purge(q, now);
    (if |live| == MAX_LEN then live[1..] else live) + [Buffered(p, now + TIMEOUT)]
  }

  /** The position of the first packet for dst, or |q| if there is none. */
  function FindDst(q: seq<Buffered>, dst: Addr): (i: nat)
    ensures i <= |q|
    ensures i < |q| ==> q[i].packet.daddr == dst
    ensures forall k :: 0 <= k < i ==> q[k].packet.daddr != dst
  {
    if q == [] then 0
    else if q[0].packet.daddr == dst then 0
    else 1 + FindDst(q[1..], dst)
  }

  predicate Find(q: seq<Buffered>, dst: Addr) {
    FindDst(q, dst) < |q|
  }

  function RemoveAt(q: seq<Buffered>, i: nat): (r: seq<Buffered>)
    requires i < |q|
    ensures |r| == |q| - 1
  {
    q[..i] + q[i + 1..]
  }

  /** Everything that is not for dst, in its old order. */
  function Without(q: seq<Buffered>, dst: Addr): (r: seq<Buffered>)
    ensures |r| <= |q|
  {
    if q == [] then []
    else if q[0].packet.daddr == dst then Without(q[1..], dst)
    else [q[0]] + Without(q[1..], dst)
  }

  lemma PurgeIdempotent(q: seq<Buffered>, now: real)
    ensures Purge(Purge(q, now), now) == Purge(q, now)
  {
    if q != [] {
      PurgeIdempotent(q[1..], now);
      if q[0].ts >= now {
        assert Purge(q, now)[1..] == Purge(q[1..], now);
      }
    }
  }

  /** No packet has timed out. */
  predicate Live(q: seq<Buffered>, now: real) {
    forall k :: 0 <= k < |q| ==> q[k].ts >= now
  }

  lemma RemoveKeepsLive(q: seq<Buffered>, i: nat, now: real)
    requires i < |q| && Live(q, now)
    ensures Live(RemoveAt(q, i), now)
  {
  }

  lemma PurgeLive(q: seq<Buffered>, now: real)
    requires Live(q, now)
    ensures Purge(q, now) == q
  {
    if q != [] {
      PurgeLive(q[1..], now);
    }
  }

  lemma PurgeKeepsLive(q: seq<Buffered>, now: real)
    ensures Live(Purge(q, now), now)
  {
    if q != [] {
      PurgeKeepsLive(q[1..], now);
    }
  }

  /** Removing the first packet for dst does not change what is not for dst. */
  lemma {:induction false} WithoutRemove(q: seq<Buffered>, dst: Addr)
    requires Find(q, dst)
    ensures Without(RemoveAt(q, FindDst(q, dst)), dst) == Without(q, dst)
  {
    var i := FindDst(q, dst);
    var r := RemoveAt(q, i);
    if q[0].packet.daddr == dst {
      assert r == q[1..];
    } else {
      WithoutRemove(q[1..], dst);
      assert r[0] == q[0] && r[1..] == RemoveAt(q[1..], i - 1);
    }
  }

  lemma {:induction false} WithoutAbsent(q: seq<Buffered>, dst: Addr)
    requires !Find(q, dst)
    ensures Without(q, dst) == q
  {
    if q != [] {
      assert q[0].packet.daddr != dst;
      WithoutAbsent(q[1..], dst);
    }
  }

  /** Taking packets for dst out one by one comes to leaving them all out. */
  lemma RemoveOrDone(q: seq<Buffered>, dst: Addr)
    ensures Find(q, dst) ==> Without(RemoveAt(q, FindDst(q, dst)), dst) == Without(q, dst)
    ensures !Find(q, dst) ==> Without(q, dst) == q
  {
    if Find(q, dst) { WithoutRemove(q, dst); } else { WithoutAbsent(q, dst); }
  }

  // ---------------------------------------------------------------- what leaves and what goes on waiting

  /** The packets for dst that leave node index when there is a route to dst, in order. */
  function Leaving(q: seq<Buffered>, dst: Addr, index: Addr, now: real): seq<Packet> {
    if q == [] then []
    else
      var p := q[0].packet;
      (if q[0].ts >= now && p.daddr == dst && p.ttl != 0 && dst != index then [p] else [])
      + Leaving(q[1..], dst, index, now)
  }

  /** What goes on waiting when the packets for dst leave. */
  function Left(q: seq<Buffered>, dst: Addr, now: real): seq<Buffered> {
    if q == [] then []
    else (if q[0].ts >= now && q[0].packet.daddr != dst then [q[0]] else []) + Left(q[1..], dst, now)
  }

  lemma {:induction false} PurgeLeaving(q: seq<Buffered>, dst: Addr, index: Addr, now: real)
    ensures Leaving(Purge(q, now), dst, index, now) == Leaving(q, dst, index, now)
    ensures Left(Purge(q, now), dst, now) == Left(q, dst, now)
  {
    if q != [] {
      PurgeLeaving(q[1..], dst, index, now);
      if q[0].ts >= now { assert Purge(q, now)[1..] == Purge(q[1..], now); }
    }
  }

  lemma {:induction false} NoneLeaving(q: seq<Buffered>, dst: Addr, index: Addr, now: real)
    requires Live(q, now) && !Find(q, dst)
    ensures Leaving(q, dst, index, now) == [] && Left(q, dst, now) == q
  {
    if q != [] {
      assert q[0].packet.daddr != dst;
      NoneLeaving(q[1..], dst, index, now);
    }
  }

  lemma {:induction false} FirstLeaving(q: seq<Buffered>, dst: Addr, index: Addr, now: real)
    requires Live(q, now) && Find(q, dst)
    ensures var i := FindDst(q, dst);
            var p, r := q[i].packet, RemoveAt(q, i);
            && Leaving(q, dst, index, now) == (if p.ttl != 0 && dst != index then [p] else []) + Leaving(r, dst, index, now)
            && Left(q, dst, now) == Left(r, dst, now)
  {
    var i := FindDst(q, dst);
    var r := RemoveAt(q, i);
    if q[0].packet.daddr == dst {
      assert r == q[1..];
    } else {
      FirstLeaving(q[1..], dst, index, now);
      assert r[0] == q[0] && r[1..] == RemoveAt(q[1..], i - 1);
    }
  }

  lemma {:induction false} LeftIsWithout(q: seq<Buffered>, dst: Addr, now: real)
    ensures Without(Purge(q, now), dst) == Left(q, dst, now)
  {
    if q != [] {
      LeftIsWithout(q[1..], dst, now);
      if q[0].ts >= now { assert Purge(q, now)[1..] == Purge(q[1..], now); }
    }
  }

  /** A packet that waits for dst and may travel leaves. */
  lemma {:induction false} LeavesInTime(q: seq<Buffered>, k: nat, index: Addr, now: real)
    requires k < |q| && q[k].ts >= now && q[k].packet.ttl != 0 && q[k].packet.daddr != index
    ensures q[k].packet in Leaving(q, q[k].packet.daddr, index, now)
  {
    if k > 0 { LeavesInTime(q[1..], k - 1, index, now); }
  }
}
