/** The send buffer of the routing agents as the singly linked list that it is, and what the order of its packets
    gives. */
module RouteQueueList {
  import opened Common
  import opened RouteQueue
  import opened SinglyLinked

  // ---------------------------------------------------------------- order

  /** Deadlines do not decrease towards the tail, none lies further ahead than the timeout, and the buffer is not overfull. */
  ghost predicate Ordered(q: seq<Buffered>, now: real) {
    && |q| <= MAX_LEN
    && (forall i, j :: 0 <= i < j < |q| ==> q[i].ts <= q[j].ts)
    && (forall i :: 0 <= i < |q| ==> q[i].ts <= now + TIMEOUT)
  }

  /** How many packets at the head have timed out. */
  function Expired(q: seq<Buffered>, now: real): (k: nat)
    ensures k <= |q|
    ensures forall i :: 0 <= i < k ==> q[i].ts < now
    ensures k < |q| ==> q[k].ts >= now
  {
    if q == [] || q[0].ts >= now then 0 else 1 + Expired(q[1..], now)
  }

  /** In an ordered buffer, purging removes a prefix and nothing else. */
  lemma {:induction false} PurgeIsPrefix(q: seq<Buffered>, now: real, clock: real)
    requires Ordered(q, clock)
    ensures Purge(q, now) == q[Expired(q, now)..]
  {
    if q != [] {
      var rest := q[1..];
      forall i, j | 0 <= i < j < |rest| ensures rest[i].ts <= rest[j].ts { assert q[i + 1].ts <= q[j + 1].ts; }
      PurgeIsPrefix(rest, now, clock);
      if q[0].ts >= now {
        forall k | 0 <= k < |q| ensures q[k].ts >= now { assert q[0].ts <= q[k].ts; }
        PurgeLive(q, now);
        assert q[0..] == q;
      } else {
        assert q[1 + Expired(rest, now)..] == rest[Expired(rest, now)..];
      }
    }
  }

  datatype Op = Enqueue(p: Packet, now: real) | Dequeue(now: real) | DequeueDst(dst: Addr, now: real)

  /** What an operation leaves in the buffer. */
  function Apply(q: seq<Buffered>, op: Op): seq<Buffered> {
    match op
    case Enqueue(p, now) => Enque(q, p, now)
    case Dequeue(now) =>
      var live := Purge(q, now);
      if live == [] then [] else live[1..]
    case DequeueDst(dst, now) =>
      var live := Purge(q, now);
      var i := FindDst(live, dst);
      if i == |live| then live else RemoveAt(live, i)
  }

  function ApplyAll(ops: seq<Op>): seq<Buffered> {
    if ops == [] then [] else Apply(ApplyAll(ops[..|ops| - 1]), ops[|ops| - 1])
  }

  ghost predicate TimePasses(ops: seq<Op>) {
    forall i, j :: 0 <= i < j < |ops| ==> ops[i].now <= ops[j].now
  }

  /** Appending drops what has timed out, and of the others only the oldest one, and only if 64 are left. */
  lemma AppendsBehind(q: seq<Buffered>, p: Packet, now: real, clock: real)
    requires Ordered(q, clock)
    ensures var live := q[Expired(q, now)..];
            Enque(q, p, now) == (if |live| < 64 then live else live[1..]) + [Buffered(p, now + 30.0)]
  {
    PurgeIsPrefix(q, now, clock);
  }

  lemma PurgeOrdered(q: seq<Buffered>, now: real, clock: real)
    requires Ordered(q, clock) && clock <= now
    ensures Ordered(Purge(q, now), now)
  {
    PurgeIsPrefix(q, now, clock);
    var k := Expired(q, now);
    var live := q[k..];
    forall i, j | 0 <= i < j < |live| ensures live[i].ts <= live[j].ts { assert q[k + i].ts <= q[k + j].ts; }
  }

  lemma RemoveOrdered(q: seq<Buffered>, i: nat, now: real)
    requires Ordered(q, now) && i < |q|
    ensures Ordered(RemoveAt(q, i), now)
  {
    var r := RemoveAt(q, i);
    forall a, b | 0 <= a < b < |r| ensures r[a].ts <= r[b].ts {
      var a', b' := if a < i then a else a + 1, if b < i then b else b + 1;
      assert r[a] == q[a'] && r[b] == q[b'];
    }
  }

  lemma AppendOrdered(q: seq<Buffered>, p: Packet, now: real)
    requires Ordered(q, now) && |q| < MAX_LEN
    ensures Ordered(q + [Buffered(p, now + TIMEOUT)], now)
  {
  }

  lemma TailOrdered(q: seq<Buffered>, now: real)
    requires Ordered(q, now) && q != []
    ensures Ordered(q[1..], now)
  {
    RemoveOrdered(q, 0, now);
    assert RemoveAt(q, 0) == q[1..];
  }

  lemma EnqueOrdered(q: seq<Buffered>, p: Packet, now: real)
    requires Ordered(Purge(q, now), now)
    ensures Ordered(Enque(q, p, now), now)
  {
    var live := Purge(q, now);
    if |live| == MAX_LEN {
      TailOrdered(live, now);
      AppendOrdered(live[1..], p, now);
    } else {
      AppendOrdered(live, p, now);
    }
  }

  lemma ApplyOrdered(q: seq<Buffered>, op: Op, clock: real)
    requires Ordered(q, clock) && clock <= op.now
    ensures Ordered(Apply(q, op), op.now)
  {
    PurgeOrdered(q, op.now, clock);
    var live, r := Purge(q, op.now), Apply(q, op);
    if op.Enqueue? {
      EnqueOrdered(q, op.p, op.now);
    } else if op.Dequeue? {
      if live != [] { TailOrdered(live, op.now); }
    } else {
      var i := FindDst(live, op.dst);
      assert r == if i == |live| then live else RemoveAt(live, i);
      if i < |live| { RemoveOrdered(live, i, op.now); }
    }
  }

  /** After any operations in the order of time, at most 64 packets wait, in the order of their deadlines. */
  lemma {:induction false} AlwaysOrdered(ops: seq<Op>)
    requires TimePasses(ops) && ops != []
    ensures Ordered(ApplyAll(ops), ops[|ops| - 1].now)
    decreases |ops|
  {
    var before, op := ops[..|ops| - 1], ops[|ops| - 1];
    if before == [] {
      assert Ordered([], op.now);
      ApplyOrdered([], op, op.now);
    } else {
      AlwaysOrdered(before);
      ApplyOrdered(ApplyAll(before), op, before[|before| - 1].now);
    }
  }

  // ---------------------------------------------------------------- the list

  /** The first packet that has timed out, or |q|. */
  function FindAged(q: seq<Buffered>, now: real): (i: nat)
    ensures i <= |q|
    ensures i < |q| ==> q[i].ts < now
    ensures forall k :: 0 <= k < i ==> q[k].ts >= now
  {
    if q == [] || q[0].ts < now then 0 else 1 + FindAged(q[1..], now)
  }

  /** Taking out one packet that has timed out leaves the others as they would be purged. */
  lemma {:induction false} PurgeWithout(q: seq<Buffered>, k: nat, now: real)
    requires k < |q| && q[k].ts < now
    ensures Purge(Cut(q, k), now) == Purge(q, now)
  {
    if k == 0 {
      assert Cut(q, 0) == q[1..];
    } else {
      PurgeWithout(q[1..], k - 1, now);
      assert Cut(q, k)[0] == q[0] && Cut(q, k)[1..] == Cut(q[1..], k - 1);
    }
  }

  /** nodes and contents are the list and the packets in it, from head to tail. */
  class Queue {
    var head: Node?<Buffered>
    var tail: Node?<Buffered>
    var len: int
    ghost var nodes: seq<Node<Buffered>>
    ghost var contents: seq<Buffered>
    ghost var repr: set<Node<Buffered>>

    ghost predicate Valid()
      reads this, repr, nodes
    {
      && (forall i :: 0 <= i < |nodes| ==> nodes[i] in repr) && repr == Members(nodes)
      && NoRepeats(nodes) && Linked(nodes, contents)
      && head == (if nodes == [] then null else nodes[0])
      && tail == (if nodes == [] then null else nodes[|nodes| - 1])
      && len == |nodes|
    }

    lemma NodeFacts(k: nat)
      requires Valid() && k < |nodes|
      ensures NodeOk(nodes, contents, k) && nodes[k] in repr
    {
    }

    constructor ()
      ensures Valid() && contents == [] && repr == {}
    {
      head, tail, len, nodes, contents, repr := null, null, 0, [], [], {};
    }

    /** verifyQueue: its assertions hold. */
    method VerifyQueue()
      requires Valid()
    {
      var cnt, p: Node?<Buffered>, prev: Node?<Buffered> := 0, head, null;
      while p != null
        invariant 0 <= cnt <= |nodes|
        invariant p == (if cnt < |nodes| then nodes[cnt] else null)
        invariant prev == if cnt > 0 then nodes[cnt - 1] else null
        decreases |nodes| - cnt
      {
        NodeFacts(cnt);
        cnt, prev, p := cnt + 1, p, p.next;
      }
      assert cnt == len;
      assert prev == tail;
    }

    method RemoveHead() returns (p: Node?<Buffered>)
      requires Valid()
      modifies this`head, this`tail, this`len, this`nodes, this`contents, this`repr
      ensures Valid() && p == old(head) && repr <= old(repr)
      ensures if old(contents) == [] then contents == [] else contents == Cut(old(contents), 0)
    {
      p := head;
      if nodes != [] { NodeFacts(0); }
      ghost var ns, vs := nodes, contents;
      if head == tail {
        head, tail := null, null;
      } else {
        head := head.next;
      }
      if p != null {
        len := len - 1;
        forall i | 0 <= i < |ns| && i != 0 ensures Closed(ns, vs, 0, i) { assert NodeOk(ns, vs, i); }
        CutLinked(ns, vs, 0, repr);
        CutMembers(ns, 0);
        nodes, contents, repr := Cut(ns, 0), Cut(vs, 0), repr - {p};
      }
    }

    /** findPacketWithDst. */
    method FindPacketWithDst(dst: Addr) returns (p: Node?<Buffered>, prev: Node?<Buffered>)
      requires Valid()
      ensures var k := FindDst(contents, dst);
              p == (if k < |nodes| then nodes[k] else null) && prev == if k > 0 then nodes[k - 1] else null
    {
      p, prev := head, null;
      ghost var k := 0;
      while p != null
        invariant k <= |nodes| && p == (if k < |nodes| then nodes[k] else null)
        invariant prev == if k > 0 then nodes[k - 1] else null
        invariant forall i :: 0 <= i < k ==> contents[i].packet.daddr != dst
        decreases |nodes| - k
      {
        NodeFacts(k);
        if p.value.packet.daddr == dst { return; }
        p, prev, k := p.next, p, k + 1;
      }
    }

    method FindAgedPacket(now: real) returns (found: bool, p: Node?<Buffered>, prev: Node?<Buffered>)
      requires Valid()
      ensures found == (FindAged(contents, now) < |contents|)
      ensures var k := FindAged(contents, now);
              p == (if k < |nodes| then nodes[k] else null) && prev == if k > 0 then nodes[k - 1] else null
    {
      found, p, prev := false, head, null;
      ghost var k := 0;
      while p != null
        invariant k <= |nodes| && p == (if k < |nodes| then nodes[k] else null) && !found
        invariant prev == if k > 0 then nodes[k - 1] else null
        invariant forall i :: 0 <= i < k ==> contents[i].ts >= now
        decreases |nodes| - k
      {
        NodeFacts(k);
        if p.value.ts < now { found := true; return; }
        p, prev, k := p.next, p, k + 1;
      }
    }

    /** The branches for the middle and the tail in deque(dst) and purge(). */
    method LinkOut(p: Node<Buffered>, prev: Node<Buffered>, ghost k: nat)
      requires Valid() && 0 < k < |nodes| && p == nodes[k] && prev == nodes[k - 1]
      modifies this`tail, this`len, prev
      ensures nodes == old(nodes) && contents == old(contents) && repr == old(repr) && head == old(head)
      ensures forall i :: 0 <= i < |nodes| && i != k ==> Closed(nodes, contents, k, i)
      ensures tail == (if k + 1 == |nodes| then prev else old(tail)) && len == |nodes| - 1
    {
      NodeFacts(k);
      NodeFacts(k - 1);
      if p == tail {
        assert k + 1 == |nodes|;
        prev.next := null;
        tail := prev;
        len := len - 1;
      } else {
        prev.next := p.next;
        len := len - 1;
      }
      forall i | 0 <= i < |nodes| && i != k ensures Closed(nodes, contents, k, i) {
        assert old(NodeOk(nodes, contents, i));
      }
    }

    method Unlink(p: Node<Buffered>, prev: Node<Buffered>, ghost k: nat)
      requires Valid() && 0 < k < |nodes| && p == nodes[k] && prev == nodes[k - 1]
      modifies this`tail, this`len, this`nodes, this`contents, this`repr, prev
      ensures Valid() && contents == Cut(old(contents), k) && repr <= old(repr)
    {
      ghost var ns, vs := nodes, contents;
      LinkOut(p, prev, k);
      CutLinked(ns, vs, k, repr);
      CutMembers(ns, k);
      nodes, contents, repr := Cut(ns, k), Cut(vs, k), repr - {p};
    }

    /** Takes out the packet that a search has found. */
    method RemoveFound(p: Node<Buffered>, prev: Node?<Buffered>, ghost k: nat)
      requires Valid() && k < |nodes| && p == nodes[k] && prev == if k > 0 then nodes[k - 1] else null
      modifies this`head, this`tail, this`len, this`nodes, this`contents, this`repr, repr
      ensures Valid() && contents == Cut(old(contents), k) && p.value == old(p.value) && repr <= old(repr)
    {
      if k > 0 { NodeFacts(k - 1); assert nodes[k] != nodes[0]; }
      NodeFacts(k);
      assert (p == head && prev == null) || (prev != null && prev.next == p);
      if p == head {
        var q := RemoveHead();
      } else {
        Unlink(p, prev, k);
      }
    }

    /** One turn of the loop in purge(). */
    method PurgeOne(p: Node<Buffered>, prev: Node?<Buffered>, ghost k: nat, now: real)
      requires Valid() && k == FindAged(contents, now) < |contents|
      requires p == nodes[k] && prev == if k > 0 then nodes[k - 1] else null
      modifies this`head, this`tail, this`len, this`nodes, this`contents, this`repr, repr
      ensures Valid() && |contents| < |old(contents)| && Purge(contents, now) == Purge(old(contents), now)
      ensures repr <= old(repr)
    {
      PurgeWithout(contents, k, now);
      RemoveFound(p, prev, k);
      VerifyQueue();
    }

    method PurgeQueue(now: real)
      requires Valid()
      modifies this`head, this`tail, this`len, this`nodes, this`contents, this`repr, repr
      ensures Valid() && contents == Purge(old(contents), now) && repr <= old(repr)
    {
      ghost var all := contents;
      var found, p, prev := FindAgedPacket(now);
      ghost var k := FindAged(contents, now);
      while found
        invariant Valid() && k == FindAged(contents, now) && found == (k < |contents|)
        invariant p == (if k < |nodes| then nodes[k] else null) && prev == if k > 0 then nodes[k - 1] else null
        invariant Purge(contents, now) == Purge(all, now) && repr <= old(repr)
        decreases |contents|
      {
        PurgeOne(p, prev, k, now);
        found, p, prev := FindAgedPacket(now);
        k := FindAged(contents, now);
      }
      PurgeLive(contents, now);
    }

    /** Puts a packet behind the tail. */
    method Append(p: Node<Buffered>)
      requires Valid() && p !in repr && p.next == null
      modifies this, repr
      ensures Valid() && repr == old(repr) + {p} && contents == old(contents) + [p.value]
    {
      ghost var ns, vs := nodes, contents;
      if nodes != [] { NodeFacts(|nodes| - 1); }
      if head == null {
        head, tail := p, p;
      } else {
        tail.next := p;
        tail := p;
      }
      len := len + 1;
      forall i | 0 <= i < |ns|
        ensures ns[i].value == vs[i] && ns[i].next == if i + 1 == |ns| then p else After(ns, i)
      {
        assert old(NodeOk(ns, vs, i));
      }
      AppendLinked(ns, vs, p, repr);
      assert Members(ns + [p]) == Members(ns) + {p};
      nodes, contents, repr := ns + [p], vs + [p.value], repr + {p};
    }

    method Enqueue(p: Node<Buffered>, now: real)
      requires Valid() && len <= MAX_LEN && forall i :: 0 <= i < |nodes| ==> nodes[i] != p
      modifies this, repr, p
      ensures Valid() && repr <= old(repr) + {p} && len <= MAX_LEN
      ensures contents == Enque(old(contents), old(p.value.packet), now)
    {
      PurgeQueue(now);
      p.next := null;
      p.value := p.value.(ts := now + TIMEOUT);
      assert Valid();
      if len == MAX_LEN {
        var p0 := RemoveHead();
        assert p0 != null;
      }
      Append(p);
      VerifyQueue();
    }

    /** deque(). */
    method Dequeue(now: real) returns (p: Node?<Buffered>)
      requires Valid()
      modifies this`head, this`tail, this`len, this`nodes, this`contents, this`repr, repr
      ensures Valid() && contents == Apply(old(contents), Op.Dequeue(now)) && repr <= old(repr)
      ensures var live := Purge(old(contents), now);
              if live == [] then p == null else p != null && p.value.packet == live[0].packet
    {
      PurgeQueue(now);
      if nodes != [] { NodeFacts(0); }
      p := RemoveHead();
      VerifyQueue();
    }

    /** deque(dst). */
    method DequeueFor(dst: Addr, now: real) returns (p: Node?<Buffered>)
      requires Valid()
      modifies this`head, this`tail, this`len, this`nodes, this`contents, this`repr, repr
      ensures Valid() && contents == Apply(old(contents), DequeueDst(dst, now)) && repr <= old(repr)
      ensures var live := Purge(old(contents), now);
              var i := FindDst(live, dst);
              if i == |live| then p == null else p != null && p.value.packet == live[i].packet
    {
      PurgeQueue(now);
      var q, prev := FindPacketWithDst(dst);
      ghost var k := FindDst(contents, dst);
      p := q;
      if p == null { return; }
      NodeFacts(k);
      ghost var live := contents;
      RemoveFound(q, prev, k);
      assert contents == RemoveAt(live, k);
      VerifyQueue();
    }

    method Contains(dst: Addr) returns (found: bool)
      requires Valid()
      ensures found == Find(contents, dst)
    {
      var p, prev := FindPacketWithDst(dst);
      found := p != null;
    }
  }
}
