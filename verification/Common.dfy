/** Values shared by the routing agents: addresses, hop counts and their order. */
module Common {

  datatype Option<+T> = None | Some(value: T)

  type Addr = int

  /** The link-layer broadcast address; no node owns it. */
  const IP_BROADCAST: Addr := 0xffff_ffff

  /** A hop count. The sentinel INFINITY2 of the C++ code lies above every count. */
  datatype Hops = Finite(n: nat) | Infinite

  predicate Fewer(a: Hops, b: Hops) {
    a.Finite? && (b.Infinite? || a.n < b.n)
  }

  function MaxHops(a: Hops, b: Hops): Hops {
    if Fewer(a, b) then b else a
  }

  function Max(a: int, b: int): int {
    if a > b then a else b
  }

  function MaxReal(a: real, b: real): real {
    if a > b then a else b
  }

  /** Route information with a larger sequence number, or the same one and fewer hops. */
  predicate Fresher(seqno: int, hops: Hops, thanSeqno: int, thanHops: Hops) {
    seqno > thanSeqno || (seqno == thanSeqno && Fewer(hops, thanHops))
  }

  predicate AsFresh(seqno: int, hops: Hops, thanSeqno: int, thanHops: Hops) {
    Fresher(seqno, hops, thanSeqno, thanHops) || (seqno == thanSeqno && hops == thanHops)
  }

  lemma Concatenation<T>(a: seq<T>, b: seq<T>, c: seq<T>)
    ensures a + (b + c) == (a + b) + c
  {
  }

  ghost predicate NoRepeats<T>(l: seq<T>) {
    forall i, j :: 0 <= i < j < |l| ==> l[i] != l[j]
  }

  lemma TailOfList(l: seq<Addr>)
    requires NoRepeats(l) && l != []
    ensures NoRepeats(l[1..]) && l[0] !in l[1..]
    ensures forall x :: x in l <==> x == l[0] || x in l[1..]
  {
  }

  /** s with x put in at place k. */
  function Put<T>(s: seq<T>, k: nat, x: T): (r: seq<T>)
    requires k <= |s|
    ensures |r| == |s| + 1 && r[k] == x
    ensures forall i :: 0 <= i < k ==> r[i] == s[i]
    ensures forall i {:trigger r[i]} :: k < i < |r| ==> r[i] == s[i - 1]
  {
    s[..k] + [x] + s[k..]
  }

  /** s without its element at place k. */
  function Cut<T>(s: seq<T>, k: nat): (r: seq<T>)
    requires k < |s|
    ensures |r| == |s| - 1
    ensures forall i :: 0 <= i < k ==> r[i] == s[i]
    ensures forall i {:trigger r[i]} :: k <= i < |r| ==> r[i] == s[i + 1]
  {
    s[..k] + s[k + 1..]
  }

  lemma PutNoRepeats<T>(ns: seq<T>, k: nat, n: T)
    requires k <= |ns| && NoRepeats(ns) && forall i :: 0 <= i < |ns| ==> ns[i] != n
    ensures NoRepeats(Put(ns, k, n))
  {
  }

  lemma CutNoRepeats<T>(ns: seq<T>, k: nat)
    requires k < |ns| && NoRepeats(ns)
    ensures NoRepeats(Cut(ns, k))
  {
  }
}
