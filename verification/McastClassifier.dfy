/** The multicast classifier: entries are hashed into buckets that behave as one list, with the newest entry first. */
module McastClassifier {
  import opened Common

  const HASHSIZE := 256
  const ANY_IFACE := -2

  datatype Entry = Entry(src: bv32, dst: bv32, slot: int, iif: int)

  /** The 32-bit address arithmetic of hash(). */
  function HashBits(src: bv32, dst: bv32): bv32 {
    var s := src ^ dst;
    var t := s ^ (s >> 16);
    (t ^ (t >> 8)) & 0xff
  }

  function Hash(src: bv32, dst: bv32): (h: nat)
    ensures h < HASHSIZE
  {
    assert HashBits(src, dst) < 256;
    HashBits(src, dst) as nat
  }

  // ---------------------------------------------------------------- one list

  predicate Matches(e: Entry, src: bv32, dst: bv32, iface: int) {
    e.src == src && e.dst == dst && (e.iif == iface || iface == ANY_IFACE)
  }

  predicate MatchesGroup(e: Entry, dst: bv32, iface: int) {
    e.dst == dst && (iface == ANY_IFACE || e.iif == iface)
  }

  /** The newest entry for a source and group that takes this interface. */
  function Lookup(es: seq<Entry>, src: bv32, dst: bv32, iface: int): Option<Entry> {
    if es == [] then None
    else if Matches(es[0], src, dst, iface) then Some(es[0])
    else Lookup(es[1..], src, dst, iface)
  }

  /** The newest shared-tree entry for a group that takes this interface. */
  function LookupStar(es: seq<Entry>, dst: bv32, iface: int): Option<Entry> {
    if es == [] then None
    else if MatchesGroup(es[0], dst, iface) then Some(es[0])
    else LookupStar(es[1..], dst, iface)
  }

  /** The newest matching entry gets another interface. */
  function Change(es: seq<Entry>, src: bv32, dst: bv32, old': int, new': int): seq<Entry> {
    if es == [] then []
    else if Matches(es[0], src, dst, old') then [es[0].(iif := new')] + es[1..]
    else [es[0]] + Change(es[1..], src, dst, old', new')
  }

  datatype Outcome = Hit(slot: int) | CacheMiss | WrongIif

  /** Exact interface before any interface, and within each the source's own entry before the shared tree. */
  function Classify(es: seq<Entry>, stars: seq<Entry>, src: bv32, dst: bv32, iface: int): Outcome {
    var exact, star := Lookup(es, src, dst, iface), LookupStar(stars, dst, iface);
    var any, anyStar := Lookup(es, src, dst, ANY_IFACE), LookupStar(stars, dst, ANY_IFACE);
    if exact.Some? then Hit(exact.value.slot)
    else if star.Some? then Hit(star.value.slot)
    else
      var p := if any.Some? then any else anyStar;
      if p.None? then CacheMiss else if p.value.iif == ANY_IFACE then Hit(p.value.slot) else WrongIif
  }

  // ---------------------------------------------------------------- buckets

  function Bucket(es: seq<Entry>, h: nat): seq<Entry> {
    if es == [] then []
    else if Hash(es[0].src, es[0].dst) == h then [es[0]] + Bucket(es[1..], h)
    else Bucket(es[1..], h)
  }

  /** The bucket of a source and group answers for the whole list. */
  lemma {:induction false} BucketLookup(es: seq<Entry>, src: bv32, dst: bv32, iface: int)
    ensures Lookup(Bucket(es, Hash(src, dst)), src, dst, iface) == Lookup(es, src, dst, iface)
  {
    if es != [] {
      BucketLookup(es[1..], src, dst, iface);
      var h := Hash(src, dst);
      if Hash(es[0].src, es[0].dst) == h { assert Bucket(es, h)[1..] == Bucket(es[1..], h); }
    }
  }

  ghost predicate AllStars(es: seq<Entry>) {
    forall i :: 0 <= i < |es| ==> es[i].src == 0
  }

  lemma {:induction false} StarLookup(es: seq<Entry>, dst: bv32, iface: int)
    requires AllStars(es)
    ensures LookupStar(es, dst, iface) == Lookup(es, 0, dst, iface)
  {
    if es != [] { StarLookup(es[1..], dst, iface); }
  }

  lemma {:induction false} BucketStars(es: seq<Entry>, h: nat)
    requires AllStars(es)
    ensures AllStars(Bucket(es, h))
  {
    if es != [] { BucketStars(es[1..], h); }
  }

  /** So does the bucket of a group, because shared-tree entries carry no source. */
  lemma BucketLookupStar(es: seq<Entry>, dst: bv32, iface: int)
    requires AllStars(es)
    ensures LookupStar(Bucket(es, Hash(0, dst)), dst, iface) == LookupStar(es, dst, iface)
  {
    StarLookup(es, dst, iface);
    BucketLookup(es, 0, dst, iface);
    BucketStars(es, Hash(0, dst));
    StarLookup(Bucket(es, Hash(0, dst)), dst, iface);
  }

  /** Changing an entry in its bucket changes it in the list, and no other bucket. */
  lemma {:induction false} BucketChange(es: seq<Entry>, src: bv32, dst: bv32, old': int, new': int, h: nat)
    ensures Bucket(Change(es, src, dst, old', new'), h)
            == if h == Hash(src, dst) then Change(Bucket(es, h), src, dst, old', new') else Bucket(es, h)
  {
    if es != [] {
      BucketChange(es[1..], src, dst, old', new', h);
      var c := Change(es, src, dst, old', new');
      assert c[1..] == if Matches(es[0], src, dst, old') then es[1..] else Change(es[1..], src, dst, old', new');
      if Hash(es[0].src, es[0].dst) == h {
        assert Bucket(es, h)[1..] == Bucket(es[1..], h) && Bucket(es, h)[0] == es[0];
      }
    }
  }

  lemma {:induction false} ChangeStars(es: seq<Entry>, dst: bv32, old': int, new': int)
    requires AllStars(es)
    ensures AllStars(Change(es, 0, dst, old', new'))
  {
    if es != [] { ChangeStars(es[1..], dst, old', new'); }
  }

  /** The place of the newest entry that takes this interface, or the number of entries. */
  function PlaceOf(es: seq<Entry>, src: bv32, dst: bv32, iface: int): (i: nat)
    ensures i <= |es|
    ensures i < |es| ==> es[i].src == src && es[i].dst == dst && (es[i].iif == iface || iface == ANY_IFACE)
    ensures forall k :: 0 <= k < i ==>
              !(es[k].src == src && es[k].dst == dst && (es[k].iif == iface || iface == ANY_IFACE))
  {
    if es == [] || Matches(es[0], src, dst, iface) then 0 else 1 + PlaceOf(es[1..], src, dst, iface)
  }

  lemma {:induction false} LookupAt(es: seq<Entry>, src: bv32, dst: bv32, iface: int)
    ensures var i := PlaceOf(es, src, dst, iface);
            Lookup(es, src, dst, iface) == if i < |es| then Some(es[i]) else None
  {
    if es != [] && !Matches(es[0], src, dst, iface) { LookupAt(es[1..], src, dst, iface); }
  }

  lemma {:induction false} ChangeAt(es: seq<Entry>, src: bv32, dst: bv32, old': int, new': int)
    ensures var i := PlaceOf(es, src, dst, old');
            Change(es, src, dst, old', new') == if i < |es| then es[i := es[i].(iif := new')] else es
  {
    if es != [] && !Matches(es[0], src, dst, old') { ChangeAt(es[1..], src, dst, old', new'); }
  }

  lemma PlaceIs(es: seq<Entry>, src: bv32, dst: bv32, iface: int, i: nat)
    requires i < |es| && Matches(es[i], src, dst, iface) && forall k :: 0 <= k < i ==> !Matches(es[k], src, dst, iface)
    ensures PlaceOf(es, src, dst, iface) == i
  {
    var j := PlaceOf(es, src, dst, iface);
    assert j >= i && j <= i;
  }

  /** Under its new interface the place of the changed entry is found exactly when no newer entry had that interface
      already; otherwise the newest of those is found, as before. */
  lemma ChangedIsFound(es: seq<Entry>, src: bv32, dst: bv32, old': int, new': int)
    requires PlaceOf(es, src, dst, old') < |es| && new' != ANY_IFACE
    ensures var c, i, j := Change(es, src, dst, old', new'), PlaceOf(es, src, dst, old'), PlaceOf(es, src, dst, new');
            && PlaceOf(c, src, dst, new') == (if j < i then j else i)
            && (PlaceOf(c, src, dst, new') == i <==>
                  forall k :: 0 <= k < i ==> !Matches(es[k], src, dst, new'))
            && Lookup(c, src, dst, new') == Some(if j < i then es[j] else es[i].(iif := new'))
  {
    var c, i, j := Change(es, src, dst, old', new'), PlaceOf(es, src, dst, old'), PlaceOf(es, src, dst, new');
    ChangeAt(es, src, dst, old', new');
    var at := if j < i then j else i;
    forall k | 0 <= k < at ensures !Matches(c[k], src, dst, new') { assert c[k] == es[k]; }
    PlaceIs(c, src, dst, new', at);
    LookupAt(c, src, dst, new');
  }

  /** The place of the newest shared-tree entry for a group that takes this interface, or the number of entries. */
  function StarPlaceOf(es: seq<Entry>, dst: bv32, iface: int): (i: nat)
    ensures i <= |es| && (i < |es| ==> es[i].dst == dst && (es[i].iif == iface || iface == ANY_IFACE))
    ensures forall k :: 0 <= k < i ==> !(es[k].dst == dst && (es[k].iif == iface || iface == ANY_IFACE))
  {
    if es == [] || MatchesGroup(es[0], dst, iface) then 0 else 1 + StarPlaceOf(es[1..], dst, iface)
  }

  lemma {:induction false} LookupStarAt(es: seq<Entry>, dst: bv32, iface: int)
    ensures var i := StarPlaceOf(es, dst, iface);
            LookupStar(es, dst, iface) == if i < |es| then Some(es[i]) else None
  {
    if es != [] && !MatchesGroup(es[0], dst, iface) { LookupStarAt(es[1..], dst, iface); }
  }

  /** How a packet is classified, from the places of entries in the two lists: the source's own entry for the
      interface; else the shared tree for the interface; else the source's own entry, or else the shared tree, for any
      interface, which is a hit only if the entry itself takes any interface. */
  lemma ClassifiedByPlace(es: seq<Entry>, stars: seq<Entry>, src: bv32, dst: bv32, iface: int)
    ensures var i, j := PlaceOf(es, src, dst, iface), StarPlaceOf(stars, dst, iface);
            var a, b := PlaceOf(es, src, dst, ANY_IFACE), StarPlaceOf(stars, dst, ANY_IFACE);
            Classify(es, stars, src, dst, iface)
            == if i < |es| then Hit(es[i].slot)
               else if j < |stars| then Hit(stars[j].slot)
               else if a < |es| then if es[a].iif == ANY_IFACE then Hit(es[a].slot) else WrongIif
               else if b < |stars| then if stars[b].iif == ANY_IFACE then Hit(stars[b].slot) else WrongIif
               else CacheMiss
  {
    LookupAt(es, src, dst, iface);
    LookupAt(es, src, dst, ANY_IFACE);
    LookupStarAt(stars, dst, iface);
    LookupStarAt(stars, dst, ANY_IFACE);
  }

  // ---------------------------------------------------------------- the object

  class Classifier {
    const ht: array<seq<Entry>>
    const htStar: array<seq<Entry>>
    ghost var entries: seq<Entry>
    ghost var stars: seq<Entry>

    /** Each bucket holds its part of the lists, in their order. */
    ghost predicate Valid()
      reads this, ht, htStar
    {
      && ht.Length == htStar.Length == HASHSIZE && ht != htStar && AllStars(stars)
      && (forall h :: 0 <= h < HASHSIZE ==> ht[h] == Bucket(entries, h))
      && (forall h :: 0 <= h < HASHSIZE ==> htStar[h] == Bucket(stars, h))
    }

    constructor ()
      ensures Valid() && entries == [] && stars == [] && fresh(ht) && fresh(htStar)
    {
      ht, htStar := new seq<Entry>[HASHSIZE](_ => []), new seq<Entry>[HASHSIZE](_ => []);
      entries, stars := [], [];
    }

    /** clearAll. */
    method ClearAll()
      requires Valid()
      modifies this`entries, this`stars, ht, htStar
      ensures Valid() && entries == stars == []
    {
      for i := 0 to HASHSIZE
        invariant forall h :: 0 <= h < i ==> ht[h] == [] && htStar[h] == []
      {
        ht[i] := [];
        htStar[i] := [];
      }
      entries, stars := [], [];
    }

    /** set-hash for a source and group. */
    method SetHash(src: bv32, dst: bv32, slot: int, iface: int)
      requires Valid()
      modifies this`entries, ht
      ensures Valid() && entries == [Entry(src, dst, slot, iface)] + old(entries)
    {
      var h, e := Hash(src, dst), Entry(src, dst, slot, iface);
      ht[h] := [e] + ht[h];
      entries := [e] + entries;
      assert entries[1..] == old(entries);
    }

    /** set-hash for a shared tree. */
    method SetHashStar(dst: bv32, slot: int, iface: int)
      requires Valid()
      modifies this`stars, htStar
      ensures Valid() && stars == [Entry(0, dst, slot, iface)] + old(stars)
    {
      var h, e := Hash(0, dst), Entry(0, dst, slot, iface);
      htStar[h] := [e] + htStar[h];
      stars := [e] + stars;
      assert stars[1..] == old(stars);
    }

    /** The scan of one bucket in lookup; |b| tells that there is no match. */
    static method ScanBucket(b: seq<Entry>, src: bv32, dst: bv32, iface: int) returns (i: nat)
      ensures i <= |b| && (i < |b| ==> Matches(b[i], src, dst, iface))
      ensures forall k :: 0 <= k < i ==> !Matches(b[k], src, dst, iface)
    {
      i := 0;
      while i < |b|
        invariant i <= |b| && forall k :: 0 <= k < i ==> !Matches(b[k], src, dst, iface)
      {
        if b[i].src == src && b[i].dst == dst {
          if b[i].iif == iface || iface == ANY_IFACE { return; }
        }
        i := i + 1;
      }
    }

    method LookupEntry(src: bv32, dst: bv32, iface: int) returns (p: Option<Entry>)
      requires Valid()
      ensures p == Lookup(entries, src, dst, iface)
    {
      var b := ht[Hash(src, dst)];
      var i := ScanBucket(b, src, dst, iface);
      FirstMatch(b, src, dst, iface, i);
      BucketLookup(entries, src, dst, iface);
      p := if i < |b| then Some(b[i]) else None;
    }

    method LookupGroup(dst: bv32, iface: int) returns (p: Option<Entry>)
      requires Valid()
      ensures p == LookupStar(stars, dst, iface)
    {
      var b := htStar[Hash(0, dst)];
      var i := 0;
      while i < |b| && !(b[i].dst == dst && (iface == ANY_IFACE || b[i].iif == iface))
        invariant i <= |b| && LookupStar(b[i..], dst, iface) == LookupStar(b, dst, iface)
      {
        i := i + 1;
      }
      BucketLookupStar(stars, dst, iface);
      p := if i < |b| then Some(b[i]) else None;
    }

    /** change-iface for a source and group. */
    method ChangeIface(src: bv32, dst: bv32, oldiface: int, newiface: int)
      requires Valid()
      modifies this`entries, ht
      ensures Valid() && entries == Change(old(entries), src, dst, oldiface, newiface)
    {
      var h := Hash(src, dst);
      var i := ScanBucket(ht[h], src, dst, oldiface);
      ChangeFirst(ht[h], src, dst, oldiface, newiface, i);
      if i < |ht[h]| { ht[h] := ht[h][i := ht[h][i].(iif := newiface)]; }
      entries := Change(entries, src, dst, oldiface, newiface);
      forall k | 0 <= k < HASHSIZE ensures ht[k] == Bucket(entries, k) {
        BucketChange(old(entries), src, dst, oldiface, newiface, k);
      }
    }

    /** change-iface for a shared tree. */
    method ChangeIfaceStar(dst: bv32, oldiface: int, newiface: int)
      requires Valid()
      modifies this`stars, htStar
      ensures Valid() && stars == Change(old(stars), 0, dst, oldiface, newiface)
    {
      var h := Hash(0, dst);
      BucketStars(stars, h);
      var i := ScanBucket(htStar[h], 0, dst, oldiface);
      ChangeFirst(htStar[h], 0, dst, oldiface, newiface, i);
      if i < |htStar[h]| { htStar[h] := htStar[h][i := htStar[h][i].(iif := newiface)]; }
      stars := Change(stars, 0, dst, oldiface, newiface);
      ChangeStars(old(stars), dst, oldiface, newiface);
      forall k | 0 <= k < HASHSIZE ensures htStar[k] == Bucket(stars, k) {
        BucketChange(old(stars), 0, dst, oldiface, newiface, k);
      }
    }

    method ClassifyPacket(src: bv32, dst: bv32, iface: int) returns (r: Outcome)
      requires Valid()
      ensures r == Classify(entries, stars, src, dst, iface)
    {
      var p := LookupEntry(src, dst, iface);
      if p.None? { p := LookupGroup(dst, iface); }
      if p.None? {
        p := LookupEntry(src, dst, ANY_IFACE);
        if p.None? { p := LookupGroup(dst, ANY_IFACE); }
        if p.None? { return CacheMiss; }
        if p.value.iif == ANY_IFACE { return Hit(p.value.slot); }
        return WrongIif;
      }
      r := Hit(p.value.slot);
    }
  }

  lemma {:induction false} FirstMatch(b: seq<Entry>, src: bv32, dst: bv32, iface: int, i: nat)
    requires i <= |b| && (i < |b| ==> Matches(b[i], src, dst, iface))
    requires forall k :: 0 <= k < i ==> !Matches(b[k], src, dst, iface)
    ensures Lookup(b, src, dst, iface) == if i < |b| then Some(b[i]) else None
  {
    if i > 0 {
      assert !Matches(b[0], src, dst, iface);
      FirstMatch(b[1..], src, dst, iface, i - 1);
    }
  }

  lemma {:induction false} ChangeFirst(b: seq<Entry>, src: bv32, dst: bv32, old': int, new': int, i: nat)
    requires i <= |b| && (i < |b| ==> Matches(b[i], src, dst, old'))
    requires forall k :: 0 <= k < i ==> !Matches(b[k], src, dst, old')
    ensures Change(b, src, dst, old', new') == if i < |b| then b[i := b[i].(iif := new')] else b
  {
    if i > 0 {
      assert !Matches(b[0], src, dst, old');
      ChangeFirst(b[1..], src, dst, old', new', i - 1);
    } else if b != [] {
      assert Change(b, src, dst, old', new') == [b[0].(iif := new')] + b[1..];
    }
  }
}
