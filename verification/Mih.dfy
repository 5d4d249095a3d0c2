/** Multi-index hashing: range search over 64-bit codes by their four substrings. */
module Mih {
  import opened Wrappers
  import opened BinaryPolynomials
  import opened Hamming

  const M: nat := 4
  const BITS: nat := 16

  type Id = int

  datatype Hit = Hit(item: Id, distance: nat)

  predicate IsCode(h: nat) {
    h < Pow2(M * BITS)
  }

  // ---------------------------------------------------------------- substrings

  function Sub(h: nat, i: nat): nat {
    Low(High(h, BITS * i), BITS)
  }

  lemma SubIsWord(h: nat, i: nat)
    ensures Sub(h, i) < Pow2(BITS)
  {
    LowAndHigh(High(h, BITS * i), BITS);
  }

  lemma DistFrom(a: nat, b: nat, i: nat)
    ensures Dist(High(a, BITS * i), High(b, BITS * i))
            == Dist(Sub(a, i), Sub(b, i)) + Dist(High(a, BITS * (i + 1)), High(b, BITS * (i + 1)))
  {
    hide Dist;
    DistSplit(High(a, BITS * i), High(b, BITS * i), BITS);
    HighSum(a, BITS * i, BITS);
    HighSum(b, BITS * i, BITS);
  }

  lemma NothingAbove(h: nat)
    requires IsCode(h)
    ensures High(h, M * BITS) == 0
  {
    hide High, Low, Pow2;
    LowAndHigh(h, M * BITS);
    if High(h, M * BITS) > 0 {
      TimesAtLeastOne(High(h, M * BITS), Pow2(M * BITS));
    }
  }

  lemma TimesAtLeastOne(h: nat, p: nat)
    requires h > 0
    ensures h * p >= p
  {}

  /** A code's distance is the sum of its substrings'. */
  lemma SubsDistance(a: nat, b: nat)
    requires IsCode(a) && IsCode(b)
    ensures Dist(a, b)
         == Dist(Sub(a, 0), Sub(b, 0)) + Dist(Sub(a, 1), Sub(b, 1)) + Dist(Sub(a, 2), Sub(b, 2))
             + Dist(Sub(a, 3), Sub(b, 3))
  {
    hide Dist, Sub, IsCode;
    DistFrom(a, b, 0);
    DistFrom(a, b, 1);
    DistFrom(a, b, 2);
    DistFrom(a, b, 3);
    NothingAbove(a);
    NothingAbove(b);
    DistZero(0, 0);
  }

  /** Codes within r agree up to r / 4 in one substring. */
  lemma Pigeonhole(a: nat, b: nat, r: nat) returns (i: nat)
    requires IsCode(a) && IsCode(b) && Dist(a, b) <= r
    ensures i < M && Dist(Sub(a, i), Sub(b, i)) <= r / M
  {
    hide Dist, Sub;
    SubsDistance(a, b);
    i := if Dist(Sub(a, 0), Sub(b, 0)) <= r / M then 0
    else if Dist(Sub(a, 1), Sub(b, 1)) <= r / M then 1
    else if Dist(Sub(a, 2), Sub(b, 2)) <= r / M then 2
    else 3;
  }

  predicate SameSubs(a: nat, b: nat) {
    forall i :: 0 <= i < M ==> Sub(a, i) == Sub(b, i)
  }

  /** A code is known by its substrings. */
  lemma SubsTell(a: nat, b: nat)
    requires IsCode(a) && IsCode(b)
    ensures SameSubs(a, b) <==> a == b
  {
    hide Dist, Sub, IsCode;
    SubsDistance(a, b);
    DistZero(a, b);
    DistZero(Sub(a, 0), Sub(b, 0));
    DistZero(Sub(a, 1), Sub(b, 1));
    DistZero(Sub(a, 2), Sub(b, 2));
    DistZero(Sub(a, 3), Sub(b, 3));
  }

  // ---------------------------------------------------------------- neighbours

  function Prefixed(b: nat, lists: seq<seq<nat>>): (r: seq<seq<nat>>)
    ensures |r| == |lists| && forall i :: 0 <= i < |r| ==> r[i] == [b] + lists[i]
  {
    seq(|lists|, i requires 0 <= i < |lists| => [b] + lists[i])
  }

  /** Every choice of r positions from from on. */
  function Combinations(from: nat, r: nat): seq<seq<nat>>
    requires from <= BITS
    decreases BITS - from
  {
    if r == 0 then [[]]
    else if from == BITS then []
    else Prefixed(from, Combinations(from + 1, r - 1)) + Combinations(from + 1, r)
  }

  lemma PrefixedAre(b: nat, lists: seq<seq<nat>>, bits: seq<nat>)
    ensures bits in Prefixed(b, lists) <==> bits != [] && bits[0] == b && bits[1..] in lists
  {
    var all := Prefixed(b, lists);
    if bits in all {
      var i :| 0 <= i < |all| && all[i] == bits;
      assert bits[1..] == lists[i];
    }
    if bits != [] && bits[0] == b && bits[1..] in lists {
      var i :| 0 <= i < |lists| && lists[i] == bits[1..];
      assert all[i] == [b] + lists[i] == bits;
    }
  }

  lemma CombinationsStep(from: nat, r: nat, bits: seq<nat>)
    requires from <= BITS
    ensures bits in Combinations(from, r)
            <==> if r == 0 then bits == []
                 else (from < BITS
                       && (bits in Prefixed(from, Combinations(from + 1, r - 1))
                           || bits in Combinations(from + 1, r)))
  {
    hide Prefixed;
  }

  lemma AscendingStep(bits: seq<nat>, from: nat)
    requires from <= BITS
    ensures bits == [] ==> Ascending(bits, from, BITS)
    ensures bits != [] ==>
              (Ascending(bits, from, BITS)
               <==> from < BITS && ((bits[0] == from && Ascending(bits[1..], from + 1, BITS))
                                    || Ascending(bits, from + 1, BITS)))
  {}

  lemma {:induction false} CombinationsAre(from: nat, r: nat, bits: seq<nat>)
    requires from <= BITS
    ensures bits in Combinations(from, r) <==> Ascending(bits, from, BITS) && |bits| == r
    decreases BITS - from
  {
    hide Combinations, Ascending;
    CombinationsStep(from, r, bits);
    AscendingStep(bits, from);
    if r != 0 && from < BITS {
      CombinationsAre(from + 1, r, bits);
      PrefixedAre(from, Combinations(from + 1, r - 1), bits);
      if bits != [] {
        CombinationsAre(from + 1, r - 1, bits[1..]);
      }
    }
  }

  method FlipBits(v: nat, bits: seq<nat>) returns (x: nat)
    ensures x == Flip(v, bits)
  {
    x := v;
    for i := 0 to |bits|
      invariant Flip(v, bits) == Flip(x, bits[i..])
    {
      assert bits[i..][1..] == bits[i + 1..];
      x := Xor(x, Shl(1, bits[i]));
    }
  }

  /** The words within a distance of v, all of them and no others. */
  method Neighbours(v: nat, radius: nat) returns (out: seq<nat>)
    requires v < Pow2(BITS)
    ensures forall w :: w in out <==> 0 <= w < Pow2(BITS) && Dist(v, w) <= radius
  {
    hide Dist, Flip, Combinations, Ascending, Pow2;
    out := [v];
    DistZero(v, v);
    forall w: nat | Dist(v, w) == 0 ensures w == v {
      DistZero(v, w);
    }
    for r := 1 to radius + 1
      invariant forall w :: w in out <==> 0 <= w < Pow2(BITS) && Dist(v, w) < r
    {
      var combinations := Combinations(0, r);
      ghost var before := out;
      for j := 0 to |combinations|
        invariant before <= out
        invariant forall w :: w in out ==> w in before || exists i :: 0 <= i < j && w == Flip(v, combinations[i])
        invariant forall i :: 0 <= i < j ==> Flip(v, combinations[i]) in out
      {
        var x := FlipBits(v, combinations[j]);
        out := out + [x];
      }
      Shell(v, r);
    }
  }

  /** The words at distance r are those with some r bits flipped. */
  lemma Shell(v: nat, r: nat)
    requires v < Pow2(BITS)
    ensures forall i :: 0 <= i < |Combinations(0, r)| ==>
                          Flip(v, Combinations(0, r)[i]) < Pow2(BITS) && Dist(v, Flip(v, Combinations(0, r)[i])) == r
    ensures forall w: nat :: w < Pow2(BITS) && Dist(v, w) == r ==>
                               exists i :: 0 <= i < |Combinations(0, r)| && w == Flip(v, Combinations(0, r)[i])
  {
    hide Dist, Flip, Combinations, Ascending, Pow2;
    forall i | 0 <= i < |Combinations(0, r)|
      ensures Flip(v, Combinations(0, r)[i]) < Pow2(BITS) && Dist(v, Flip(v, Combinations(0, r)[i])) == r
    {
      CombinationsAre(0, r, Combinations(0, r)[i]);
      FlippedWord(v, Combinations(0, r)[i], BITS);
    }
    forall w: nat | w < Pow2(BITS) && Dist(v, w) == r
      ensures exists i :: 0 <= i < |Combinations(0, r)| && w == Flip(v, Combinations(0, r)[i])
    {
      var bits := FlipToWord(v, w, BITS);
      CombinationsAre(0, r, bits);
    }
  }

  // ---------------------------------------------------------------- tables

  type Table = map<nat, seq<Id>>

  function BucketAt(t: Table, v: nat): seq<Id> {
    if v in t then t[v] else []
  }

  function Without(l: seq<Id>, item: Id): seq<Id> {
    if l == [] then [] else if l[0] == item then l[1..] else [l[0]] + Without(l[1..], item)
  }

  lemma {:induction false} WithoutCounts(l: seq<Id>, item: Id)
    requires item in l
    ensures multiset(Without(l, item)) == multiset(l) - multiset{item}
  {
    assert l == [l[0]] + l[1..];
    if l[0] != item {
      WithoutCounts(l[1..], item);
    }
  }

  /** Every indexed item is in each table under its substring. */
  ghost predicate Covered(tables: seq<Table>, codes: map<Id, nat>) {
    |tables| == M && forall item, i: nat :: item in codes && i < M ==> item in BucketAt(tables[i], Sub(codes[item], i))
  }

  /** The tables name indexed items only. */
  ghost predicate Clean(tables: seq<Table>, codes: map<Id, nat>) {
    |tables| == M && forall item, i: nat, v: nat :: i < M && item in BucketAt(tables[i], v) ==> item in codes
  }

  /** Every indexed item is in each table exactly once, under its substring, and nothing else is there. */
  ghost predicate Exact(tables: seq<Table>, codes: map<Id, nat>) {
    |tables| == M && forall item, i: nat, v: nat :: i < M ==>
                                                      multiset(BucketAt(tables[i], v))[item] == Times(codes, item, i, v)
  }

  ghost function Times(codes: map<Id, nat>, item: Id, i: nat, v: nat): nat {
    if item in codes && Sub(codes[item], i) == v then 1 else 0
  }

  lemma ExactIs(tables: seq<Table>, codes: map<Id, nat>)
    requires Exact(tables, codes)
    ensures Covered(tables, codes) && Clean(tables, codes)
  {
    hide Sub, BucketAt;
    forall item, i: nat, v: nat | i < M && item in BucketAt(tables[i], v) ensures item in codes {
      assert multiset(BucketAt(tables[i], v))[item] > 0;
    }
    forall item, i: nat | item in codes && i < M ensures item in BucketAt(tables[i], Sub(codes[item], i)) {
      assert multiset(BucketAt(tables[i], Sub(codes[item], i)))[item] == 1;
    }
  }

  function Added(t: Table, v: nat, item: Id): Table {
    t[v := BucketAt(t, v) + [item]]
  }

  function Removed(t: Table, v: nat, item: Id): Table {
    if item in BucketAt(t, v) then t[v := Without(t[v], item)] else t
  }

  lemma AddedCounts(t: Table, v: nat, item: Id, w: nat)
    ensures multiset(BucketAt(Added(t, v, item), w))
            == multiset(BucketAt(t, w)) + if w == v then multiset{item} else multiset{}
  {}

  lemma RemovedCounts(t: Table, v: nat, item: Id, w: nat)
    ensures multiset(BucketAt(Removed(t, v, item), w))
            == multiset(BucketAt(t, w)) - if w == v then multiset{item} else multiset{}
  {
    if item in BucketAt(t, v) {
      WithoutCounts(t[v], item);
    }
  }

  /** One entry was appended in every table. */
  ghost predicate AllAdded(before: seq<Table>, after: seq<Table>, n: nat, h: nat, item: Id) {
    |before| == M && |after| == M && n <= M
    && forall i: nat :: i < M ==> after[i] == if i < n then Added(before[i], Sub(h, i), item) else before[i]
  }

  ghost predicate AllRemoved(before: seq<Table>, after: seq<Table>, n: nat, h: nat, item: Id) {
    |before| == M && |after| == M && n <= M
    && forall i: nat :: i < M ==> after[i] == if i < n then Removed(before[i], Sub(h, i), item) else before[i]
  }

  lemma AddKeeps(before: seq<Table>, after: seq<Table>, codes: map<Id, nat>, h: nat, item: Id)
    requires AllAdded(before, after, M, h, item)
    ensures Covered(before, codes) ==> Covered(after, codes[item := h])
    ensures Clean(before, codes) ==> Clean(after, codes[item := h])
  {
    AllAddedCounts(before, after, h, item);
    hide Sub, BucketAt, Added;
    InMultiset();
  }

  lemma AllAddedCounts(before: seq<Table>, after: seq<Table>, h: nat, item: Id)
    requires AllAdded(before, after, M, h, item)
    ensures forall i: nat, w: nat :: i < M ==>
              multiset(BucketAt(after[i], w))
              == multiset(BucketAt(before[i], w)) + if w == Sub(h, i) then multiset{item} else multiset{}
  {
    hide Sub, BucketAt, Added;
    forall i: nat, w: nat | i < M
      ensures multiset(BucketAt(after[i], w))
           == multiset(BucketAt(before[i], w)) + if w == Sub(h, i) then multiset{item} else multiset{}
    {
      AddedCounts(before[i], Sub(h, i), item, w);
    }
  }

  /** Tables stay exact if and only if the item is new. */
  lemma AddExact(before: seq<Table>, after: seq<Table>, codes: map<Id, nat>, h: nat, item: Id)
    requires AllAdded(before, after, M, h, item) && Exact(before, codes)
    ensures Exact(after, codes[item := h]) <==> item !in codes
  {
    AllAddedCounts(before, after, h, item);
    hide Sub, BucketAt, AllAdded;
    if item in codes {
      var v := Sub(codes[item], 0);
      assert multiset(BucketAt(before[0], v))[item] == Times(codes, item, 0, v) == 1;
      assert multiset(BucketAt(after[0], v))[item] != Times(codes[item := h], item, 0, v);
    }
  }

  lemma AllRemovedCounts(before: seq<Table>, after: seq<Table>, h: nat, item: Id)
    requires AllRemoved(before, after, M, h, item)
    ensures forall i: nat, w: nat :: i < M ==>
              multiset(BucketAt(after[i], w))
              == multiset(BucketAt(before[i], w)) - if w == Sub(h, i) then multiset{item} else multiset{}
  {
    hide Sub, BucketAt, Removed;
    forall i: nat, w: nat | i < M
      ensures multiset(BucketAt(after[i], w))
           == multiset(BucketAt(before[i], w)) - if w == Sub(h, i) then multiset{item} else multiset{}
    {
      RemovedCounts(before[i], Sub(h, i), item, w);
    }
  }

  lemma RemoveKeeps(before: seq<Table>, after: seq<Table>, codes: map<Id, nat>, h: nat, item: Id)
    requires AllRemoved(before, after, M, h, item)
    ensures Covered(before, codes) ==> Covered(after, codes - {item})
  {
    AllRemovedCounts(before, after, h, item);
    hide Sub, BucketAt, Removed;
    InMultiset();
  }

  /** Tables stay exact if and only if the item is removed under the substrings it was indexed with. */
  lemma RemoveExact(before: seq<Table>, after: seq<Table>, codes: map<Id, nat>, h: nat, item: Id)
    requires AllRemoved(before, after, M, h, item) && Exact(before, codes)
    ensures Exact(after, codes - {item}) <==> (item in codes ==> SameSubs(codes[item], h))
  {
    AllRemovedCounts(before, after, h, item);
    hide Sub, BucketAt, AllRemoved;
    if item in codes && !SameSubs(codes[item], h) {
      var i :| 0 <= i < M && Sub(codes[item], i) != Sub(h, i);
      var v := Sub(codes[item], i);
      assert multiset(BucketAt(before[i], v))[item] == Times(codes, item, i, v) == 1;
      assert multiset(BucketAt(after[i], v))[item] == 1 != Times(codes - {item}, item, i, v);
    }
  }

  lemma InMultiset()
    ensures forall l: seq<Id>, x: Id :: x in l <==> x in multiset(l)
  {}

  /** An item without a code lies in a bucket that a search for q looks at. */
  ghost predicate Stray(tables: seq<Table>, codes: map<Id, nat>, q: nat, radius: nat, x: Id) {
    |tables| == M && x !in codes && exists i: nat, v: nat :: StrayAt(tables, q, radius, x, i, v)
  }

  ghost predicate StrayAt(tables: seq<Table>, q: nat, radius: nat, x: Id, i: nat, v: nat)
    requires |tables| == M
  {
    i < M && v < Pow2(BITS) && Dist(Sub(q, i), v) <= radius / M && x in BucketAt(tables[i], v)
  }

  lemma StrayUnder(tables: seq<Table>, codes: map<Id, nat>, q: nat, radius: nat, x: Id, i: nat)
    requires |tables| == M && i < M && x !in codes && x in BucketAt(tables[i], Sub(q, i))
    ensures Stray(tables, codes, q, radius, x)
  {
    hide Dist, Sub, BucketAt, Pow2;
    SubIsWord(q, i);
    DistZero(Sub(q, i), Sub(q, i));
    assert StrayAt(tables, q, radius, x, i, Sub(q, i));
  }

  /** An item added twice and removed once is left behind where every search for its code looks. */
  lemma TwiceAddedLingers(t0: seq<Table>, t1: seq<Table>, t2: seq<Table>, t3: seq<Table>, codes: map<Id, nat>, h: nat,
                          item: Id, radius: nat)
    requires AllAdded(t0, t1, M, h, item) && AllAdded(t1, t2, M, h, item) && AllRemoved(t2, t3, M, h, item)
    ensures Stray(t3, codes - {item}, h, radius, item)
  {
    hide Sub, BucketAt, Added, Removed, Stray;
    var v := Sub(h, 0);
    AddedCounts(t0[0], v, item, v);
    AddedCounts(t1[0], v, item, v);
    RemovedCounts(t2[0], v, item, v);
    InMultiset();
    StrayUnder(t3, codes - {item}, h, radius, item, 0);
  }

  /** So is an item removed under a code with other substrings than its own. */
  lemma OtherCodeLingers(before: seq<Table>, after: seq<Table>, codes: map<Id, nat>, h: nat, item: Id, radius: nat)
    requires AllRemoved(before, after, M, h, item) && Covered(before, codes)
    requires item in codes && !SameSubs(codes[item], h)
    ensures Stray(after, codes - {item}, codes[item], radius, item)
  {
    AllRemovedCounts(before, after, h, item);
    hide Sub, BucketAt, Stray, AllRemoved;
    InMultiset();
    var i :| 0 <= i < M && Sub(codes[item], i) != Sub(h, i);
    assert item in BucketAt(before[i], Sub(codes[item], i));
    StrayUnder(after, codes - {item}, codes[item], radius, item, i);
  }

  // ---------------------------------------------------------------- searching

  /** The items seen so far have been reported as their distances demand, each once. */
  ghost predicate Collected(codes: map<Id, nat>, q: nat, radius: nat, seen: set<Id>, out: seq<Hit>) {
    seen <= codes.Keys
    && (forall item, d: nat ::
          Hit(item, d) in out <==> item in seen && item in codes && d == Dist(codes[item], q) && d <= radius)
    && (forall i, j :: 0 <= i < j < |out| ==> out[i].item != out[j].item)
  }

  /** Every item of a bucket near s was seen. */
  ghost predicate AroundSeen(t: Table, s: nat, radius: nat, seen: set<Id>) {
    forall v: nat, item :: v < Pow2(BITS) && Dist(s, v) <= radius && item in BucketAt(t, v) ==> item in seen
  }

  /** The hits are the indexed items within the radius, each once with its distance. */
  ghost predicate Scanned(codes: map<Id, nat>, q: nat, radius: nat, out: seq<Hit>) {
    (forall item, d: nat :: Hit(item, d) in out <==> item in codes && d == Dist(codes[item], q) && d <= radius)
    && (forall i, j :: 0 <= i < j < |out| ==> out[i].item != out[j].item)
  }

  lemma CollectedNext(codes: map<Id, nat>, q: nat, radius: nat, seen: set<Id>, out: seq<Hit>, item: Id)
    requires Collected(codes, q, radius, seen, out) && item in codes && item !in seen
    ensures var d := Dist(codes[item], q);
            Collected(codes, q, radius, seen + {item}, if d <= radius then out + [Hit(item, d)] else out)
  {
    hide Dist;
    var d := Dist(codes[item], q);
    forall i | 0 <= i < |out| ensures out[i].item != item {
      assert Hit(out[i].item, out[i].distance) in out;
    }
  }

  lemma CollectedAll(tables: seq<Table>, codes: map<Id, nat>, q: nat, radius: nat, seen: set<Id>, out: seq<Hit>)
    requires Covered(tables, codes) && IsCode(q) && (forall item :: item in codes ==> IsCode(codes[item]))
    requires Collected(codes, q, radius, seen, out)
    requires forall i: nat :: i < M ==> AroundSeen(tables[i], Sub(q, i), radius / M, seen)
    ensures Scanned(codes, q, radius, out)
  {
    hide Dist, Sub, Pow2, BucketAt, IsCode;
    forall item | item in codes && Dist(codes[item], q) <= radius ensures item in seen {
      var i := Pigeonhole(codes[item], q, radius);
      SubIsWord(codes[item], i);
      DistSymmetric(Sub(codes[item], i), Sub(q, i));
      assert item in BucketAt(tables[i], Sub(codes[item], i));
    }
  }

  lemma SeenIndexed(codes: map<Id, nat>, q: nat, radius: nat, seen: set<Id>, out: seq<Hit>)
    requires Collected(codes, q, radius, seen, out)
    ensures seen <= codes.Keys
  {
    hide Dist;
  }

  lemma NothingCollected(codes: map<Id, nat>, q: nat, radius: nat)
    ensures Collected(codes, q, radius, {}, [])
  {
    hide Dist;
  }

  lemma StrayNotClean(tables: seq<Table>, codes: map<Id, nat>, q: nat, radius: nat, x: Id)
    requires Stray(tables, codes, q, radius, x)
    ensures !Clean(tables, codes)
  {
    hide BucketAt, Dist, Sub, Pow2;
    var i: nat, v: nat :| StrayAt(tables, q, radius, x, i, v);
  }

  lemma NoStray(tables: seq<Table>, codes: map<Id, nat>, q: nat, radius: nat, seen: set<Id>)
    requires |tables| == M && seen <= codes.Keys
    requires forall i: nat :: i < M ==> AroundSeen(tables[i], Sub(q, i), radius / M, seen)
    ensures forall x :: !Stray(tables, codes, q, radius, x)
  {
    hide BucketAt, Dist, Sub, Pow2;
    forall x: Id, i: nat, v: nat | StrayAt(tables, q, radius, x, i, v)
      ensures x in codes
    {
      assert AroundSeen(tables[i], Sub(q, i), radius / M, seen);
    }
  }

  class MultiIndexHash {
    var tables: seq<Table>
    var codes: map<Id, nat>
    var candidatesChecked: nat

    ghost predicate Valid()
      reads this
    {
      Covered(tables, codes) && forall item :: item in codes ==> IsCode(codes[item])
    }

    constructor ()
      ensures Valid() && Exact(tables, codes) && codes == map[]
    {
      tables, codes, candidatesChecked := [map[], map[], map[], map[]], map[], 0;
    }

    method Add(h: nat, item: Id)
      requires Valid() && IsCode(h)
      modifies this
      ensures Valid() && codes == old(codes)[item := h]
      ensures AllAdded(old(tables), tables, M, h, item)
      ensures old(Clean(tables, codes)) ==> Clean(tables, codes)
      ensures old(Exact(tables, codes)) ==> (Exact(tables, codes) <==> item !in old(codes))
    {
      hide Sub, BucketAt, Added, IsCode, Covered, Clean, Exact;
      Sizes();
      codes := codes[item := h];
      for i := 0 to M
        invariant AllAdded(old(tables), tables, i, h, item) && codes == old(codes)[item := h]
      {
        tables := tables[i := Added(tables[i], Sub(h, i), item)];
      }
      AddKeeps(old(tables), tables, old(codes), h, item);
      if old(Exact(tables, codes)) {
        AddExact(old(tables), tables, old(codes), h, item);
      }
    }

    lemma Sizes()
      requires Valid()
      ensures |tables| == M
    {}

    method Remove(h: nat, item: Id)
      requires Valid()
      modifies this
      ensures Valid() && codes == old(codes) - {item}
      ensures AllRemoved(old(tables), tables, M, h, item)
      ensures old(Exact(tables, codes)) ==>
                (Exact(tables, codes) <==> (item in old(codes) ==> SameSubs(old(codes)[item], h)))
      ensures old(Exact(tables, codes)) && IsCode(h) ==>
                (Exact(tables, codes) <==> (item in old(codes) ==> old(codes)[item] == h))
    {
      hide Sub, BucketAt, Removed, IsCode, Covered, Exact, SameSubs;
      Sizes();
      codes := codes - {item};
      for i := 0 to M
        invariant AllRemoved(old(tables), tables, i, h, item) && codes == old(codes) - {item}
      {
        tables := tables[i := Removed(tables[i], Sub(h, i), item)];
      }
      RemoveKeeps(old(tables), tables, old(codes), h, item);
      if old(Exact(tables, codes)) {
        RemoveExact(old(tables), tables, old(codes), h, item);
        if IsCode(h) && item in old(codes) {
          SubsTell(old(codes)[item], h);
        }
      }
    }

    /** The items of one bucket that were not seen yet; a removed item left there is a key error. */
    method ScanBucket(bucket: seq<Id>, q: nat, radius: nat, seen0: set<Id>, out0: seq<Hit>)
      returns (seen: set<Id>, out: seq<Hit>, missing: Option<Id>)
      requires Collected(codes, q, radius, seen0, out0)
      ensures missing.Some? ==> missing.value in bucket && missing.value !in codes
      ensures missing.None? ==> Collected(codes, q, radius, seen, out) && seen0 <= seen && forall x :: x in bucket ==>
                x in seen
    {
      hide Dist, Collected;
      seen, out := seen0, out0;
      for i := 0 to |bucket|
        invariant Collected(codes, q, radius, seen, out) && seen0 <= seen
        invariant forall j :: 0 <= j < i ==> bucket[j] in seen
      {
        var item := bucket[i];
        if item !in seen {
          if item !in codes {
            return seen, out, Some(item);
          }
          CollectedNext(codes, q, radius, seen, out, item);
          seen := seen + {item};
          var d := Dist(codes[item], q);
          if d <= radius {
            out := out + [Hit(item, d)];
          }
        }
      }
      missing := None;
    }

    method ScanTable(i: nat, q: nat, radius: nat, seen0: set<Id>, out0: seq<Hit>)
      returns (seen: set<Id>, out: seq<Hit>, missing: Option<Id>)
      requires Valid() && i < M && Collected(codes, q, radius, seen0, out0)
      ensures missing.Some? ==> Stray(tables, codes, q, radius, missing.value)
      ensures missing.None? ==> Collected(codes, q, radius, seen, out) && seen0 <= seen
      ensures missing.None? ==> |tables| == M && AroundSeen(tables[i], Sub(q, i), radius / M, seen)
    {
      hide Dist, Collected, Pow2, Sub, IsCode, BucketAt, Covered;
      Sizes();
      SubIsWord(q, i);
      var around := Neighbours(Sub(q, i), radius / M);
      seen, out, missing := seen0, out0, None;
      for j := 0 to |around|
        invariant Collected(codes, q, radius, seen, out) && seen0 <= seen
        invariant forall l, item :: 0 <= l < j && item in BucketAt(tables[i], around[l]) ==> item in seen
      {
        seen, out, missing := ScanBucket(BucketAt(tables[i], around[j]), q, radius, seen, out);
        if missing.Some? {
          assert around[j] in around;
          assert StrayAt(tables, q, radius, missing.value, i, around[j]);
          return;
        }
      }
      missing := None;
    }

    /** Either exactly what a scan over all codes finds, or a key error over an item that was removed but left
        behind. */
    method Search(q: nat, radius: nat) returns (r: Result<seq<Hit>, Id>)
      requires Valid() && IsCode(q)
      modifies this`candidatesChecked
      ensures r.Ok? ==> Scanned(codes, q, radius, r.value)
      ensures r.Err? <==> exists x :: Stray(tables, codes, q, radius, x)
      ensures r.Err? ==> Stray(tables, codes, q, radius, r.error)
      ensures Clean(tables, codes) ==> r.Ok?
    {
      hide Dist, Collected, Pow2, Sub, IsCode, BucketAt, Clean, Scanned, Covered, Stray;
      var seen: set<Id>, out: seq<Hit>, missing: Option<Id> := {}, [], None;
      Sizes();
      NothingCollected(codes, q, radius);
      for i := 0 to M
        invariant Collected(codes, q, radius, seen, out)
        invariant |tables| == M && forall l: nat :: l < i ==> AroundSeen(tables[l], Sub(q, l), radius / M, seen)
      {
        seen, out, missing := ScanTable(i, q, radius, seen, out);
        if missing.Some? {
          StrayNotClean(tables, codes, q, radius, missing.value);
          return Err(missing.value);
        }
      }
      CollectedAll(tables, codes, q, radius, seen, out);
      SeenIndexed(codes, q, radius, seen, out);
      NoStray(tables, codes, q, radius, seen);
      candidatesChecked := candidatesChecked + |seen|;
      return Ok(out);
    }
  }

  /** A search that fails: the item was added twice and removed once. */
  method SearchAfterTwoAdds(h: nat, item: Id, radius: nat) returns (r: Result<seq<Hit>, Id>)
    requires IsCode(h)
    ensures r.Err?
  {
    hide Stray, AllAdded, AllRemoved, IsCode, Exact, Clean;
    var index := new MultiIndexHash();
    ghost var t0 := index.tables;
    index.Add(h, item);
    ghost var t1 := index.tables;
    index.Add(h, item);
    ghost var t2, codes := index.tables, index.codes;
    index.Remove(h, item);
    TwiceAddedLingers(t0, t1, t2, index.tables, codes, h, item, radius);
    r := index.Search(h, radius);
  }

  /** And another one: the item was removed under another code than its own. */
  method SearchAfterOtherCode(h: nat, other: nat, item: Id, radius: nat) returns (r: Result<seq<Hit>, Id>)
    requires IsCode(h) && IsCode(other) && h != other
    ensures r.Err?
  {
    hide Stray, AllAdded, AllRemoved, IsCode, Exact, Clean, SameSubs, Covered;
    var index := new MultiIndexHash();
    index.Add(h, item);
    ghost var tables, codes := index.tables, index.codes;
    index.Remove(other, item);
    SubsTell(h, other);
    OtherCodeLingers(tables, index.tables, codes, other, item, radius);
    r := index.Search(h, radius);
  }
}
