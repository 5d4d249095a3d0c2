/** The systematic Cauchy Reed-Solomon codec: splitting, encoding, choosing survivors,
    reconstruction, and the round trip through any k surviving shards. */
module Codec {
  import opened Wrappers
  import opened GF256
  import opened LinearAlgebra
  import opened GaussJordan
  import opened Cauchy
  import Kernels = RegionKernels

  const SHARD_ALIGN := 64
  const CACHE_LIMIT := 512

  datatype CodecError = InvalidParameters | WrongShardCount | DataTooLong | NotEnoughShards

  // ---------------------------------------------------------------- layout

  function CeilDiv(a: nat, b: nat): nat
    requires b > 0
  {
    (a + b - 1) / b
  }

  function ShardSizeFor(k: nat, length: nat, maxShard: Option<nat>): nat
    requires k > 0
  {
    var raw := if length == 0 then SHARD_ALIGN else CeilDiv(length, k);
    var size := CeilDiv(raw, SHARD_ALIGN) * SHARD_ALIGN;
    if maxShard.Some? && maxShard.value < size then maxShard.value else size
  }

  lemma CeilDivCovers(a: nat, b: nat)
    requires b > 0
    ensures a <= CeilDiv(a, b) * b < a + b
  {
    var q := CeilDiv(a, b);
    assert a + b - 1 == q * b + (a + b - 1) % b;
  }

  /** A stripe's data fits its shards, with or without the cap. */
  lemma ShardSizeFits(k: nat, length: nat, maxShard: Option<nat>)
    requires k > 0 && (maxShard.Some? ==> length <= k * maxShard.value && maxShard.value > 0)
    ensures length <= k * ShardSizeFor(k, length, maxShard) && ShardSizeFor(k, length, maxShard) > 0
    ensures maxShard.None? ==> ShardSizeFor(k, length, maxShard) % SHARD_ALIGN == 0
  {
    var raw := if length == 0 then SHARD_ALIGN else CeilDiv(length, k);
    CeilDivCovers(length, k);
    CeilDivCovers(raw, SHARD_ALIGN);
    var size := CeilDiv(raw, SHARD_ALIGN) * SHARD_ALIGN;
    assert raw <= size;
    if length == 0 {
      assert k * 0 <= k * size;
    } else {
      assert CeilDiv(length, k) * k <= size * k by { MulLe(raw, size, k); }
    }
  }

  /** The shard size is the least positive multiple of 64 for which k shards hold the data, or the cap if that is
      smaller. */
  lemma ShardSizeLeast(k: nat, length: nat, maxShard: Option<nat>)
    requires k > 0
    ensures var free := ShardSizeFor(k, length, None);
            free > 0 && free % 64 == 0 && length <= k * free
            && (forall s: nat :: s > 0 && s % 64 == 0 && length <= k * s ==> free <= s)
            && ShardSizeFor(k, length, maxShard)
               == if maxShard.Some? && maxShard.value < free then maxShard.value else free
  {
    ShardSizeFits(k, length, None);
    var free := ShardSizeFor(k, length, None);
    forall s: nat | s > 0 && s % 64 == 0 && length <= k * s
      ensures free <= s
    {
      SmallerFits(k, length, s);
    }
  }

  /** A multiple of 64 that holds the data is at least the one chosen. */
  lemma SmallerFits(k: nat, length: nat, s: nat)
    requires k > 0 && s > 0 && s % 64 == 0 && length <= k * s
    ensures ShardSizeFor(k, length, None) <= s
  {
    var raw := if length == 0 then SHARD_ALIGN else CeilDiv(length, k);
    if length > 0 {
      CeilDivLeast(length, k, s);
    }
    hide CeilDiv;
    assert s == s / 64 * 64;
    CeilDivLeast(raw, SHARD_ALIGN, s / 64);
    MulLe(CeilDiv(raw, SHARD_ALIGN), s / 64, SHARD_ALIGN);
  }

  lemma CeilDivLeast(a: nat, b: nat, q: nat)
    requires b > 0 && a <= b * q
    ensures CeilDiv(a, b) <= q
  {
    CeilDivCovers(a, b);
    if CeilDiv(a, b) > q {
      MulLe(q + 1, CeilDiv(a, b), b);
    }
  }

  lemma MulLe(a: nat, b: nat, c: nat)
    requires a <= b
    ensures a * c <= b * c
  {}

  // ---------------------------------------------------------------- specification

  /** The i-th of the k consecutive pieces of a buffer. */
  function Piece(buf: Vec, k: nat, size: nat, i: nat): (r: Vec)
    requires |buf| == k * size && i < k
    ensures |r| == size
  {
    PieceBounds(i, k, size);
    buf[i * size..i * size + size]
  }

  lemma PieceBounds(i: nat, k: nat, size: nat)
    requires i < k
    ensures 0 <= i * size && i * size + size == (i + 1) * size <= k * size
  {
    MulLe(i + 1, k, size);
  }

  function Padded(data: Vec, length: nat): (r: Vec)
    requires |data| <= length
    ensures |r| == length && r[..|data|] == data
  {
    data + Zeros(length - |data|)
  }

  /** The data, zero-padded to k * size bytes, cut into k shards. */
  function Shards(data: Vec, k: nat, size: nat): (r: Matrix)
    requires |data| <= k * size
    ensures IsMatrix(r, k, size)
  {
    Pieces(Padded(data, k * size), k, size)
  }

  function Pieces(buf: Vec, k: nat, size: nat): (r: Matrix)
    requires |buf| == k * size
    ensures IsMatrix(r, k, size) && forall i :: 0 <= i < k ==> r[i] == Piece(buf, k, size, i)
  {
    seq(k, i requires 0 <= i < k => Piece(buf, k, size, i))
  }

  function Concat(m: Matrix, n: nat): (r: Vec)
    requires n <= |m|
  {
    if n == 0 then [] else Concat(m, n - 1) + m[n - 1]
  }

  lemma {:induction false} ConcatShards(data: Vec, k: nat, size: nat, n: nat)
    requires |data| <= k * size && n <= k
    ensures 0 <= n * size <= k * size
    ensures Concat(Shards(data, k, size), n) == Padded(data, k * size)[..n * size]
  {
    MulLe(n, k, size);
    if n != 0 {
      var buf := Padded(data, k * size);
      ConcatShards(data, k, size, n - 1);
      PieceBounds(n - 1, k, size);
      JoinSlices(buf, (n - 1) * size, n * size);
    }
  }

  lemma JoinSlices(buf: Vec, i: nat, j: nat)
    requires i <= j <= |buf|
    ensures buf[..i] + buf[i..j] == buf[..j]
  {}

  /** Joining the shards and cutting at the data length gives the data back. */
  lemma SplitRoundTrip(data: Vec, k: nat, size: nat)
    requires |data| <= k * size
    ensures |data| <= |Concat(Shards(data, k, size), k)|
    ensures Concat(Shards(data, k, size), k)[..|data|] == data
  {
    ConcatShards(data, k, size, k);
  }

  /** All k + m shards of a stripe. */
  ghost function Encoded(k: nat, m: nat, d: Matrix, size: nat): (r: Matrix)
    requires ValidParameters(k, m) && IsMatrix(d, k, size)
    ensures IsMatrix(r, k + m, size)
  {
    Product(EncodingMatrix(k, m), d, size)
  }

  /** The code is systematic: the first k shards are the data. */
  lemma Systematic(k: nat, m: nat, d: Matrix, size: nat, i: nat)
    requires ValidParameters(k, m) && IsMatrix(d, k, size) && i < k
    ensures Encoded(k, m, d, size)[i] == d[i]
  {
    assert EncodingMatrix(k, m)[i] == Unit(k, i);
    CombUnit(i, d, k, size);
  }

  /** With k = 1 every shard is the padded data: the mirror profile is replication. */
  lemma Replicas(m: nat, data: Vec, size: nat, i: nat)
    requires ValidParameters(1, m) && |data| <= 1 * size && i < 1 + m
    ensures Encoded(1, m, Shards(data, 1, size), size)[i] == Padded(data, size)
  {
    var d := Shards(data, 1, size);
    EncodingEntries(1, m, i, 0);
    var e := EncodingMatrix(1, m);
    assert e[i] == [1] == Unit(1, 0);
    CombUnit(0, d, 1, size);
    assert Piece(Padded(data, size), 1, size, 0) == Padded(data, size);
    hide EncodingMatrix;
  }

  lemma JoinParity(k: nat, m: nat, d: Matrix, size: nat)
    requires ValidParameters(k, m) && IsMatrix(d, k, size)
    ensures d + Encoded(k, m, d, size)[k..] == Encoded(k, m, d, size)
  {
    hide EncodingMatrix, Encoded;
    forall i: nat | i < k
      ensures Encoded(k, m, d, size)[i] == d[i]
    {
      Systematic(k, m, d, size, i);
    }
  }

  lemma RowsProduct(e: Matrix, present: seq<nat>, d: Matrix, size: nat)
    requires IsMatrix(e, |e|, |d|) && IsMatrix(d, |d|, size)
    requires forall i :: 0 <= i < |present| ==> present[i] < |e|
    ensures Product(Rows(e, present), d, size) == Rows(Product(e, d, size), present)
  {}

  ghost predicate IsInverse(inv: Matrix, a: Matrix, n: nat) {
    IsMatrix(inv, n, n) && IsMatrix(a, n, n)
    && Product(inv, a, n) == Identity(n) && Product(a, inv, n) == Identity(n)
  }

  /** Equal-length shards, indexed by row number. */
  ghost predicate ShardMap(shards: map<nat, Vec>, k: nat, m: nat, size: nat) {
    forall i :: i in shards ==> i < k + m && |shards[i]| == size
  }

  function Gather(shards: map<nat, Vec>, present: seq<nat>): (r: Matrix)
    requires forall i :: 0 <= i < |present| ==> present[i] in shards
    ensures |r| == |present| && forall i :: 0 <= i < |present| ==> r[i] == shards[present[i]]
  {
    seq(|present|, i requires 0 <= i < |present| => shards[present[i]])
  }

  /** d explains the surviving shards: encoding d gives exactly the ones chosen. */
  ghost predicate Explains(d: Matrix, shards: map<nat, Vec>, present: seq<nat>, k: nat, m: nat, size: nat) {
    Survivors(present, k, m) && IsMatrix(d, k, size)
    && (forall i :: 0 <= i < k ==> present[i] in shards)
    && Rows(Encoded(k, m, d, size), present) == Gather(shards, present)
  }

  // ---------------------------------------------------------------- uniqueness

  function Column(d: Matrix, w: nat, j: nat): (r: Vec)
    requires IsMatrix(d, |d|, w) && j < w
    ensures |r| == |d| && forall i :: 0 <= i < |d| ==> r[i] == d[i][j]
  {
    seq(|d|, i requires 0 <= i < |d| => d[i][j])
  }

  lemma {:induction false} CombColumn(q: Vec, d: Matrix, n: nat, w: nat, j: nat)
    requires n <= |q| && n <= |d| && IsMatrix(d, |d|, w) && j < w
    ensures Comb(q, d, n, w)[j] == Dot(q, Column(d, w, j), n)
  {
    hide Add, Mul;
    if n != 0 {
      CombColumn(q, d, n - 1, w, j);
    }
  }

  lemma {:induction false} DotAddRight(q: Vec, a: Vec, b: Vec, n: nat)
    requires n <= |q| && n <= |a| && |a| == |b|
    ensures Dot(q, VAdd(a, b), n) == Add(Dot(q, a, n), Dot(q, b, n))
  {
    hide Add, Mul;
    if n == 0 {
      AddZero(0);
    } else {
      DotAddRight(q, a, b, n - 1);
      MulAdd(q[n - 1], a[n - 1], b[n - 1]);
      AddShuffle(Dot(q, a, n - 1), Dot(q, b, n - 1), Mul(q[n - 1], a[n - 1]), Mul(q[n - 1], b[n - 1]));
    }
  }

  /** Two data matrices that give the same k surviving shards agree in every column. */
  lemma SameSurvivorsSameColumn(d: Matrix, e: Matrix, present: seq<nat>, k: nat, m: nat, size: nat, j: nat)
    requires Survivors(present, k, m) && IsMatrix(d, k, size) && IsMatrix(e, k, size) && j < size
    requires Rows(Encoded(k, m, d, size), present) == Rows(Encoded(k, m, e, size), present)
    ensures Column(d, size, j) == Column(e, size, j)
  {
    hide Add, Mul;
    var a, b := Column(d, size, j), Column(e, size, j);
    var v := VAdd(a, b);
    var sub := Rows(EncodingMatrix(k, m), present);
    forall p: nat | p < k
      ensures Dot(sub[p], v, k) == 0
    {
      CombColumn(sub[p], d, k, size, j);
      CombColumn(sub[p], e, k, size, j);
      assert Rows(Encoded(k, m, d, size), present)[p] == Comb(sub[p], d, k, size);
      assert Rows(Encoded(k, m, e, size), present)[p] == Comb(sub[p], e, k, size);
      DotAddRight(sub[p], a, b, k);
      AddSelf(Dot(sub[p], a, k));
    }
    SurvivorsHaveNoKernel(k, m, present, v);
    forall i: nat | i < k
      ensures a[i] == b[i]
    {
      assert v[i] == 0;
      AddIsZero(a[i], b[i]);
    }
  }

  /** At most one data matrix explains k survivors. */
  lemma ExplainsUnique(d: Matrix, e: Matrix, shards: map<nat, Vec>, present: seq<nat>, k: nat, m: nat, size: nat)
    requires Explains(d, shards, present, k, m, size) && Explains(e, shards, present, k, m, size)
    ensures d == e
  {
    forall i: nat, j: nat | i < k && j < size
      ensures d[i][j] == e[i][j]
    {
      SameSurvivorsSameColumn(d, e, present, k, m, size, j);
      assert Column(d, size, j)[i] == Column(e, size, j)[i];
    }
    forall i: nat | i < k
      ensures d[i] == e[i]
    {}
  }

  /** The shards are those of the stripe that holds data. */
  ghost predicate FromStripe(shards: map<nat, Vec>, data: Vec, k: nat, m: nat, size: nat) {
    ValidParameters(k, m) && |data| <= k * size
    && forall i :: i in shards ==> IsShard(shards[i], i, data, k, m, size)
  }

  /** v is shard i of the stripe that holds data. */
  ghost predicate IsShard(v: Vec, i: nat, data: Vec, k: nat, m: nat, size: nat) {
    ValidParameters(k, m) && |data| <= k * size && i < k + m
    && v == Encoded(k, m, Shards(data, k, size), size)[i]
  }

  /** Whatever explains k shards of a stripe is that stripe's data. */
  lemma StripeRecovered(d: Matrix, shards: map<nat, Vec>, data: Vec, present: seq<nat>, k: nat, m: nat, size: nat)
    requires Explains(d, shards, present, k, m, size) && FromStripe(shards, data, k, m, size)
    ensures d == Shards(data, k, size)
  {
    var e := Shards(data, k, size);
    forall i: nat | i < k
      ensures Rows(Encoded(k, m, e, size), present)[i] == shards[present[i]]
    {
      assert IsShard(shards[present[i]], present[i], data, k, m, size);
    }
    assert Rows(Encoded(k, m, e, size), present) == Gather(shards, present);
    ExplainsUnique(d, e, shards, present, k, m, size);
  }

  /** The inverse applied to the survivors explains them. */
  lemma InverseExplains(shards: map<nat, Vec>, present: seq<nat>, k: nat, m: nat, size: nat, inv: Matrix)
    requires Survivors(present, k, m) && ShardMap(shards, k, m, size)
    requires forall i :: 0 <= i < k ==> present[i] in shards
    requires IsInverse(inv, Rows(EncodingMatrix(k, m), present), k)
    ensures Explains(Product(inv, Gather(shards, present), size), shards, present, k, m, size)
  {
    var sub, g := Rows(EncodingMatrix(k, m), present), Gather(shards, present);
    var d := Product(inv, g, size);
    RowsProduct(EncodingMatrix(k, m), present, d, size);
    ProductAssoc(sub, inv, g, size);
    IdentityProduct(g, k, size);
  }

  // ---------------------------------------------------------------- survivors

  ghost predicate Increasing(s: seq<nat>) {
    forall i, j :: 0 <= i < j < |s| ==> s[i] < s[j]
  }

  lemma IncreasingSnoc(s: seq<nat>, x: nat)
    requires Increasing(s) && forall y :: y in s ==> y < x
    ensures Increasing(s + [x])
  {
    forall i | 0 <= i < |s|
      ensures s[i] < x
    {
      assert s[i] in s;
    }
  }

  /** The members of s below n in ascending order. */
  function Ascending(s: set<nat>, n: nat): (r: seq<nat>)
    ensures Increasing(r)
    ensures forall x :: x in r <==> x in s && x < n
  {
    if n == 0 then []
    else
      IncreasingSnoc(Ascending(s, n - 1), n - 1);
      Ascending(s, n - 1) + (if n - 1 in s then [n - 1] else [])
  }

  lemma {:induction false} AscendingSize(s: set<nat>, n: nat)
    requires forall x :: x in s ==> x < n
    ensures |Ascending(s, n)| == |s|
  {
    if n == 0 {
      assert s == {};
    } else {
      AscendingSize(s - {n - 1}, n - 1);
      AscendingSame(s, s - {n - 1}, n - 1);
      if n - 1 in s {
        assert s == (s - {n - 1}) + {n - 1};
      } else {
        assert s - {n - 1} == s;
      }
    }
  }

  lemma {:induction false} AscendingSame(s: set<nat>, t: set<nat>, n: nat)
    requires forall x :: x < n ==> (x in s <==> x in t)
    ensures Ascending(s, n) == Ascending(t, n)
  {
    if n != 0 {
      AscendingSame(s, t, n - 1);
    }
  }

  /** The members below k, or the others, in the given order. */
  function Filter(s: seq<nat>, k: nat, below: bool): (r: seq<nat>)
    ensures forall x :: x in r <==> x in s && (x < k <==> below)
  {
    if s == [] then []
    else
      var last, rest := s[|s| - 1], s[..|s| - 1];
      assert s == rest + [last];
      Filter(rest, k, below) + (if (last < k) == below then [last] else [])
  }

  lemma {:induction false} FilterIncreasing(s: seq<nat>, k: nat, below: bool)
    requires Increasing(s)
    ensures Increasing(Filter(s, k, below))
  {
    if s != [] {
      var last, rest := s[|s| - 1], s[..|s| - 1];
      FilterIncreasing(rest, k, below);
      IncreasingSnoc(Filter(rest, k, below), last);
    }
  }

  lemma {:induction false} FilterSizes(s: seq<nat>, k: nat)
    ensures |Filter(s, k, true)| + |Filter(s, k, false)| == |s|
  {
    if s != [] {
      FilterSizes(s[..|s| - 1], k);
    }
  }

  /** k survivor indices, data shards first; None when fewer than k are available. */
  function ChooseSurvivors(available: set<nat>, k: nat, n: nat): Option<seq<nat>> {
    var avail := Ascending(available, n);
    if |avail| < k then None
    else
      FilterSizes(avail, k);
      Some((Filter(avail, k, true) + Filter(avail, k, false))[..k])
  }

  lemma ChosenSurvivors(available: set<nat>, k: nat, m: nat)
    requires ValidParameters(k, m) && forall x :: x in available ==> x < k + m
    ensures ChooseSurvivors(available, k, k + m).None? <==> |available| < k
    ensures |available| >= k ==>
              var present := ChooseSurvivors(available, k, k + m).value;
              && Survivors(present, k, m)
              && (forall i :: 0 <= i < k ==> present[i] in available)
              && (forall x :: x in available && x < k ==> x in present)
  {
    hide Ascending, Filter, Survivors;
    var avail := Ascending(available, k + m);
    AscendingSize(available, k + m);
    if |avail| >= k {
      FilterSizes(avail, k);
      FilterIncreasing(avail, k, true);
      FilterIncreasing(avail, k, false);
      var data, parity := Filter(avail, k, true), Filter(avail, k, false);
      DataFits(data, k);
      ChosenPrefix(available, data, parity, k, m);
    }
  }

  lemma ChosenPrefix(available: set<nat>, data: seq<nat>, parity: seq<nat>, k: nat, m: nat)
    requires ValidParameters(k, m) && forall x :: x in available ==> x < k + m
    requires Increasing(data) && Increasing(parity) && |data| <= k <= |data| + |parity|
    requires forall x :: x in data <==> x in available && x < k
    requires forall x :: x in parity <==> x in available && x >= k
    ensures var present := (data + parity)[..k];
            Survivors(present, k, m)
            && (forall i :: 0 <= i < k ==> present[i] in available)
            && (forall x :: x in available && x < k ==> x in present)
  {
    var all := data + parity;
    var present := all[..k];
    forall i | 0 <= i < |all|
      ensures all[i] in available && (all[i] < k <==> i < |data|)
    {
      assert if i < |data| then all[i] in data else all[i] in parity;
    }
    forall x | x in available && x < k
      ensures x in present
    {
      var i: nat :| i < |data| && data[i] == x;
      assert present[i] == x;
    }
  }

  /** Strictly ascending numbers below k are at most k many. */
  lemma {:induction false} DataFits(s: seq<nat>, k: nat)
    requires Increasing(s) && forall x :: x in s ==> x < k
    ensures |s| <= k
    decreases |s|
  {
    if s != [] {
      var last, rest := s[|s| - 1], s[..|s| - 1];
      assert last in s;
      DataFits(rest, last);
    }
  }

  // ---------------------------------------------------------------- inverse cache

  ghost predicate NoRepeats(s: seq<seq<nat>>) {
    forall i, j :: 0 <= i < j < |s| ==> s[i] != s[j]
  }

  lemma NoRepeatsSnoc(s: seq<seq<nat>>, x: seq<nat>)
    requires NoRepeats(s) && x !in s
    ensures NoRepeats(s + [x])
  {
    forall i | 0 <= i < |s|
      ensures s[i] != x
    {
      assert s[i] in s;
    }
  }

  function Without(s: seq<seq<nat>>, x: seq<nat>): (r: seq<seq<nat>>)
    ensures forall y :: y in r <==> y in s && y != x
    ensures |r| <= |s| && (x !in s ==> r == s) && (x in s ==> |r| < |s|)
  {
    if s == [] then []
    else
      var last, rest := s[|s| - 1], s[..|s| - 1];
      assert s == rest + [last];
      Without(rest, x) + (if last == x then [] else [last])
  }

  lemma {:induction false} WithoutNoRepeats(s: seq<seq<nat>>, x: seq<nat>)
    requires NoRepeats(s)
    ensures NoRepeats(Without(s, x))
  {
    if s != [] {
      var last, rest := s[|s| - 1], s[..|s| - 1];
      WithoutNoRepeats(rest, x);
      if last != x {
        NoRepeatsSnoc(Without(rest, x), last);
      }
    }
  }

  /** Using key makes it the most recent; beyond the limit the oldest one goes. */
  function Touched(recency: seq<seq<nat>>, key: seq<nat>): seq<seq<nat>> {
    var r := Without(recency, key) + [key];
    if |r| > CACHE_LIMIT then r[1..] else r
  }

  ghost predicate CacheOk(cache: map<seq<nat>, Matrix>, recency: seq<seq<nat>>, k: nat, m: nat) {
    ValidParameters(k, m) && NoRepeats(recency)
    && (forall p :: p in recency <==> p in cache)
    && (forall p :: p in cache ==> Survivors(p, k, m) && IsInverse(cache[p], Rows(EncodingMatrix(k, m), p), k))
  }

  lemma TouchedHit(cache: map<seq<nat>, Matrix>, recency: seq<seq<nat>>, k: nat, m: nat, key: seq<nat>)
    requires CacheOk(cache, recency, k, m) && key in cache
    ensures CacheOk(cache, Without(recency, key) + [key], k, m)
  {
    WithoutNoRepeats(recency, key);
    NoRepeatsSnoc(Without(recency, key), key);
  }

  lemma InsertKept(cache: map<seq<nat>, Matrix>, recency: seq<seq<nat>>, k: nat, m: nat, key: seq<nat>, inv: Matrix)
    requires CacheOk(cache, recency, k, m) && key !in cache
    requires Survivors(key, k, m) && IsInverse(inv, Rows(EncodingMatrix(k, m), key), k)
    ensures key !in recency && CacheOk(cache[key := inv], recency + [key], k, m)
  {
    hide IsInverse, Survivors;
    assert key !in recency;
    NoRepeatsSnoc(recency, key);
  }

  lemma EvictKept(cache: map<seq<nat>, Matrix>, r: seq<seq<nat>>, k: nat, m: nat)
    requires CacheOk(cache, r, k, m) && r != []
    ensures CacheOk(cache - {r[0]}, r[1..], k, m)
  {
    hide IsInverse, Survivors;
    assert r == [r[0]] + r[1..];
    forall p | p in r[1..]
      ensures p != r[0]
    {
      var i :| 0 <= i < |r[1..]| && r[1..][i] == p;
      assert r[i + 1] == p;
    }
  }

  // ---------------------------------------------------------------- the codec object

  class ReedSolomon {
    const k: nat
    const m: nat
    const matrix: Matrix
    const backend: Kernels.Backend
    var cache: map<seq<nat>, Matrix>
    var recency: seq<seq<nat>>

    ghost predicate Valid()
      reads this
    {
      ValidParameters(k, m) && matrix == EncodingMatrix(k, m)
      && CacheOk(cache, recency, k, m) && |recency| <= CACHE_LIMIT
    }

    constructor (k: nat, m: nat, backend: Kernels.Backend)
      requires ValidParameters(k, m)
      ensures Valid() && this.k == k && this.m == m && cache == map[]
    {
      this.k, this.m, this.backend := k, m, backend;
      matrix := EncodingMatrix(k, m);
      cache, recency := map[], [];
    }

    /** Construction refuses invalid parameters. */
    static method Create(k: int, m: int, backend: Kernels.Backend) returns (r: Result<ReedSolomon, CodecError>)
      ensures r.Ok? <==> ValidParameters(k, m)
      ensures r.Err? ==> r.error == InvalidParameters
      ensures r.Ok? ==> fresh(r.value) && r.value.Valid() && r.value.k == k && r.value.m == m
    {
      if k < 1 || m < 0 || k + m > 256 {
        return Err(InvalidParameters);
      }
      var rs := new ReedSolomon(k, m, backend);
      return Ok(rs);
    }

    /** Fill a zeroed buffer with the data and cut it into k shards. */
    method Split(data: Vec, size: nat) returns (r: Result<Matrix, CodecError>)
      requires Valid()
      ensures r == if |data| <= k * size then Ok(Shards(data, k, size)) else Err(DataTooLong)
    {
      if |data| > k * size {
        return Err(DataTooLong);
      }
      var buf := new Byte[k * size](_ => 0);
      for i := 0 to |data|
        invariant forall j :: 0 <= j < i ==> buf[j] == data[j]
        invariant forall j :: i <= j < k * size ==> buf[j] == 0
      {
        buf[i] := data[i];
      }
      assert buf[..] == Padded(data, k * size);
      return Ok(Pieces(buf[..], k, size));
    }

    /** The m parity shards of k equally long data shards. */
    method Encode(data: Matrix, size: nat) returns (r: Result<Matrix, CodecError>)
      requires Valid() && IsMatrix(data, |data|, size)
      ensures r.Ok? <==> |data| == k
      ensures r.Err? ==> r.error == WrongShardCount
      ensures r.Ok? ==> r.value == Encoded(k, m, data, size)[k..]
    {
      if |data| != k {
        return Err(WrongShardCount);
      }
      if m == 0 {
        return Ok([]);
      }
      var parity := Kernels.MatMul(backend, matrix[k..], data, size);
      return Ok(parity);
    }

    /** Split and encode: all k + m shards of a stripe. */
    method EncodeBytes(data: Vec, shardSize: nat) returns (r: Result<Matrix, CodecError>)
      requires Valid()
      ensures var size := if shardSize == 0 then ShardSizeFor(k, |data|, None) else shardSize;
              && (r.Ok? <==> |data| <= k * size)
              && (r.Err? ==> r.error == DataTooLong)
              && (r.Ok? ==> r.value == Encoded(k, m, Shards(data, k, size), size))
    {
      hide EncodingMatrix, Encoded, ShardSizeFor, Shards;
      var size := if shardSize == 0 then ShardSizeFor(k, |data|, None) else shardSize;
      var split := Split(data, size);
      if split.Err? {
        return Err(split.error);
      }
      var d := split.value;
      var parity := Encode(d, size);
      JoinParity(k, m, d, size);
      return Ok(d + parity.value);
    }

    /** The inverse of the survivor rows, through the bounded cache. */
    method DecodeMatrix(present: seq<nat>) returns (inv: Matrix)
      requires Valid() && Survivors(present, k, m)
      modifies this`cache, this`recency
      ensures Valid() && IsInverse(inv, Rows(matrix, present), k)
      ensures recency == Touched(old(recency), present)
      ensures forall p :: p in cache ==> cache[p] == (if p in old(cache) then old(cache)[p] else inv)
    {
      hide IsInverse, EncodingMatrix;
      if present in cache {
        inv := cache[present];
        TouchedHit(cache, recency, k, m, present);
        recency := Without(recency, present) + [present];
        return;
      }
      inv := InvertSurvivors(present);
      InsertKept(cache, recency, k, m, present, inv);
      cache := cache[present := inv];
      recency := recency + [present];
      if |recency| > CACHE_LIMIT {
        EvictKept(cache, recency, k, m);
        cache := cache - {recency[0]};
        recency := recency[1..];
      }
    }

    /** Inversion never fails on survivor rows. */
    method InvertSurvivors(present: seq<nat>) returns (inv: Matrix)
      requires Valid() && Survivors(present, k, m)
      ensures IsInverse(inv, Rows(matrix, present), k)
    {
      SurvivorsInvertible(k, m, present);
      var r := Invert(Rows(matrix, present));
      inv := r.inv;
    }
  
    /** The data shards behind at least k surviving shards. */
    method ReconstructData(shards: map<nat, Vec>, size: nat) returns (r: Result<Matrix, CodecError>)
      requires Valid() && ShardMap(shards, k, m, size)
      modifies this`cache, this`recency
      ensures Valid()
      ensures r.Ok? <==> |shards| >= k
      ensures r.Err? ==> r.error == NotEnoughShards
      ensures r.Ok? ==> ChooseSurvivors(shards.Keys, k, k + m).Some?
      ensures r.Ok? ==> Explains(r.value, shards, ChooseSurvivors(shards.Keys, k, k + m).value, k, m, size)
    {
      hide IsInverse, EncodingMatrix, Survivors, Explains, ChooseSurvivors, Lost;
      ChosenSurvivors(shards.Keys, k, m);
      assert |shards.Keys| == |shards|;
      var chosen := ChooseSurvivors(shards.Keys, k, k + m);
      if chosen.None? {
        return Err(NotEnoughShards);
      }
      var present := chosen.value;
      assert |present| == k by { SurvivorCount(present, k, m); }
      if present == seq(k, i => i) {
        DataRowsExplain(shards, present, k, m, size);
        return Ok(Gather(shards, present));
      }
      var inv := DecodeMatrix(present);
      assert IsMatrix(inv, k, k) by { InverseShape(inv, Rows(matrix, present), k); }
      InverseExplains(shards, present, k, m, size, inv);
      var data := RecoverMissing(shards, present, inv, size);
      return Ok(data);
    }

    method RecoverMissing(shards: map<nat, Vec>, present: seq<nat>, inv: Matrix, size: nat) returns (data: Matrix)
      requires IsMatrix(inv, k, k) && |present| == k && ShardMap(shards, k, m, size)
      requires forall i :: 0 <= i < k ==> present[i] in shards
      requires Explains(Product(inv, Gather(shards, present), size), shards, present, k, m, size)
      ensures data == Product(inv, Gather(shards, present), size)
    {
      hide Explains;
      ghost var full := Product(inv, Gather(shards, present), size);
      var missing := Lost(present, k);
      var recovered := Kernels.MatMul(backend, Rows(inv, missing), Gather(shards, present), size);
      assert recovered == Rows(full, missing);
      data := Merge(shards, present, missing, recovered, full, size);
    }

    /** Present data shards as they are, recovered ones in place of the lost. */
    method Merge(shards: map<nat, Vec>, present: seq<nat>, missing: seq<nat>, recovered: Matrix,
                 ghost full: Matrix, ghost size: nat) returns (data: Matrix)
      requires Explains(full, shards, present, k, m, size)
      requires missing == Lost(present, k) && recovered == Rows(full, missing)
      ensures data == full
    {
      hide Explains, Lost;
      assert |full| == k && |present| == k by { ExplainsShape(full, shards, present, k, m, size); }
      data := [];
      var j := 0;
      assert |Lost(present, 0)| == 0 by { NothingLost(present); }
      for i := 0 to k
        invariant j == |Lost(present, i)|
        invariant data == full[..i]
      {
        LostNext(present, i, k);
        if i in present {
          PresentRow(full, shards, present, k, m, size, i);
          data := data + [shards[i]];
        } else {
          data := data + [recovered[j]];
          j := j + 1;
        }
      }
    }

    /** Rebuild the wanted shards (by default every missing one), data or parity. */
    method Reconstruct(shards: map<nat, Vec>, wanted: Option<seq<nat>>, size: nat)
      returns (r: Result<map<nat, Vec>, CodecError>)
      requires Valid() && ShardMap(shards, k, m, size)
      requires wanted.Some? ==> forall i :: i in wanted.value ==> i < k + m
      modifies this`cache, this`recency
      ensures Valid()
      ensures r.Err? <==> |shards| < k && exists i :: Requested(i, wanted, k + m) && i !in shards
      ensures r.Err? ==> r.error == NotEnoughShards
      ensures r.Ok? ==> forall i :: i in r.value <==> Requested(i, wanted, k + m) && i !in shards
      ensures r.Ok? ==> forall data: Vec :: FromStripe(shards, data, k, m, size) ==>
                          FromStripe(r.value, data, k, m, size)
    {
      hide EncodingMatrix, Survivors, Explains, FromStripe, Requested, ChooseSurvivors;
      var rebuild := Missing(shards, wanted);
      if rebuild == [] {
        NothingFromStripe(shards, k, m, size);
        return Ok(map[]);
      }
      assert rebuild[0] in rebuild;
      var data := ReconstructData(shards, size);
      if data.Err? {
        return Err(data.error);
      }
      ghost var present := ChooseSurvivors(shards.Keys, k, k + m).value;
      assert IsMatrix(data.value, k, size) by { ExplainsMatrix(data.value, shards, present, k, m, size); }
      var result := RebuildRows(rebuild, data.value, size);
      forall stripe: Vec | FromStripe(shards, stripe, k, m, size)
        ensures FromStripe(result, stripe, k, m, size)
      {
        StripeRecovered(data.value, shards, stripe, present, k, m, size);
        EncodedFromStripe(result, data.value, shards, stripe, k, m, size);
      }
      return Ok(result);
    }

    /** The requested row numbers that have no shard yet. */
    method Missing(shards: map<nat, Vec>, wanted: Option<seq<nat>>) returns (rebuild: seq<nat>)
      requires wanted.Some? ==> forall i :: i in wanted.value ==> i < k + m
      ensures forall i :: i in rebuild <==> Requested(i, wanted, k + m) && i !in shards
      ensures forall i :: i in rebuild ==> i < k + m
    {
      var list := if wanted.Some? then wanted.value else seq(k + m, i => i);
      RequestedList(list, wanted, k + m);
      rebuild := [];
      for j := 0 to |list|
        invariant forall i :: i in rebuild <==> i in list[..j] && i !in shards
      {
        if list[j] !in shards {
          rebuild := rebuild + [list[j]];
        }
      }
      assert list[..|list|] == list;
    }

    /** Wanted data rows are copied, wanted parity rows are one more product. */
    method RebuildRows(rebuild: seq<nat>, data: Matrix, size: nat) returns (result: map<nat, Vec>)
      requires Valid() && IsMatrix(data, k, size)
      requires forall i :: i in rebuild ==> i < k + m
      ensures forall i :: i in result <==> i in rebuild
      ensures forall i :: i in result ==> result[i] == Encoded(k, m, data, size)[i]
    {
      hide EncodingMatrix, Encoded;
      var parity;
      result, parity := CopyDataRows(rebuild, data, size);
      assert forall p :: 0 <= p < |parity| ==> parity[p] in parity;
      var rows := ParityRows(parity, data, size);
      for p := 0 to |parity|
        invariant forall i :: i in result <==> i in rebuild && (i < k || i in parity[..p])
        invariant forall i :: i in result ==> result[i] == Encoded(k, m, data, size)[i]
      {
        result := result[parity[p] := rows[p]];
      }
      assert parity[..|parity|] == parity;
    }

    method CopyDataRows(rebuild: seq<nat>, data: Matrix, size: nat) returns (result: map<nat, Vec>, parity: seq<nat>)
      requires Valid() && IsMatrix(data, k, size)
      requires forall i :: i in rebuild ==> i < k + m
      ensures forall i :: i in result <==> i in rebuild && i < k
      ensures forall i :: i in parity <==> i in rebuild && i >= k
      ensures forall i :: i in result ==> result[i] == Encoded(k, m, data, size)[i]
    {
      hide EncodingMatrix, Encoded;
      result, parity := map[], [];
      for j := 0 to |rebuild|
        invariant forall i :: i in result <==> i in rebuild[..j] && i < k
        invariant forall i :: i in parity <==> i in rebuild[..j] && i >= k
        invariant forall i :: i in result ==> result[i] == Encoded(k, m, data, size)[i]
      {
        var i := rebuild[j];
        if i < k {
          Systematic(k, m, data, size, i);
          result := result[i := data[i]];
        } else {
          parity := parity + [i];
        }
      }
      assert rebuild[..|rebuild|] == rebuild;
    }

    method ParityRows(parity: seq<nat>, data: Matrix, size: nat) returns (rows: Matrix)
      requires Valid() && IsMatrix(data, k, size)
      requires forall p :: 0 <= p < |parity| ==> parity[p] < k + m
      ensures |rows| == |parity| && forall p :: 0 <= p < |parity| ==> rows[p] == Encoded(k, m, data, size)[parity[p]]
    {
      hide EncodingMatrix;
      rows := Kernels.MatMul(backend, Rows(matrix, parity), data, size);
    }

    /** Decode the data of a stripe from its surviving shards. */
    method DecodeBytes(shards: map<nat, Vec>, length: nat, size: nat) returns (r: Result<Vec, CodecError>)
      requires Valid() && ShardMap(shards, k, m, size)
      modifies this`cache, this`recency
      ensures Valid()
      ensures r.Ok? <==> |shards| >= k
      ensures r.Err? ==> r.error == NotEnoughShards
      ensures r.Ok? ==> forall data: Vec :: FromStripe(shards, data, k, m, size) && |data| == length ==> r.value == data
    {
      hide EncodingMatrix, Survivors, Explains, FromStripe;
      var data := ReconstructData(shards, size);
      if data.Err? {
        return Err(data.error);
      }
      ghost var present := ChooseSurvivors(shards.Keys, k, k + m).value;
      assert IsMatrix(data.value, k, size) by { ExplainsMatrix(data.value, shards, present, k, m, size); }
      var joined := Concat(data.value, k);
      forall stripe: Vec | FromStripe(shards, stripe, k, m, size)
        ensures |stripe| <= |joined| && joined[..|stripe|] == stripe
      {
        StripeRecovered(data.value, shards, stripe, present, k, m, size);
        StripeFits(shards, stripe, k, m, size);
        SplitRoundTrip(stripe, k, size);
      }
      return Ok(if length < |joined| then joined[..length] else joined);
    }
  }

  /** Some of the shards of a stripe. */
  ghost function Kept(data: Vec, k: nat, m: nat, size: nat, kept: set<nat>): map<nat, Vec>
    requires ValidParameters(k, m) && |data| <= k * size && forall i :: i in kept ==> i < k + m
  {
    map i | i in kept :: Encoded(k, m, Shards(data, k, size), size)[i]
  }

  /** Whichever k or more shards of an encoded stripe are kept, only the stripe's own data explains them, and joined
      and cut to length it is what was encoded. */
  lemma AnySurvivors(data: Vec, k: nat, m: nat, size: nat, kept: set<nat>, d: Matrix)
    requires ValidParameters(k, m) && |data| <= k * size && (forall i :: i in kept ==> i < k + m) && |kept| >= k
    ensures ShardMap(Kept(data, k, m, size, kept), k, m, size)
            && FromStripe(Kept(data, k, m, size, kept), data, k, m, size)
    ensures ChooseSurvivors(kept, k, k + m).Some?
    ensures Explains(d, Kept(data, k, m, size, kept), ChooseSurvivors(kept, k, k + m).value, k, m, size) ==>
              |Concat(d, k)| >= |data| && Concat(d, k)[..|data|] == data
  {
    hide Concat, Encoded, Shards, Explains;
    var shards := Kept(data, k, m, size, kept);
    ChosenSurvivors(kept, k, m);
    if Explains(d, shards, ChooseSurvivors(kept, k, k + m).value, k, m, size) {
      StripeRecovered(d, shards, data, ChooseSurvivors(kept, k, k + m).value, k, m, size);
      SplitRoundTrip(data, k, size);
    }
  }

  lemma NothingFromStripe(shards: map<nat, Vec>, k: nat, m: nat, size: nat)
    ensures forall data: Vec :: FromStripe(shards, data, k, m, size) ==> FromStripe(map[], data, k, m, size)
  {}

  lemma EncodedFromStripe(result: map<nat, Vec>, d: Matrix, shards: map<nat, Vec>, data: Vec, k: nat, m: nat, size: nat)
    requires FromStripe(shards, data, k, m, size) && d == Shards(data, k, size)
    requires forall i :: i in result ==> i < k + m && result[i] == Encoded(k, m, d, size)[i]
    ensures FromStripe(result, data, k, m, size)
  {}

  /** A row number the caller asked for; by default all of them. */
  ghost predicate Requested(i: nat, wanted: Option<seq<nat>>, n: nat) {
    if wanted.Some? then i in wanted.value else i < n
  }

  lemma RequestedList(list: seq<nat>, wanted: Option<seq<nat>>, n: nat)
    requires list == if wanted.Some? then wanted.value else seq(n, i => i)
    ensures forall i: nat :: i in list <==> Requested(i, wanted, n)
  {
    if wanted.None? {
      forall i: nat | i < n
        ensures i in list
      {
        assert list[i] == i;
      }
    }
  }

  lemma ExplainsMatrix(d: Matrix, shards: map<nat, Vec>, present: seq<nat>, k: nat, m: nat, size: nat)
    requires Explains(d, shards, present, k, m, size)
    ensures IsMatrix(d, k, size)
  {}

  lemma StripeFits(shards: map<nat, Vec>, data: Vec, k: nat, m: nat, size: nat)
    requires FromStripe(shards, data, k, m, size)
    ensures ValidParameters(k, m) && |data| <= k * size
  {}

  lemma NothingLost(present: seq<nat>)
    ensures Lost(present, 0) == []
  {}

  lemma SurvivorCount(present: seq<nat>, k: nat, m: nat)
    requires Survivors(present, k, m)
    ensures |present| == k
  {}

  lemma InverseShape(inv: Matrix, a: Matrix, k: nat)
    requires IsInverse(inv, a, k)
    ensures IsMatrix(inv, k, k)
  {}

  lemma ExplainsShape(d: Matrix, shards: map<nat, Vec>, present: seq<nat>, k: nat, m: nat, size: nat)
    requires Explains(d, shards, present, k, m, size)
    ensures |d| == k && |present| == k && forall i :: 0 <= i < k ==> present[i] in shards
  {}

  /** A surviving data shard is the corresponding row of the data. */
  lemma PresentRow(d: Matrix, shards: map<nat, Vec>, present: seq<nat>, k: nat, m: nat, size: nat, i: nat)
    requires Explains(d, shards, present, k, m, size) && i < k && i in present
    ensures i in shards && shards[i] == d[i]
  {
    var p: nat :| p < k && present[p] == i;
    assert Rows(Encoded(k, m, d, size), present)[p] == shards[i];
    Systematic(k, m, d, size, i);
  }

  /** With every data shard at hand, the data shards explain themselves. */
  lemma DataRowsExplain(shards: map<nat, Vec>, present: seq<nat>, k: nat, m: nat, size: nat)
    requires Survivors(present, k, m) && ShardMap(shards, k, m, size)
    requires present == seq(k, i => i) && forall i :: 0 <= i < k ==> present[i] in shards
    ensures Explains(Gather(shards, present), shards, present, k, m, size)
  {
    var d := Gather(shards, present);
    forall i: nat | i < k
      ensures Rows(Encoded(k, m, d, size), present)[i] == d[i]
    {
      Systematic(k, m, d, size, i);
    }
  }
}
