/** The cached hash trie over a device's digests, and the walk that finds how two of them differ. */
module Merkle {
  import opened Wrappers
  import opened LinearAlgebra
  import opened HexDigits
  import opened MerkleTrie
  import opened Sequences

  datatype HashError = NotADigest | NotHex

  /** How many paths one request may name. */
  const MAX_PATHS: nat := 4096

  // ---------------------------------------------------------------- buckets and cache

  function BucketAt(buckets: map<string, set<Vec>>, p: string): set<Vec> {
    if p in buckets then buckets[p] else {}
  }

  /** One bucket for every leaf with a member, holding exactly the members there. */
  ghost predicate InBuckets(buckets: map<string, set<Vec>>, members: set<Vec>)
    requires Digests(members)
  {
    && (forall p :: p in buckets ==> |p| == DEPTH && buckets[p] != {})
    && (forall p :: |p| == DEPTH ==> BucketAt(buckets, p) == Under(members, p))
  }

  /** Every cached value is the one that would be computed. */
  ghost predicate Cached(sha: Sha, cache: map<string, Vec>, members: set<Vec>)
    requires Digests(members)
  {
    forall p :: p in cache ==> |p| <= DEPTH && cache[p] == Node(sha, members, p)
  }

  /** The paths from the root to p. */
  function Above(p: string, n: nat): set<string>
    requires n <= |p| + 1
  {
    set i | 0 <= i < n :: p[..i]
  }

  lemma IsAbove(p: string, path: string)
    requires |path| == DEPTH && p <= path
    ensures p in Above(path, DEPTH + 1)
  {
    assert path[..|p|] == p;
  }

  lemma UnderElsewhere(before: set<Vec>, after: set<Vec>, x: Vec, p: string)
    requires Digests(before) && Digests(after) && |x| == 32 && !(p <= PathOf(x))
    requires after == before + {x} || after == before - {x}
    ensures Under(before, p) == Under(after, p)
  {
    hide PathOf;
  }

  lemma StillCached(sha: Sha, cache: map<string, Vec>, before: set<Vec>, after: set<Vec>, x: Vec)
    requires Digests(before) && Digests(after) && |x| == 32 && Cached(sha, cache, before)
    requires after == before + {x} || after == before - {x}
    ensures Cached(sha, cache - Above(PathOf(x), DEPTH + 1), after)
  {
    hide Node, PathOf, Above, Under;
    forall p | p in cache && p !in Above(PathOf(x), DEPTH + 1) ensures cache[p] == Node(sha, after, p) {
      if p <= PathOf(x) {
        IsAbove(p, PathOf(x));
      }
      UnderElsewhere(before, after, x, p);
      NodeOfUnder(sha, before, after, p);
    }
  }

  lemma UnderPath(s: set<Vec>, x: Vec)
    requires Digests(s) && |x| == 32
    ensures x in Under(s, PathOf(x)) <==> x in s
  {}

  lemma UnderLeaf(s: set<Vec>, p: string, x: Vec)
    requires Digests(s) && |p| == DEPTH && x in Under(s, p)
    ensures PathOf(x) == p
  {
    hide PathOf;
  }

  lemma BucketIsUnder(buckets: map<string, set<Vec>>, members: set<Vec>, p: string)
    requires Digests(members) && InBuckets(buckets, members) && |p| == DEPTH
    ensures BucketAt(buckets, p) == Under(members, p)
  {
    hide Under, BucketAt;
  }

  lemma UnderPlus(s: set<Vec>, x: Vec, q: string)
    requires Digests(s) && |x| == 32 && |q| == DEPTH
    ensures Under(s + {x}, q) == if q == PathOf(x) then Under(s, q) + {x} else Under(s, q)
  {
    hide PathOf;
  }

  lemma UnderMinus(s: set<Vec>, x: Vec, q: string)
    requires Digests(s) && |x| == 32 && |q| == DEPTH
    ensures Under(s - {x}, q) == if q == PathOf(x) then Under(s, q) - {x} else Under(s, q)
  {
    hide PathOf;
  }

  lemma BucketGains(buckets: map<string, set<Vec>>, members: set<Vec>, x: Vec)
    requires Digests(members) && InBuckets(buckets, members) && |x| == 32
    ensures InBuckets(buckets[PathOf(x) := BucketAt(buckets, PathOf(x)) + {x}], members + {x})
  {
    hide PathOf, Under;
    forall q | |q| == DEPTH
      ensures Under(members + {x}, q) == if q == PathOf(x) then Under(members, q) + {x} else Under(members, q)
    {
      UnderPlus(members, x, q);
    }
  }

  function WithoutIn(buckets: map<string, set<Vec>>, p: string, x: Vec): map<string, set<Vec>> {
    if BucketAt(buckets, p) - {x} == {} then buckets - {p} else buckets[p := BucketAt(buckets, p) - {x}]
  }

  lemma BucketLoses(buckets: map<string, set<Vec>>, members: set<Vec>, x: Vec)
    requires Digests(members) && InBuckets(buckets, members) && x in members
    ensures InBuckets(WithoutIn(buckets, PathOf(x), x), members - {x})
  {
    hide PathOf, Under;
    forall q | |q| == DEPTH
      ensures Under(members - {x}, q) == if q == PathOf(x) then Under(members, q) - {x} else Under(members, q)
    {
      UnderMinus(members, x, q);
    }
  }

  // ---------------------------------------------------------------- sets of names

  /** The digest that a name, in either case, stands for. */
  function Named(h: string): Option<Vec> {
    FromHex(Lower(h))
  }

  predicate Acceptable(h: string) {
    Named(h).Some? && |Named(h).value| == 32
  }

  function Names(s: set<Vec>): set<string> {
    set x | x in s :: ToHex(x)
  }

  lemma NamesMinus(a: set<Vec>, b: set<Vec>)
    ensures Names(a) - Names(b) == Names(a - b)
  {
    forall x, y | x in a && y in b && ToHex(x) == ToHex(y) ensures x == y {
      HexInjective(x, y);
    }
  }

  lemma NoNames()
    ensures Names({}) == {}
  {}

  lemma NamesPlus(a: set<Vec>, b: set<Vec>)
    ensures Names(a) + Names(b) == Names(a + b)
  {}

  lemma NamedPath(h: string)
    requires Named(h).Some? && |Named(h).value| == 32
    ensures |Lower(h)| >= DEPTH && Lower(h)[..DEPTH] == PathOf(Named(h).value)
  {
    ParsedHex(Lower(h));
    LowerTwice(h);
  }

  /** The digests that these names stand for. */
  ghost function NamedBy(hashes: seq<string>): set<Vec> {
    set i | 0 <= i < |hashes| && Named(hashes[i]).Some? :: Named(hashes[i]).value
  }

  lemma NamedByNone()
    ensures NamedBy([]) == {}
  {}

  lemma AcceptableNamed(h: string)
    requires Acceptable(h)
    ensures Named(h).Some?
  {}

  lemma NamedByMore(hashes: seq<string>, i: nat)
    requires i < |hashes| && Named(hashes[i]).Some?
    ensures NamedBy(hashes[..i + 1]) == NamedBy(hashes[..i]) + {Named(hashes[i]).value}
  {
    hide Named;
    var l, k := hashes[..i + 1], hashes[..i];
    assert forall j :: 0 <= j < i ==> l[j] == k[j];
    assert l[i] == hashes[i];
    forall x | x in NamedBy(l) ensures x in NamedBy(k) + {Named(hashes[i]).value} {
      var j :| 0 <= j < |l| && Named(l[j]) == Some(x);
      assert j < i ==> Named(k[j]) == Some(x);
    }
    assert Named(l[i]) == Named(hashes[i]);
  }

  // ---------------------------------------------------------------- the tree

  class MerkleTree {
    const sha: Sha
    var buckets: map<string, set<Vec>>
    var cache: map<string, Vec>
    ghost var members: set<Vec>

    ghost predicate Valid()
      reads this
    {
      Sized(sha) && Digests(members) && InBuckets(buckets, members) && Cached(sha, cache, members)
    }

    lemma ValidParts()
      requires Valid()
      ensures Sized(sha) && Digests(members) && InBuckets(buckets, members) && Cached(sha, cache, members)
    {}

    constructor (sha: Sha)
      requires Sized(sha)
      ensures Valid() && this.sha == sha && members == {}
    {
      this.sha, buckets, cache, members := sha, map[], map[], {};
      new;
      hide Named, PathOf, Under, Node;
    }

    /** The tree over the digests named; the first name that is malformed is an error. */
    static method Made(sha: Sha, hashes: seq<string>) returns (r: Result<MerkleTree, HashError>)
      requires Sized(sha)
      ensures r.Ok? <==> forall i :: 0 <= i < |hashes| ==> Acceptable(hashes[i])
      ensures r.Ok? ==> fresh(r.value) && r.value.Valid() && r.value.sha == sha && r.value.members == NamedBy(hashes)
    {
      hide Named, Acceptable, Cached, InBuckets, Sized, Digests;
      var t := new MerkleTree(sha);
      NamedByNone();
      for i := 0 to |hashes|
        invariant fresh(t) && t.Valid() && t.sha == sha && t.members == NamedBy(hashes[..i])
        invariant forall j :: 0 <= j < i ==> Acceptable(hashes[j])
      {
        var added := t.Add(hashes[i]);
        if added.Err? {
          return Err(added.error);
        }
        AcceptableNamed(hashes[i]);
        NamedByMore(hashes, i);
      }
      assert hashes[..|hashes|] == hashes;
      return Ok(t);
    }

    method Invalidate(path: string)
      requires |path| == DEPTH
      modifies this`cache
      ensures cache == old(cache) - Above(path, DEPTH + 1)
    {
      for i := 0 to DEPTH + 1
        invariant cache == old(cache) - Above(path, i)
      {
        assert Above(path, i + 1) == Above(path, i) + {path[..i]};
        cache := cache - {path[..i]};
      }
    }

    /** The digest is a member afterwards, and nothing else changes; a name that is no digest changes nothing. */
    method Add(h: string) returns (r: Result<bool, HashError>)
      requires Valid()
      modifies this
      ensures Valid()
      ensures Acceptable(h) <==> r.Ok?
      ensures r.Ok? ==> members == old(members) + {Named(h).value} && (r.value <==> Named(h).value !in old(members))
      ensures r.Err? ==> members == old(members)
    {
      hide FromHex, Lower, InBuckets, Cached, Sized, Digests, PathOf, Under, Node, Above, BucketAt;
      var low := Lower(h);
      var parsed := FromHex(low);
      if parsed.None? {
        return Err(NotHex);
      }
      var raw := parsed.value;
      if |raw| != 32 {
        return Err(NotADigest);
      }
      NamedPath(h);
      var key := low[..DEPTH];
      BucketIsUnder(buckets, members, key);
      UnderPath(members, raw);
      var b := BucketAt(buckets, key);
      if raw in b {
        assert members == members + {raw};
        return Ok(false);
      }
      BucketGains(buckets, members, raw);
      DigestsPlus(members, raw);
      StillCached(sha, cache, members, members + {raw}, raw);
      buckets := buckets[key := b + {raw}];
      members := members + {raw};
      Invalidate(key);
      return Ok(true);
    }

    /** The digest is no member afterwards, and nothing else changes. */
    method Remove(h: string) returns (r: Result<bool, HashError>)
      requires Valid()
      modifies this
      ensures Valid()
      ensures Named(h).Some? <==> r.Ok?
      ensures r.Ok? ==> members == old(members) - {Named(h).value} && (r.value <==> Named(h).value in old(members))
      ensures r.Err? ==> members == old(members)
    {
      hide FromHex, Lower, InBuckets, Cached, Sized, PathOf, Under, Node, Above, BucketAt, WithoutIn;
      var low := Lower(h);
      var key := if |low| < DEPTH then low else low[..DEPTH];
      var b := BucketAt(buckets, key);
      var parsed := FromHex(low);
      if parsed.None? {
        return Err(NotHex);
      }
      var raw := parsed.value;
      BucketHas(buckets, members, h);
      if raw !in b {
        assert members == members - {raw};
        return Ok(false);
      }
      BucketLoses(buckets, members, raw);
      StillCached(sha, cache, members, members - {raw}, raw);
      buckets := WithoutIn(buckets, key, raw);
      members := members - {raw};
      Invalidate(key);
      return Ok(true);
    }

    /** Membership; a name whose first digits are not in lower case is never found. */
    method Contains(h: string) returns (r: Result<bool, HashError>)
      requires Valid()
      ensures r.Ok? ==> (r.value <==> FromHex(h).Some? && FromHex(h).value in members && Key(h) == Key(Lower(h)))
      ensures r.Err? <==> FromHex(h).None? && exists x :: x in members && PathOf(x) == Key(h)
    {
      hide FromHex, Lower, Cached, Sized, PathOf, Node, Under, InBuckets;
      HasBucket(buckets, members, Key(h));
      if FromHex(h).Some? && |FromHex(h).value| == 32 {
        ParsedPath(h);
        UnderPath(members, FromHex(h).value);
      }
      var key := Key(h);
      if key !in buckets {
        return Ok(false);
      }
      var parsed := FromHex(h);
      if parsed.None? {
        return Err(NotHex);
      }
      return Ok(parsed.value in buckets[key]);
    }

    /** The number of members: the bucket sizes added up. */
    method Count() returns (n: nat)
      requires Valid()
      ensures n == |members|
    {
      hide PathOf, Under, InBuckets, Node;
      ghost var counted: set<Vec> := {};
      var left := buckets.Keys;
      n := 0;
      forall x | x in members ensures PathOf(x) in left {
        HasBucket(buckets, members, PathOf(x));
      }
      while left != {}
        invariant left <= buckets.Keys && counted <= members && n == |counted|
        invariant forall x :: x in members ==> (x in counted <==> PathOf(x) !in left)
        decreases |left|
      {
        var p :| p in left;
        HasBucket(buckets, members, p);
        NextCounted(members, counted, left, buckets[p], p);
        n, left := n + |buckets[p]|, left - {p};
        counted := counted + buckets[p];
      }
      forall x | x in members ensures x in counted {}
      assert counted == members;
    }

    /** The names of all members. */
    method AllHashes() returns (names: set<string>)
      requires Valid()
      ensures names == Names(members)
    {
      hide PathOf, Under, InBuckets, Node, Names;
      ghost var counted: set<Vec> := {};
      var left := buckets.Keys;
      names := {};
      forall x | x in members ensures PathOf(x) in left {
        HasBucket(buckets, members, PathOf(x));
      }
      NoNames();
      while left != {}
        invariant left <= buckets.Keys && counted <= members && names == Names(counted)
        invariant forall x :: x in members ==> (x in counted <==> PathOf(x) !in left)
        decreases |left|
      {
        var p :| p in left;
        HasBucket(buckets, members, p);
        NextCounted(members, counted, left, buckets[p], p);
        NamesPlus(counted, buckets[p]);
        names, left := names + Names(buckets[p]), left - {p};
        counted := counted + buckets[p];
      }
      forall x | x in members ensures x in counted {}
      assert counted == members;
    }

    // -------------------------------------------------------------- node values

    /** The cached value, or the computed one, which is then cached: always that of the trie over the members. */
    method NodeAt(path: string) returns (value: Vec)
      requires Valid() && |path| <= DEPTH
      modifies this`cache
      ensures Valid() && value == Node(sha, members, path)
      decreases DEPTH - |path|
    {
      hide Under, InBuckets, Input, Sized, LeafInput, InnerInput, Hex, Value, Node;
      if path in cache {
        return cache[path];
      }
      var input: Option<Vec>;
      if |path| == DEPTH {
        BucketIsUnder(buckets, members, path);
        input := LeafInput(BucketAt(buckets, path));
        assert input == LeafInput(Under(members, path));
      } else {
        var kids := [];
        for i := 0 to 16
          invariant Valid() && |kids| == i
          invariant forall j :: 0 <= j < i ==> kids[j] == Node(sha, members, path + [Hex(j)])
        {
          var kid := NodeAt(path + [Hex(i)]);
          kids := kids + [kid];
        }
        assert kids == Kids(sha, members, path);
        input := InnerInput(kids);
        assert input == InnerInput(Kids(sha, members, path));
      }
      NodeParts(sha, members, path);
      value := Value(sha, input);
      cache := cache[path := value];
    }

    method Root() returns (value: Vec)
      requires Valid()
      modifies this`cache
      ensures Valid() && value == Node(sha, members, "")
    {
      value := NodeAt("");
    }

    method Children(path: string) returns (kids: seq<Vec>)
      requires Valid() && |path| < DEPTH
      modifies this`cache
      ensures Valid() && kids == Kids(sha, members, path)
    {
      hide Under, InBuckets, Node, Sized, Hex;
      kids := [];
      for i := 0 to 16
        invariant Valid() && |kids| == i
        invariant forall j :: 0 <= j < i ==> kids[j] == Node(sha, members, path + [Hex(j)])
      {
        var kid := NodeAt(path + [Hex(i)]);
        kids := kids + [kid];
      }
    }

    /** One request for the children of several nodes. */
    method ChildrenOf(paths: seq<string>) returns (r: map<string, seq<Vec>>)
      requires Valid() && |paths| <= MAX_PATHS && forall p :: p in paths ==> |p| < DEPTH
      modifies this`cache
      ensures Valid() && forall p :: p in paths ==> p in r && r[p] == Kids(sha, members, p)
    {
      hide Under, InBuckets, Node, Sized, Kids;
      r := map[];
      for i := 0 to |paths|
        invariant Valid() && forall j :: 0 <= j < i ==> paths[j] in r && r[paths[j]] == Kids(sha, members, paths[j])
      {
        var kids := Children(paths[i]);
        r := r[paths[i] := kids];
      }
    }

    method Bucket(path: string) returns (names: set<string>)
      requires Valid() && |path| == DEPTH
      ensures names == Names(Under(members, path))
    {
      names := Names(BucketAt(buckets, path));
    }

    /** One request for the members of several leaves. */
    method BucketsOf(paths: seq<string>) returns (r: map<string, set<string>>)
      requires Valid() && |paths| <= MAX_PATHS && forall p :: p in paths ==> |p| == DEPTH
      ensures forall p :: p in paths ==> p in r && r[p] == Names(Under(members, p))
    {
      hide Under, InBuckets, Node, Sized;
      r := map[];
      for i := 0 to |paths|
        invariant forall j :: 0 <= j < i ==> paths[j] in r && r[paths[j]] == Names(Under(members, paths[j]))
      {
        var names := Bucket(paths[i]);
        r := r[paths[i] := names];
      }
    }
  }

  lemma NodeParts(sha: Sha, s: set<Vec>, p: string)
    requires Digests(s) && |p| <= DEPTH
    ensures Node(sha, s, p) == Value(sha, if |p| == DEPTH then LeafInput(Under(s, p)) else InnerInput(Kids(sha, s, p)))
  {
    hide LeafInput, InnerInput, Under, Kids;
  }

  lemma NextCounted(members: set<Vec>, counted: set<Vec>, left: set<string>, bucket: set<Vec>, p: string)
    requires Digests(members) && counted <= members && p in left && bucket == Under(members, p)
    requires forall x :: x in bucket ==> PathOf(x) == p
    requires forall x :: x in members ==> (x in counted <==> PathOf(x) !in left)
    ensures |counted + bucket| == |counted| + |bucket|
    ensures forall x :: x in members ==> (x in counted + bucket <==> PathOf(x) !in left - {p})
  {
    hide PathOf, Under;
    assert counted !! bucket;
    forall x | x in members && PathOf(x) == p ensures x in bucket {
      UnderPath(members, x);
    }
  }

  lemma HasBucket(buckets: map<string, set<Vec>>, members: set<Vec>, key: string)
    requires Digests(members) && InBuckets(buckets, members)
    ensures key in buckets <==> exists x :: x in members && PathOf(x) == key
    ensures key in buckets ==> buckets[key] == Under(members, key) && forall x :: x in buckets[key] ==> PathOf(x) == key
  {
    hide PathOf, Under;
    if |key| == DEPTH {
      assert BucketAt(buckets, key) == Under(members, key);
      forall x | x in Under(members, key) ensures PathOf(x) == key {
        UnderLeaf(members, key, x);
      }
      forall x | x in members && PathOf(x) == key ensures x in Under(members, key) {
        UnderPath(members, x);
      }
      if key in buckets {
        var x :| x in buckets[key];
        assert x in members && PathOf(x) == key;
      }
    }
  }

  function Key(h: string): string {
    if |h| < DEPTH then h else h[..DEPTH]
  }

  lemma ParsedPath(h: string)
    requires FromHex(h).Some? && |FromHex(h).value| == 32
    ensures Key(Lower(h)) == PathOf(FromHex(h).value)
  {
    ParsedHex(h);
  }

  lemma DigestsPlus(s: set<Vec>, x: Vec)
    requires Digests(s) && |x| == 32
    ensures Digests(s + {x})
  {}

  lemma BucketHas(buckets: map<string, set<Vec>>, members: set<Vec>, h: string)
    requires Digests(members) && InBuckets(buckets, members) && Named(h).Some?
    ensures Named(h).value in BucketAt(buckets, Key(Lower(h))) <==> Named(h).value in members
    ensures Named(h).value in members ==> Key(Lower(h)) == PathOf(Named(h).value)
  {
    hide Named, Lower, PathOf, Under;
    var x := Named(h).value;
    if |x| == 32 {
      NamedPath(h);
        UnderPath(members, x);
    }
  }

  // ---------------------------------------------------------------- the walk

  /** The paths of length n that the walk reaches, each once. */
  ghost predicate Frontier(sha: Sha, a: set<Vec>, b: set<Vec>, n: nat, paths: seq<string>)
    requires Digests(a) && Digests(b) && n <= DEPTH
  {
    Distinct(paths) && (forall p :: p in paths ==> |p| == n)
    && forall p :: |p| == n ==> (p in paths <==> Reached(sha, a, b, p))
  }

  /** No more nodes of a level are visited than there are differing digests, nor than a request may name. */
  lemma FrontierSize(sha: Sha, a: set<Vec>, b: set<Vec>, n: nat, paths: seq<string>)
    requires Digests(a) && Digests(b) && n <= DEPTH && Frontier(sha, a, b, n, paths)
    ensures |paths| <= |Delta(a, b)|
  {
    hide Node, Under, Delta;
    forall p | p in paths ensures Under(Delta(a, b), p) != {} && Under(Delta(a, b), p) <= Delta(a, b) {
      assert p[..n] == p && Node(sha, a, p[..n]) != Node(sha, b, p[..n]);
      DifferentNodes(sha, a, b, p);
    }
    FewDifferences(sha, a, b, paths, n, Delta(a, b));
  }

  /** The differing ones of the first m children of p, each once. */
  ghost predicate Differing(sha: Sha, a: set<Vec>, b: set<Vec>, p: string, m: nat, part: seq<string>)
    requires Digests(a) && Digests(b) && |p| < DEPTH && m <= 16
  {
    Distinct(part) && |part| <= m
    && (forall q :: q in part ==> exists i: nat :: i < m && q == p + [Hex(i)])
    && forall i: nat :: i < m ==> (p + [Hex(i)] in part <==> Node(sha, a, p + [Hex(i)]) != Node(sha, b, p + [Hex(i)]))
  }

  lemma HexApart(i: nat, j: nat)
    requires i < 16 && j < 16 && Hex(i) == Hex(j)
    ensures i == j
  {
    DigitOfHex(i);
    DigitOfHex(j);
  }

  lemma DifferingStep(sha: Sha, a: set<Vec>, b: set<Vec>, p: string, m: nat, part: seq<string>)
    requires Digests(a) && Digests(b) && |p| < DEPTH && m < 16 && Differing(sha, a, b, p, m, part)
    ensures var q := p + [Hex(m)];
            Differing(sha, a, b, p, m + 1,
                      if Node(sha, a, q) != Node(sha, b, q) then part + [q] else part)
  {
    hide Node, Hex;
    var q := p + [Hex(m)];
    forall i: nat | i < m ensures p + [Hex(i)] != q {
      assert (p + [Hex(i)])[|p|] == Hex(i) && q[|p|] == Hex(m);
      if Hex(i) == Hex(m) {
        HexApart(i, m);
      }
    }
    assert q !in part;
  }

  /** next holds exactly the differing children of p, as far as p is concerned. */
  ghost predicate Explored(sha: Sha, a: set<Vec>, b: set<Vec>, p: string, next: seq<string>)
    requires Digests(a) && Digests(b) && |p| < DEPTH
  {
    forall c :: p + [c] in next <==> Node(sha, a, p + [c]) != Node(sha, b, p + [c])
  }

  function Parent(q: string): string {
    if q == "" then "" else q[..|q| - 1]
  }

  /** The next frontier, as far as the parents before j lead. */
  ghost predicate Descended(sha: Sha, a: set<Vec>, b: set<Vec>, paths: seq<string>, j: nat, next: seq<string>)
    requires Digests(a) && Digests(b) && j <= |paths| && forall p :: p in paths ==> |p| < DEPTH
  {
    Distinct(next) && |next| <= 16 * j
    && (forall q :: q in next ==> q != "" && Parent(q) in paths[..j])
    && (forall i :: 0 <= i < j ==> Explored(sha, a, b, paths[i], next))
  }

  lemma OtherDigit(sha: Sha, a: set<Vec>, b: set<Vec>, p: string, c: char)
    requires Digests(a) && Digests(b) && |p| < DEPTH && Node(sha, a, p + [c]) != Node(sha, b, p + [c])
    ensures exists i: nat :: i < 16 && Hex(i) == c
  {
    hide Node, Hex, Delta, PathOf;
    DifferentNodes(sha, a, b, p + [c]);
    var x :| x in Under(Delta(a, b), p + [c]);
    var i := DigitAt(x, |p|);
    assert PathOf(x)[|p|] == (p + [c])[|p|];
  }

  lemma DistinctJoin<T>(l: seq<T>, k: seq<T>)
    requires Distinct(l) && Distinct(k) && forall x :: x in l ==> x !in k
    ensures Distinct(l + k)
  {
    forall i, j | 0 <= i < j < |l| + |k| ensures (l + k)[i] != (l + k)[j] {
      if i < |l| <= j {
        assert l[i] in l && k[j - |l|] in k;
      }
    }
  }

  lemma ExploredPart(sha: Sha, a: set<Vec>, b: set<Vec>, p: string, part: seq<string>)
    requires Digests(a) && Digests(b) && |p| < DEPTH && Differing(sha, a, b, p, 16, part)
    ensures Explored(sha, a, b, p, part) && forall q :: q in part ==> q != "" && Parent(q) == p
  {
    hide Node, Hex;
    forall c ensures p + [c] in part <==> Node(sha, a, p + [c]) != Node(sha, b, p + [c]) {
      if p + [c] in part {
        var i: nat :| i < 16 && p + [c] == p + [Hex(i)];
      } else if Node(sha, a, p + [c]) != Node(sha, b, p + [c]) {
        OtherDigit(sha, a, b, p, c);
      }
    }
  }

  lemma ExploredAlso(sha: Sha, a: set<Vec>, b: set<Vec>, p: string, next: seq<string>, others: seq<string>)
    requires Digests(a) && Digests(b) && |p| < DEPTH && Explored(sha, a, b, p, next)
    requires forall q :: q in others ==> Parent(q) != p
    ensures Explored(sha, a, b, p, next + others) && Explored(sha, a, b, p, others + next)
  {
    hide Node;
    forall c ensures p + [c] !in others {
      assert Parent(p + [c]) == p;
    }
  }

  lemma DescendedStep(sha: Sha, a: set<Vec>, b: set<Vec>, paths: seq<string>, j: nat, next: seq<string>,
                      part: seq<string>)
    requires Digests(a) && Digests(b) && j < |paths| && Distinct(paths) && forall p :: p in paths ==> |p| < DEPTH
    requires Descended(sha, a, b, paths, j, next) && Differing(sha, a, b, paths[j], 16, part)
    ensures Descended(sha, a, b, paths, j + 1, next + part)
  {
    hide Explored, Parent;
    ExploredPart(sha, a, b, paths[j], part);
    assert paths[j] !in paths[..j] && paths[..j + 1] == paths[..j] + [paths[j]];
    DistinctJoin(next, part);
    forall i | 0 <= i <= j ensures Explored(sha, a, b, paths[i], next + part) {
      if i < j {
        ExploredAlso(sha, a, b, paths[i], next, part);
      } else {
        ExploredAlso(sha, a, b, paths[i], part, next);
      }
    }
  }

  lemma ExploredAt(sha: Sha, a: set<Vec>, b: set<Vec>, p: string, next: seq<string>, c: char)
    requires Digests(a) && Digests(b) && |p| < DEPTH && Explored(sha, a, b, p, next)
    ensures p + [c] in next <==> Node(sha, a, p + [c]) != Node(sha, b, p + [c])
  {
    hide Node;
  }

  lemma DescendedSize(sha: Sha, a: set<Vec>, b: set<Vec>, paths: seq<string>, j: nat, next: seq<string>)
    requires Digests(a) && Digests(b) && j <= |paths| && forall p :: p in paths ==> |p| < DEPTH
    requires Descended(sha, a, b, paths, j, next)
    ensures |next| <= 16 * j
  {
    hide Explored, Parent;
  }

  lemma DifferingStart(sha: Sha, a: set<Vec>, b: set<Vec>, p: string)
    requires Digests(a) && Digests(b) && |p| < DEPTH
    ensures Differing(sha, a, b, p, 0, [])
  {
    hide Node;
  }

  lemma DescendedAll(sha: Sha, a: set<Vec>, b: set<Vec>, n: nat, paths: seq<string>, next: seq<string>)
    requires Digests(a) && Digests(b) && n < DEPTH && Frontier(sha, a, b, n, paths)
    requires Descended(sha, a, b, paths, |paths|, next)
    ensures Frontier(sha, a, b, n + 1, next)
  {
    hide Reached, Explored;
    assert paths[..|paths|] == paths;
    forall q | q != "" && |q| == n + 1 ensures q in next <==> Reached(sha, a, b, q) {
      var p, c := Parent(q), q[n];
      assert q == p + [c];
      ReachedStep(sha, a, b, p, c);
      if p in paths {
        var i :| 0 <= i < |paths| && paths[i] == p;
        ExploredAt(sha, a, b, p, next, c);
      }
    }
  }

  /** One level of the walk: the differing children of the frontier, from the local tree and the remote's answer. */
  method Descend(local: MerkleTree, paths: seq<string>, remote: map<string, seq<Vec>>, ghost b: set<Vec>, ghost n: nat)
    returns (next: seq<string>)
    requires local.Valid() && Digests(b) && n < DEPTH && Frontier(local.sha, local.members, b, n, paths)
    requires forall p :: p in paths ==> p in remote && remote[p] == Kids(local.sha, b, p)
    modifies local`cache
    ensures local.Valid() && Frontier(local.sha, local.members, b, n + 1, next) && |next| <= 16 * |paths|
  {
    hide Reached, Node, Descended, Differing, Hex, Cached, InBuckets, Under;
    next := [];
    DescendedStart(local.sha, local.members, b, paths);
    for j := 0 to |paths|
      invariant local.Valid() && Descended(local.sha, local.members, b, paths, j, next)
    {
      var part := ChildrenDiffering(local, paths[j], remote[paths[j]], b);
      DescendedStep(local.sha, local.members, b, paths, j, next, part);
      next := next + part;
    }
    DescendedAll(local.sha, local.members, b, n, paths, next);
    DescendedSize(local.sha, local.members, b, paths, |paths|, next);
  }

  lemma DescendedStart(sha: Sha, a: set<Vec>, b: set<Vec>, paths: seq<string>)
    requires Digests(a) && Digests(b) && forall p :: p in paths ==> |p| < DEPTH
    ensures Descended(sha, a, b, paths, 0, [])
  {}

  method ChildrenDiffering(local: MerkleTree, p: string, kids: seq<Vec>, ghost b: set<Vec>) returns (part: seq<string>)
    requires local.Valid() && Digests(b) && |p| < DEPTH && kids == Kids(local.sha, b, p)
    modifies local`cache
    ensures local.Valid() && Differing(local.sha, local.members, b, p, 16, part)
  {
    hide Node, Differing, Hex, Cached, InBuckets, Under;
    part := [];
    DifferingStart(local.sha, local.members, b, p);
    for i := 0 to 16
      invariant local.Valid() && Differing(local.sha, local.members, b, p, i, part)
    {
      var mine := local.NodeAt(p + [Hex(i)]);
      DifferingStep(local.sha, local.members, b, p, i, part);
      if mine != kids[i] {
        part := part + [p + [Hex(i)]];
      }
    }
  }

  /** From the roots down to the leaves that differ, one request a level. */
  method DifferingLeaves(local: MerkleTree, remote: MerkleTree) returns (leaves: seq<string>, ghost received: nat)
    requires local.Valid() && remote.Valid() && local != remote && local.sha == remote.sha
    requires Node(local.sha, local.members, "") != Node(local.sha, remote.members, "")
    modifies local`cache, remote`cache
    ensures local.Valid() && remote.Valid() && |leaves| <= MAX_PATHS
    ensures Frontier(local.sha, local.members, remote.members, DEPTH, leaves)
    ensures received <= 48 * |Delta(local.members, remote.members)|
  {
    hide Node, Frontier, Cached, InBuckets, Under, Delta, Kids;
    leaves, received := [""], 0;
    FrontierStart(local.sha, local.members, remote.members);
    var n := 0;
    while n < DEPTH && leaves != []
      invariant n <= DEPTH
      invariant local.Valid() && remote.Valid() && Frontier(local.sha, local.members, remote.members, n, leaves)
      invariant n <= 2 ==> |leaves| <= 256
      invariant |leaves| <= MAX_PATHS && (n == 1 ==> |leaves| <= 16) && (n == 0 ==> |leaves| <= 1)
      invariant received <= 16 * n * |Delta(local.members, remote.members)|
    {
      FrontierSize(local.sha, local.members, remote.members, n, leaves);
      FrontierPaths(local.sha, local.members, remote.members, n, leaves);
      received := received + 16 * |leaves|;
      var kids := remote.ChildrenOf(leaves);
      leaves := Descend(local, leaves, kids, remote.members, n);
      n := n + 1;
    }
    if leaves == [] {
      FrontierGone(local.sha, local.members, remote.members, n, leaves);
    }
  }

  lemma FrontierGone(sha: Sha, a: set<Vec>, b: set<Vec>, n: nat, paths: seq<string>)
    requires Digests(a) && Digests(b) && n <= DEPTH && Frontier(sha, a, b, n, paths) && paths == []
    ensures Frontier(sha, a, b, DEPTH, [])
  {
    hide Node;
    forall q | |q| == DEPTH ensures !Reached(sha, a, b, q) {
      assert !Reached(sha, a, b, q[..n]);
      assert forall i :: 0 <= i <= n ==> q[..n][..i] == q[..i];
    }
  }

  lemma FrontierStart(sha: Sha, a: set<Vec>, b: set<Vec>)
    requires Digests(a) && Digests(b) && Node(sha, a, "") != Node(sha, b, "")
    ensures Frontier(sha, a, b, 0, [""])
  {
    hide Node;
  }

  lemma FrontierPaths(sha: Sha, a: set<Vec>, b: set<Vec>, n: nat, paths: seq<string>)
    requires Digests(a) && Digests(b) && n <= DEPTH && Frontier(sha, a, b, n, paths)
    ensures forall p :: p in paths ==> |p| == n
  {}

  // ---------------------------------------------------------------- the difference

  /** The members of some of the leaves. */
  ghost function UnderAny(s: set<Vec>, paths: seq<string>): set<Vec>
    requires Digests(s)
  {
    set x | x in s && PathOf(x) in paths
  }

  lemma UnderAnyMore(s: set<Vec>, paths: seq<string>, j: nat)
    requires Digests(s) && j < |paths| && |paths[j]| == DEPTH
    ensures UnderAny(s, paths[..j + 1]) == UnderAny(s, paths[..j]) + Under(s, paths[j])
  {
    hide PathOf;
    assert paths[..j + 1] == paths[..j] + [paths[j]];
    forall x | x in s ensures x in Under(s, paths[j]) <==> PathOf(x) == paths[j] {
      if x in Under(s, paths[j]) {
        UnderLeaf(s, paths[j], x);
      } else if PathOf(x) == paths[j] {
        UnderPath(s, x);
      }
    }
  }

  lemma DifferenceStep(a: set<Vec>, b: set<Vec>, paths: seq<string>, j: nat)
    requires Digests(a) && Digests(b) && j < |paths| && |paths[j]| == DEPTH
    ensures Names(UnderAny(a, paths[..j + 1]) - UnderAny(b, paths[..j + 1]))
            == Names(UnderAny(a, paths[..j]) - UnderAny(b, paths[..j]))
               + (Names(Under(a, paths[j])) - Names(Under(b, paths[j])))
  {
    hide Under, Names, UnderAny;
    UnderAnyMore(a, paths, j);
    UnderAnyMore(b, paths, j);
    NamesMinus(Under(a, paths[j]), Under(b, paths[j]));
    NamesPlus(UnderAny(a, paths[..j]) - UnderAny(b, paths[..j]), Under(a, paths[j]) - Under(b, paths[j]));
    assert UnderAny(a, paths[..j + 1]) - UnderAny(b, paths[..j + 1])
        == (UnderAny(a, paths[..j]) - UnderAny(b, paths[..j])) + (Under(a, paths[j]) - Under(b, paths[j])) by {
      LeavesApart(a, b, paths, j);
      LeavesApart(b, a, paths, j);
    }
  }

  /** A digest of one set below one of the leaves is in the other set exactly if it is below that leaf there. */
  lemma LeavesApart(a: set<Vec>, b: set<Vec>, paths: seq<string>, j: nat)
    requires Digests(a) && Digests(b) && j < |paths| && |paths[j]| == DEPTH
    ensures forall x :: x in UnderAny(a, paths[..j]) ==> (x in UnderAny(b, paths[..j]) <==> x in b)
    ensures forall x :: x in Under(a, paths[j]) ==> (x in Under(b, paths[j]) <==> x in b)
    ensures forall x :: x in UnderAny(a, paths[..j]) + Under(a, paths[j]) ==> x in a
  {
    hide PathOf;
  }

  lemma FoundUnder(sha: Sha, a: set<Vec>, b: set<Vec>, leaves: seq<string>)
    requires Digests(a) && Digests(b) && Frontier(sha, a, b, DEPTH, leaves)
    ensures UnderAny(a, leaves) - UnderAny(b, leaves) == Found(sha, a, b)
    ensures UnderAny(b, leaves) - UnderAny(a, leaves) == Found(sha, b, a)
  {
    hide PathOf, Node;
    forall x | |x| == 32 ensures Reached(sha, a, b, PathOf(x)) <==> Reached(sha, b, a, PathOf(x)) {}
  }

  /** What the members of these leaves say, one request for all of them. */
  method DifferingMembers(local: MerkleTree, remote: MerkleTree, leaves: seq<string>)
    returns (missing: set<string>, extra: set<string>)
    requires local.Valid() && remote.Valid() && |leaves| <= MAX_PATHS
    requires Frontier(local.sha, local.members, remote.members, DEPTH, leaves)
    ensures missing == Names(Found(local.sha, local.members, remote.members))
    ensures extra == Names(Found(local.sha, remote.members, local.members))
  {
    hide Frontier, Names, Found, UnderAny, Cached, InBuckets, Under, Node;
    FrontierPaths(local.sha, local.members, remote.members, DEPTH, leaves);
    var theirs := remote.BucketsOf(leaves);
    missing, extra := {}, {};
    ghost var a, b := local.members, remote.members;
    NoLeaves(a, b, leaves);
    for j := 0 to |leaves|
      invariant missing == Names(UnderAny(a, leaves[..j]) - UnderAny(b, leaves[..j]))
      invariant extra == Names(UnderAny(b, leaves[..j]) - UnderAny(a, leaves[..j]))
    {
      var mine := local.Bucket(leaves[j]);
      DifferenceStep(a, b, leaves, j);
      DifferenceStep(b, a, leaves, j);
      missing := missing + (mine - theirs[leaves[j]]);
      extra := extra + (theirs[leaves[j]] - mine);
    }
    assert leaves[..|leaves|] == leaves;
    FoundUnder(local.sha, a, b, leaves);
  }

  lemma NoLeaves(a: set<Vec>, b: set<Vec>, leaves: seq<string>)
    requires Digests(a) && Digests(b)
    ensures Names(UnderAny(a, leaves[..0]) - UnderAny(b, leaves[..0])) == {}
    ensures Names(UnderAny(b, leaves[..0]) - UnderAny(a, leaves[..0])) == {}
  {}

  /** What a walk can find, and no more than 48 child hashes received for every differing digest; without
      collisions that is everything. */
  method Diff(local: MerkleTree, remote: MerkleTree)
    returns (missing: set<string>, extra: set<string>, ghost received: nat)
    requires local.Valid() && remote.Valid() && local != remote && local.sha == remote.sha
    modifies local`cache, remote`cache
    ensures local.Valid() && remote.Valid()
    ensures missing == Names(Found(local.sha, local.members, remote.members))
    ensures extra == Names(Found(local.sha, remote.members, local.members))
    ensures received <= 48 * |Delta(local.members, remote.members)|
    ensures NoCollisions(local.sha, local.members, remote.members)
            ==> missing == Names(local.members - remote.members) && extra == Names(remote.members - local.members)
  {
    hide Node, Names, Frontier, Cached, InBuckets, Under, Delta, Found, NoCollisions;
    if NoCollisions(local.sha, local.members, remote.members) {
      FoundAll(local.sha, local.members, remote.members);
    }
    var mine := local.Root();
    var theirs := remote.Root();
    received := 0;
    if mine == theirs {
      FoundNone(local.sha, local.members, remote.members);
      return {}, {}, 0;
    }
    var leaves: seq<string>;
    leaves, received := DifferingLeaves(local, remote);
    if leaves == [] {
      FoundUnder(local.sha, local.members, remote.members, leaves);
      NoLeaves(local.members, remote.members, leaves);
      return {}, {}, received;
    }
    missing, extra := DifferingMembers(local, remote, leaves);
  }

  lemma FoundNone(sha: Sha, a: set<Vec>, b: set<Vec>)
    requires Digests(a) && Digests(b) && Node(sha, a, "") == Node(sha, b, "")
    ensures Found(sha, a, b) == {} && Found(sha, b, a) == {}
    ensures Names(Found(sha, a, b)) == {} && Names(Found(sha, b, a)) == {}
  {
    hide Node, PathOf;
    forall x | x in a + b ensures !Reached(sha, a, b, PathOf(x)) && !Reached(sha, b, a, PathOf(x)) {
      assert PathOf(x)[..0] == "";
    }
  }
}
