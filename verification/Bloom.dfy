/** The Bloom filter in front of the chunk index. */
module Bloom {
  import opened GF256
  import opened LinearAlgebra
  import opened ShardFile

  /** Double hashing: probe i is h1 + i * h2 modulo the number of bits, h2 made odd. */
  function Probe(digest: Vec, m: nat, i: nat): (p: nat)
    requires |digest| >= 16 && m > 0
    ensures p < m
  {
    var h1, h2 := UnLe(digest[..8]), UnLe(digest[8..16]);
    (h1 + i * (if h2 % 2 == 0 then h2 + 1 else h2)) % m
  }

  /** With the first sixteen bytes of the digest read as two little-endian numbers, probes start at the first and
      advance by the second, or by the next number if that is even. */
  lemma ProbeOf(digest: Vec, m: nat, i: nat, h1: nat, h2: nat)
    requires |digest| >= 16 && m > 0 && h1 < Pow256(8) && h2 < Pow256(8)
    requires digest[..16] == Le(h1, 8) + Le(h2, 8)
    ensures Probe(digest, m, i) == (h1 + i * (2 * (h2 / 2) + 1)) % m
  {
    hide Le, UnLe, Pow256;
    LeadingNumbers(digest, h1, h2);
    OddStep(h2);
    var step := 2 * (h2 / 2) + 1;
    assert Probe(digest, m, i) == (h1 + i * step) % m;
  }

  lemma OddStep(h2: nat)
    ensures 2 * (h2 / 2) + 1 == if h2 % 2 == 0 then h2 + 1 else h2
  {}

  lemma LeadingNumbers(digest: Vec, h1: nat, h2: nat)
    requires |digest| >= 16 && h1 < Pow256(8) && h2 < Pow256(8) && digest[..16] == Le(h1, 8) + Le(h2, 8)
    ensures UnLe(digest[..8]) == h1 && UnLe(digest[8..16]) == h2
  {
    hide Le, UnLe, Pow256;
    assert digest[..8] == digest[..16][..8] == Le(h1, 8);
    assert digest[8..16] == digest[..16][8..] == Le(h2, 8);
    LeRoundTrip(h1, 8);
    LeRoundTrip(h2, 8);
  }

  /** What is saved on disk. */
  datatype Saved = Saved(m: nat, k: nat, bits: seq<bool>, count: nat)

  predicate Positive(s: Saved, digest: Vec)
    requires |digest| >= 16 && s.m > 0 && |s.bits| == s.m
  {
    forall i: nat :: i < s.k ==> s.bits[Probe(digest, s.m, i)]
  }

  ghost predicate AllDigests(s: set<Vec>) {
    forall d :: d in s ==> |d| >= 16
  }

  /** Bit p is one of the k probes of one of these digests. */
  ghost predicate ProbedBy(members: set<Vec>, m: nat, k: nat, p: nat)
    requires m > 0 && AllDigests(members)
  {
    exists d, i: nat :: d in members && i < k && Probe(d, m, i) == p
  }

  class BloomFilter {
    const m: nat
    const k: nat
    const bits: array<bool>
    var count: nat
    /** Everything added so far. */
    ghost var members: set<Vec>

    ghost predicate Valid()
      reads this, bits
    {
      m > 0 && bits.Length == m && AllDigests(members)
      && (forall d, i: nat :: d in members && i < k ==> bits[Probe(d, m, i)])
      && forall p :: 0 <= p < m && bits[p] ==> ProbedBy(members, m, k, p)
    }

    /** What saving the filter writes. */
    function Save(): (s: Saved)
      reads this, bits
      requires bits.Length == m
      ensures |s.bits| == s.m
    {
      Saved(m, k, bits[..], count)
    }

    constructor (m: nat, k: nat)
      requires m > 0
      ensures Valid() && fresh(bits) && this.m == m && this.k == k && members == {} && count == 0
    {
      this.m, this.k := m, k;
      bits := new bool[m](_ => false);
      count, members := 0, {};
    }

    method Add(digest: Vec)
      requires Valid() && |digest| >= 16
      modifies this, bits
      ensures Valid() && members == old(members) + {digest} && count == old(count) + 1
      ensures forall index :: old(Reported(this, index)) ==> Reported(this, index + {digest})
    {
      hide Probe;
      members := members + {digest};
      for i := 0 to k
        invariant members == old(members) + {digest} && count == old(count)
        invariant forall d, j: nat :: d in old(members) && j < k ==> bits[Probe(d, m, j)]
        invariant forall j: nat :: j < i ==> bits[Probe(digest, m, j)]
        invariant forall p :: 0 <= p < m && bits[p] ==> ProbedBy(members, m, k, p)
      {
        var p := Probe(digest, m, i);
        bits[p] := true;
        assert ProbedBy(members, m, k, p);
      }
      count := count + 1;
      forall index | old(Reported(this, index))
        ensures Reported(this, index + {digest})
      {
        ProbedMore(old(members), m, k, index, {digest});
      }
    }

    /** A negative answer is definitive. */
    method MightContain(digest: Vec) returns (hit: bool)
      requires Valid() && |digest| >= 16
      ensures hit <==> forall i: nat :: i < k ==> ProbedBy(members, m, k, Probe(digest, m, i))
      ensures digest in members ==> hit
    {
      hide Probe;
      for i := 0 to k
        invariant forall j: nat :: j < i ==> ProbedBy(members, m, k, Probe(digest, m, j))
      {
        var p := Probe(digest, m, i);
        if !bits[p] {
          return false;
        }
      }
      return true;
    }
  }

  // ---------------------------------------------------------------- reloading

  /** A saved filter is taken over if it counts as many items as the index has. */
  predicate TakenOver(s: Saved, index: set<Vec>) {
    s.count == |index|
  }

  /** Every chunk of the index is reported. */
  ghost predicate Covers(s: Saved, index: set<Vec>)
    requires s.m > 0 && |s.bits| == s.m && AllDigests(index)
  {
    forall d :: d in index ==> Positive(s, d)
  }

  /** Every probe of every chunk of the index is a probe of something that was added. */
  ghost predicate AllProbed(members: set<Vec>, m: nat, k: nat, index: set<Vec>)
    requires m > 0 && AllDigests(members) && AllDigests(index)
  {
    forall d, i: nat :: d in index && i < k ==> ProbedBy(members, m, k, Probe(d, m, i))
  }

  lemma ProbedFewer(members: set<Vec>, m: nat, k: nat, index: set<Vec>, fewer: set<Vec>)
    requires m > 0 && AllDigests(members) && AllDigests(index) && fewer <= index && AllProbed(members, m, k, index)
    ensures AllDigests(fewer) && AllProbed(members, m, k, fewer)
  {
    hide Probe, ProbedBy;
  }

  /** More is probed after more was added. */
  lemma ProbedMore(members: set<Vec>, m: nat, k: nat, index: set<Vec>, more: set<Vec>)
    requires m > 0 && AllDigests(members) && AllDigests(index) && AllDigests(more) && AllProbed(members, m, k, index)
    ensures AllDigests(members + more) && AllDigests(index + more) && AllProbed(members + more, m, k, index + more)
  {
    hide Probe;
    forall d, i: nat | d in index + more && i < k
      ensures ProbedBy(members + more, m, k, Probe(d, m, i))
    {
      if d in index {
        assert ProbedBy(members, m, k, Probe(d, m, i));
      }
    }
  }

  /** The filter answers yes for every chunk of the index. */
  ghost predicate Reported(f: BloomFilter, index: set<Vec>)
    reads f
  {
    f.m > 0 && AllDigests(f.members) && AllDigests(index) && AllProbed(f.members, f.m, f.k, index)
  }

  lemma ReportedFewer(f: BloomFilter, index: set<Vec>, fewer: set<Vec>)
    requires Reported(f, index) && fewer <= index
    ensures Reported(f, fewer)
  {
    hide AllProbed;
    ProbedFewer(f.members, f.m, f.k, index, fewer);
  }

  lemma NothingReported(f: BloomFilter)
    requires f.Valid()
    ensures Reported(f, {})
  {
    hide Probe;
    NothingProbed(f.members, f.m, f.k);
  }

  lemma NothingProbed(members: set<Vec>, m: nat, k: nat)
    requires m > 0 && AllDigests(members)
    ensures AllDigests({}) && AllProbed(members, m, k, {})
  {}

  /** Whether it is taken over or not, a saved filter reports all chunks that the index has now if and
      only if each of their probes was set by something added before. Having added them all is enough. */
  lemma SavedCovers(f: BloomFilter, index: set<Vec>)
    requires f.Valid() && AllDigests(index)
    ensures Covers(f.Save(), index) <==> AllProbed(f.members, f.m, f.k, index)
    ensures index <= f.members ==> Covers(f.Save(), index)
  {
    hide Probe;
    var s := f.Save();
    forall d, i: nat | d in index && i < f.k
      ensures s.bits[Probe(d, f.m, i)] <==> ProbedBy(f.members, f.m, f.k, Probe(d, f.m, i))
    {}
  }

  function Digest(first: Byte): (d: Vec)
    ensures |d| == 32
  {
    [first] + Zeros(31)
  }

  /** The filter of a database that held one chunk, saved, is taken over after that chunk was replaced
      by another one, and then denies the chunk that the index has: for any filter of k < m probes. */
  method TakenOverIsNotEnough(m: nat, k: nat) returns (f: BloomFilter, index: set<Vec>)
    requires 0 < k < m
    ensures fresh(f) && f.Valid() && f.m == m && f.k == k && f.members == {Digest(0)}
    ensures AllDigests(index)
    ensures TakenOver(f.Save(), index) && !Covers(f.Save(), index) && !AllProbed(f.members, f.m, f.k, index)
  {
    hide Probe;
    f := new BloomFilter(m, k);
    f.Add(Digest(0));
    index := {Digest(1)};
    FirstProbes(0, m, k);
    FirstProbes(1, m, k);
    assert !ProbedBy(f.members, f.m, f.k, Probe(Digest(1), m, k - 1));
    SavedCovers(f, index);
  }

  /** The probes of such a digest are consecutive. */
  lemma FirstProbes(first: Byte, m: nat, k: nat)
    requires first < 2 && 0 < k < m
    ensures forall i: nat :: i < k ==> Probe(Digest(first), m, i) == first as nat + i
  {
    var d := Digest(first);
    assert d[..8] == [first] + Zeros(7);
    ZeroNumber(7);
    assert ([first] + Zeros(7))[1..] == Zeros(7);
    assert d[8..16] == Zeros(8);
    ZeroNumber(8);
    assert UnLe(d[..8]) == first as nat && UnLe(d[8..16]) == 0;
    forall i: nat | i < k
      ensures Probe(Digest(first), m, i) == first as nat + i
    {
      assert first as nat + i < m;
    }
  }

  lemma {:induction false} ZeroNumber(n: nat)
    ensures UnLe(Zeros(n)) == 0
  {
    if n != 0 {
      ZeroNumber(n - 1);
      assert Zeros(n)[1..] == Zeros(n - 1);
    }
  }
}
