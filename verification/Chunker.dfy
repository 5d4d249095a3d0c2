/** Content-defined chunking of a stream. */
module Chunker {
  import opened LinearAlgebra
  import opened BinaryPolynomials
  import opened Rabin
  import opened Sequences

  /** The chunker's parameters. */
  datatype Limits = Limits(minSize: nat, maxSize: nat, bits: nat)

  predicate ValidLimits(l: Limits) {
    0 < l.minSize < l.maxSize
  }

  function Cut(buf: Vec, l: Limits, eof: bool): nat {
    Boundary(buf, l.minSize, l.maxSize, l.bits, eof)
  }

  // ---------------------------------------------------------------- cuts

  /** A position at which chunk may end: it hits, and nothing of at least minSize before it does. */
  ghost predicate FirstCut(buf: Vec, l: Limits, cut: nat) {
    0 < cut <= |buf| && cut <= l.maxSize
    && (cut < |buf| ==> cut >= l.minSize)
    && (l.minSize <= cut < |buf| && cut < l.maxSize ==> Hit(buf, StartOf(l.minSize), cut, l.bits))
    && forall e :: l.minSize <= e < cut && StartOf(l.minSize) < e ==> !Hit(buf, StartOf(l.minSize), e, l.bits)
  }

  lemma CutIsFirst(buf: Vec, l: Limits, eof: bool)
    requires ValidLimits(l) && buf != [] && (eof || |buf| >= l.maxSize)
    ensures FirstCut(buf, l, Cut(buf, l, eof))
  {
    hide Hit, FirstHit;
    if |buf| > l.minSize {
      var limit := if |buf| < l.maxSize then |buf| else l.maxSize;
      FirstHitIsFirst(buf, l.minSize, StartOf(l.minSize) + 1, limit, l.bits);
    }
  }

  /** The search looks at the first maxSize bytes only. */
  lemma {:induction false} FirstHitPrefix(p: Vec, t: Vec, minSize: nat, end: nat, limit: nat, bits: nat)
    requires StartOf(minSize) <= end && limit <= |p|
    ensures FirstHit(p + t, minSize, end, limit, bits) == FirstHit(p, minSize, end, limit, bits)
    decreases limit + 1 - end
  {
    hide Hit;
    if end <= limit {
      HitPrefix(p, t, StartOf(minSize), end, bits);
      FirstHitPrefix(p, t, minSize, end + 1, limit, bits);
    }
  }

  lemma HitPrefix(p: Vec, t: Vec, start: nat, end: nat, bits: nat)
    requires start <= end <= |p|
    ensures Hit(p + t, start, end, bits) == Hit(p, start, end, bits)
  {
    assert (p + t)[start..end] == p[start..end];
    hide Fingerprint, Pow2;
  }

  lemma CutPrefix(p: Vec, t: Vec, l: Limits)
    requires ValidLimits(l) && |p| >= l.maxSize
    ensures Cut(p, l, false) == Cut(p + t, l, true)
  {
    hide FirstHit;
    FirstHitPrefix(p, t, l.minSize, StartOf(l.minSize) + 1, l.maxSize, l.bits);
  }

  // ---------------------------------------------------------------- chunking a whole input

  function Chunks(data: Vec, l: Limits): (r: seq<Vec>)
    requires ValidLimits(l)
    decreases |data|
  {
    if data == [] then []
    else
      CutIsFirst(data, l, true);
      var cut := Cut(data, l, true);
      [data[..cut]] + Chunks(data[cut..], l)
  }

  lemma ChunksNext(data: Vec, l: Limits) returns (cut: nat)
    requires ValidLimits(l) && data != []
    ensures 0 < cut <= |data| && cut == Cut(data, l, true)
    ensures Chunks(data, l) == [data[..cut]] + Chunks(data[cut..], l)
  {
    hide Cut;
    CutIsFirst(data, l, true);
    cut := Cut(data, l, true);
  }

  lemma JoinNothing()
    ensures forall none: seq<Vec> :: none == [] ==> Join(none) == []
  {}

  lemma JoinNext(first: Vec, rest: seq<Vec>)
    ensures Join([first] + rest) == first + Join(rest)
  {
    assert ([first] + rest)[1..] == rest;
  }

  /** Chunking loses and invents nothing. */
  lemma {:induction false} ChunksJoin(data: Vec, l: Limits)
    requires ValidLimits(l)
    ensures Join(Chunks(data, l)) == data
    decreases |data|
  {
    if data == [] {
      JoinNothing();
    } else {
      hide Cut, Chunks, Join;
      var cut := ChunksNext(data, l);
      ChunksJoin(data[cut..], l);
      JoinNext(data[..cut], Chunks(data[cut..], l));
      assert data[..cut] + data[cut..] == data;
    }
  }

  /** Every chunk has at least minSize bytes but the last, which is not empty; none exceeds maxSize. */
  lemma {:induction false} ChunkSizes(data: Vec, l: Limits, i: nat)
    requires ValidLimits(l) && i < |Chunks(data, l)|
    ensures 0 < |Chunks(data, l)[i]| <= l.maxSize
    ensures i < |Chunks(data, l)| - 1 ==> |Chunks(data, l)[i]| >= l.minSize
    decreases |data|
  {
    hide Cut, Hit;
    CutIsFirst(data, l, true);
    var cut := Cut(data, l, true);
    if i == 0 {
      assert cut == |data| ==> data[cut..] == [];
    } else {
      ChunkSizes(data[cut..], l, i - 1);
    }
  }

  /** Position p is the end of one of the chunks of data, or its start. */
  predicate IsCut(data: Vec, l: Limits, p: nat)
    requires ValidLimits(l)
    decreases |data|
  {
    p == 0
    || (data != []
        && (CutIsFirst(data, l, true);
            var cut := Cut(data, l, true);
            p >= cut && IsCut(data[cut..], l, p - cut)))
  }

  /** From a cut on, the chunks are those of the rest alone. */
  lemma {:induction false} ChunksFromCut(data: Vec, l: Limits, p: nat) returns (before: seq<Vec>)
    requires ValidLimits(l) && p <= |data| && IsCut(data, l, p)
    ensures Chunks(data, l) == before + Chunks(data[p..], l) && Join(before) == data[..p]
    decreases |data|
  {
    hide Cut, Chunks, Join, IsCut, ValidLimits;
    if p == 0 {
      before := [];
      JoinNothing();
      assert data[0..] == data && data[..0] == [];
    } else {
      var cut := FirstChunk(data, l, p);
      var rest := ChunksFromCut(data[cut..], l, p - cut);
      before := [data[..cut]] + rest;
      CutTwice(data, cut, p);
      JoinNext(data[..cut], rest);
      Regroup([data[..cut]], rest, Chunks(data[p..], l));
    }
  }

  /** The first chunk ends at or before any later cut. */
  lemma FirstChunk(data: Vec, l: Limits, p: nat) returns (cut: nat)
    requires ValidLimits(l) && 0 < p <= |data| && IsCut(data, l, p)
    ensures 0 < cut <= p && IsCut(data[cut..], l, p - cut)
    ensures Chunks(data, l) == [data[..cut]] + Chunks(data[cut..], l)
  {
    hide Cut, Chunks;
    CutIsFirst(data, l, true);
    cut := ChunksNext(data, l);
  }

  lemma CutTwice(data: Vec, cut: nat, p: nat)
    requires cut <= p <= |data|
    ensures data[cut..][p - cut..] == data[p..] && data[..cut] + data[cut..][..p - cut] == data[..p]
  {}

  lemma Regroup(a: seq<Vec>, b: seq<Vec>, c: seq<Vec>)
    ensures a + (b + c) == (a + b) + c
  {}

  /** Two inputs that share a suffix starting at a cut of both have the same chunks from there on. */
  lemma SharedSuffix(x: Vec, y: Vec, suffix: Vec, l: Limits) returns (a: seq<Vec>, b: seq<Vec>)
    requires ValidLimits(l) && IsCut(x + suffix, l, |x|) && IsCut(y + suffix, l, |y|)
    ensures Chunks(x + suffix, l) == a + Chunks(suffix, l) && Chunks(y + suffix, l) == b + Chunks(suffix, l)
    ensures Join(a) == x && Join(b) == y
  {
    hide Chunks, IsCut, Join;
    a := ChunksFromCut(x + suffix, l, |x|);
    b := ChunksFromCut(y + suffix, l, |y|);
    assert (x + suffix)[|x|..] == suffix && (y + suffix)[|y|..] == suffix;
    assert (x + suffix)[..|x|] == x && (y + suffix)[..|y|] == y;
  }

  // ---------------------------------------------------------------- chunking a stream

  /** A stream that hands out its data in pieces of any size. */
  class Reader {
    const data: Vec
    var pos: nat

    constructor (data: Vec)
      ensures this.data == data && pos == 0
    {
      this.data, this.pos := data, 0;
    }

    /** At most n bytes; nothing only at the end or when nothing is asked for. */
    method Read(n: nat) returns (more: Vec)
      requires pos <= |data|
      modifies this
      ensures old(pos) <= pos <= |data| && more == data[old(pos)..pos] && |more| <= n
      ensures n > 0 && old(pos) < |data| ==> more != []
    {
      var left := |data| - pos;
      var limit := if n < left then n else left;
      var count :| 0 <= count <= limit && (limit > 0 ==> count > 0);
      more := data[pos..pos + count];
      pos := pos + count;
    }
  }

  class StreamChunker {
    const limits: Limits
    const outTable: seq<nat>
    const modTable: seq<nat>

    ghost predicate Valid() {
      ValidLimits(limits) && TablesOk(outTable, modTable)
    }

    constructor (limits: Limits, outTable: seq<nat>, modTable: seq<nat>)
      requires ValidLimits(limits) && TablesOk(outTable, modTable)
      ensures Valid() && this.limits == limits
    {
      this.limits, this.outTable, this.modTable := limits, outTable, modTable;
    }

    /** Fill the buffer up to readSize bytes or the end of the stream. */
    method Fill(f: Reader, buf: Vec, readSize: nat) returns (full: Vec, eof: bool)
      requires f.pos <= |f.data|
      modifies f
      ensures f.pos <= |f.data| && full + f.data[f.pos..] == buf + old(f.data[f.pos..])
      ensures eof ==> f.pos == |f.data|
      ensures !eof ==> |full| >= readSize
    {
      full, eof := buf, false;
      while !eof && |full| < readSize
        invariant f.pos <= |f.data| && full + f.data[f.pos..] == buf + old(f.data[f.pos..])
        invariant eof ==> f.pos == |f.data|
        decreases |f.data| - f.pos, !eof
      {
        ghost var at := f.pos;
        var more := f.Read(readSize - |full|);
        if more == [] {
          eof := true;
        } else {
          assert f.data[at..] == more + f.data[f.pos..];
          full := full + more;
        }
      }
    }

    /** Chunks of a stream, whatever the sizes in which it is read. */
    method Split(f: Reader, readSize: nat) returns (chunks: seq<Vec>)
      requires Valid() && f.pos == 0
      modifies f
      ensures chunks == Chunks(f.data, limits) && f.pos == |f.data|
    {
      hide Chunks, Cut, TablesOk;
      var size := if readSize < 2 * limits.maxSize then 2 * limits.maxSize else readSize;
      var buf: Vec, pos, eof := [], 0, false;
      chunks := [];
      ghost var rest := f.data;
      assert f.data[0..] == f.data;
      while true
        invariant 0 <= pos <= |buf| && f.pos <= |f.data| && (eof ==> f.pos == |f.data|)
        invariant rest == buf[pos..] + f.data[f.pos..]
        invariant Chunks(f.data, limits) == chunks + Chunks(rest, limits)
        decreases |rest|
      {
        if !eof && |buf| - pos < limits.maxSize {
          buf := buf[pos..];
          pos := 0;
          buf, eof := Fill(f, buf, size);
          assert buf[0..] == buf;
        }
        if pos >= |buf| {
          assert rest == [];
          NoChunks(limits);
          return;
        }
        assert eof ==> rest == buf[pos..];
        NextChunk(buf[pos..], f.data[f.pos..], limits, eof);
        var cut := NextBoundary(outTable, modTable, buf[pos..], limits.minSize, limits.maxSize, limits.bits, eof);
        CutValue(buf[pos..], limits, eof);
        assert buf[pos..][..cut] == buf[pos..pos + cut];
        chunks := chunks + [buf[pos..pos + cut]];
        pos := pos + cut;
        rest := buf[pos..] + f.data[f.pos..];
      }
    }
  }

  lemma NoChunks(l: Limits)
    requires ValidLimits(l)
    ensures Chunks([], l) == []
  {}

  lemma CutValue(buf: Vec, l: Limits, eof: bool)
    ensures Cut(buf, l, eof) == Boundary(buf, l.minSize, l.maxSize, l.bits, eof)
  {}

  /** With maxSize bytes in hand, or all of them, the next chunk is that of the whole rest. */
  lemma NextChunk(p: Vec, t: Vec, l: Limits, eof: bool)
    requires ValidLimits(l) && p != [] && (if eof then t == [] else |p| >= l.maxSize)
    ensures var cut := Cut(p, l, eof);
            0 < cut <= |p| && Chunks(p + t, l) == [p[..cut]] + Chunks(p[cut..] + t, l)
  {
    hide Cut;
    CutIsFirst(p, l, eof);
    if eof {
      assert p + t == p;
    } else {
      CutPrefix(p, t, l);
    }
    var cut := Cut(p, l, eof);
    assert (p + t)[..cut] == p[..cut] && (p + t)[cut..] == p[cut..] + t;
  }
}
