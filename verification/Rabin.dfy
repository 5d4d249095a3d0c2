/** The rolling Rabin fingerprint: table updates against polynomial remainders, and the
    boundary search against its definition on the 64 bytes before each position. */
module Rabin {
  import opened GF256
  import opened LinearAlgebra
  import opened BinaryPolynomials
  import opened PolynomialProducts

  const POLYNOMIAL: nat := 0x3DA3358B4DC173
  const DEGREE: nat := 53
  const WINDOW: nat := 64

  lemma PolynomialDegree()
    ensures Deg(POLYNOMIAL) == DEGREE
  {
    PowerValues();
    DegUnique(POLYNOMIAL, 53);
    DegUnique(POLYNOMIAL, 54);
  }

  lemma PowerValues()
    ensures Pow2(8) == 256 && Pow2(53) == 0x20_0000_0000_0000 && Pow2(54) == 0x40_0000_0000_0000
    ensures Pow2(61) == 256 * Pow2(53) && Pow2(64) == 0x1_0000_0000_0000_0000
  {
    SmallPowers();
    assert Pow2(54) == 2 * Pow2(53);
    hide Pow2;
    PowerSum(16, 16);
    PowerSum(32, 16);
    PowerSum(48, 5);
    PowerSum(53, 8);
    PowerSum(32, 32);
  }

  lemma SmallPowers()
    ensures Pow2(5) == 32 && Pow2(8) == 256 && Pow2(16) == 65536
  {
    assert Pow2(8) == 256;
    PowerSum(8, 8);
  }

  lemma {:induction false} PowerSum(m: nat, n: nat)
    ensures Pow2(m + n) == Pow2(m) * Pow2(n)
  {
    if n != 0 {
      PowerSum(m, n - 1);
      assert Pow2(m + n) == 2 * Pow2(m + n - 1);
      assert Pow2(m) * (2 * Pow2(n - 1)) == 2 * (Pow2(m) * Pow2(n - 1));
    }
  }

  // ---------------------------------------------------------------- remainders

  /** The division loop: while the degree is not below that of p, cancel the top bit. */
  method ModLoop(x: nat, p: nat) returns (r: nat)
    requires p != 0
    ensures r == Mod(x, p)
  {
    hide Xor, Shl, Mod;
    r := x;
    while r != 0 && Deg(r) >= Deg(p)
      invariant Mod(r, p) == Mod(x, p)
      decreases Deg(r) + 1
    {
      ModStep(r, p);
      r := Xor(r, Shl(p, Deg(r) - Deg(p)));
    }
    ModSmall(r, p);
  }

  /** Bytes as a polynomial, most significant byte first. */
  function Value(w: Vec): nat {
    if w == [] then 0 else Xor(Shl(Value(w[..|w| - 1]), 8), w[|w| - 1] as nat)
  }

  lemma {:induction false} ValueHead(b: Byte, w: Vec)
    ensures Value([b] + w) == Xor(Shl(b as nat, 8 * |w|), Value(w))
  {
    hide Xor;
    if w == [] {
      assert ([b] + w)[..0] == [];
      XorZero(b as nat);
      assert Value([b]) == Xor(Shl(Value([]), 8), b as nat) by { assert [b][..0] == []; }
      ShlZero(8);
    } else {
      var front, last := w[..|w| - 1], w[|w| - 1] as nat;
      assert ([b] + w)[..|w|] == [b] + front;
      ValueHead(b, front);
      XorShift(Shl(b as nat, 8 * |front|), Value(front), 8);
      ShlSum(b as nat, 8 * |front|, 8);
      XorAssoc(Shl(b as nat, 8 * |w|), Shl(Value(front), 8), last);
    }
  }

  // ---------------------------------------------------------------- tables

  method AppendByte(h: nat, b: Byte) returns (r: nat)
    ensures r == Mod(Xor(Shl(h, 8), b as nat), POLYNOMIAL)
  {
    PowerValues();
    XorDisjoint(h, b as nat, 8);
    r := ModLoop(Shl(h, 8) + b as nat, POLYNOMIAL);
  }

  /** What a byte that leaves the window contributed to the digest. */
  function OutEntry(b: Byte): nat {
    Mod(Shl(b as nat, 8 * (WINDOW - 1)), POLYNOMIAL)
  }

  /** Clears the bits above the degree and adds their remainder. */
  function ModEntry(b: nat): nat {
    Xor(Mod(Shl(b, DEGREE), POLYNOMIAL), Shl(b, DEGREE))
  }

  /** Both tables, entry by entry. */
  method BuildTables() returns (outTable: seq<nat>, modTable: seq<nat>)
    ensures TablesOk(outTable, modTable)
  {
    hide Mod, Xor, Shl, OutEntry, ModEntry;
    outTable, modTable := [], [];
    for b := 0 to 256
      invariant |outTable| == b && |modTable| == b
      invariant forall c: Byte :: c as int < b ==> outTable[c] == OutEntry(c) && modTable[c] == ModEntry(c as nat)
    {
      var h := OutLoop(b);
      var m := ModLoopEntry(b);
      outTable, modTable := outTable + [h], modTable + [m];
    }
  }

  ghost predicate TablesOk(outTable: seq<nat>, modTable: seq<nat>) {
    |outTable| == 256 && |modTable| == 256
    && forall b: Byte :: outTable[b] == OutEntry(b) && modTable[b] == ModEntry(b as nat)
  }

  method ModLoopEntry(b: nat) returns (m: nat)
    ensures m == ModEntry(b)
  {
    hide Mod, Xor, Shl;
    var hb := Shl(b, DEGREE);
    var rest := ModLoop(hb, POLYNOMIAL);
    ModEntryDisjoint(b);
    m := rest + hb;
  }

  method OutLoop(b: Byte) returns (h: nat)
    ensures h == OutEntry(b)
  {
    hide Mod, Xor, Shl, Pow2, Deg;
    h := AppendByte(0, b);
    ShlZero(8);
    XorZero(b as nat);
    Shift0(b as nat);
    for i := 0 to WINDOW - 1
      invariant h == Mod(Shl(b as nat, 8 * i), POLYNOMIAL)
    {
      AppendZero(b as nat, i);
      h := AppendByte(h, 0);
    }
  }

  lemma AppendZero(b: nat, i: nat)
    ensures Mod(Xor(Shl(Mod(Shl(b, 8 * i), POLYNOMIAL), 8), 0), POLYNOMIAL) == Mod(Shl(b, 8 * (i + 1)), POLYNOMIAL)
  {
    hide Mod, Xor, Shl;
    XorZero(Shl(Mod(Shl(b, 8 * i), POLYNOMIAL), 8));
    ModShift(Shl(b, 8 * i), POLYNOMIAL, 8);
    ShlSum(b, 8 * i, 8);
  }

  lemma Shift0(a: nat)
    ensures Shl(a, 0) == a
  {}

  /** The two parts of an entry do not overlap, so joining them with "or" is addition. */
  lemma ModEntryDisjoint(b: nat)
    ensures ModEntry(b) == Mod(Shl(b, DEGREE), POLYNOMIAL) + Shl(b, DEGREE)
  {
    hide Mod, Xor, Shl, Deg;
    var rest := Mod(Shl(b, DEGREE), POLYNOMIAL);
    PolynomialDegree();
    DegUnique(rest, DEGREE);
    XorComm(rest, Shl(b, DEGREE));
    XorDisjoint(b, rest, DEGREE);
  }

  // ---------------------------------------------------------------- one step

  /** The fingerprint of a window. */
  function Fingerprint(w: Vec): nat {
    Mod(Value(w), POLYNOMIAL)
  }

  lemma FingerprintSmall(w: Vec)
    ensures Fingerprint(w) < Pow2(DEGREE)
  {
    hide Mod, Value, Deg;
    PolynomialDegree();
    DegUnique(Fingerprint(w), DEGREE);
  }

  /** Removing the oldest byte through the table. */
  lemma RemoveOldest(w: Vec)
    requires |w| == WINDOW
    ensures Xor(Fingerprint(w), OutEntry(w[0])) == Fingerprint(w[1..])
  {
    hide Mod, Xor, Shl, Value;
    assert w == [w[0]] + w[1..];
    ValueHead(w[0], w[1..]);
    ModAdd(Shl(w[0] as nat, 8 * (WINDOW - 1)), Value(w[1..]), POLYNOMIAL);
    XorComm(OutEntry(w[0]), Fingerprint(w[1..]));
    XorCancel(Fingerprint(w[1..]), OutEntry(w[0]));
  }

  /** Appending a byte to a digest, before reduction. */
  lemma AppendNewest(w: Vec, b: Byte)
    ensures Fingerprint(w + [b]) == Mod(Xor(Shl(Fingerprint(w), 8), b as nat), POLYNOMIAL)
  {
    hide Mod, Xor, Shl;
    assert (w + [b])[..|w|] == w;
    ModAdd(Shl(Value(w), 8), b as nat, POLYNOMIAL);
    ModAdd(Shl(Fingerprint(w), 8), b as nat, POLYNOMIAL);
    ModShift(Value(w), POLYNOMIAL, 8);
  }

  /** Append b to a digest in 64-bit arithmetic and reduce through the table. */
  function Rolled(d: nat, b: Byte): nat {
    Xor((256 * d + b as nat) % Pow2(64), ModEntry(d / Pow2(DEGREE - 8) % 256))
  }

  /** Splitting y at the degree and reducing the high part through the table. */
  lemma ReduceSplit(index: nat, low: nat)
    requires low < Pow2(DEGREE)
    ensures Xor(Shl(index, DEGREE) + low, ModEntry(index)) == Mod(Shl(index, DEGREE) + low, POLYNOMIAL)
  {
    hide Mod, Xor, Shl, Deg, Pow2;
    var high := Shl(index, DEGREE);
    var rest := Mod(high, POLYNOMIAL);
    XorDisjoint(index, low, DEGREE);
    XorComm(high, low);
    XorComm(rest, high);
    XorAssoc(Xor(low, high), high, rest);
    XorCancel(low, high);
    ModAdd(low, high, POLYNOMIAL);
    PolynomialDegree();
    DegUnique(low, DEGREE);
    ModSmall(low, POLYNOMIAL);
  }

  lemma ReduceByTable(d: nat, b: Byte)
    requires d < Pow2(DEGREE)
    ensures Rolled(d, b) == Mod(Xor(Shl(d, 8), b as nat), POLYNOMIAL)
  {
    hide Mod, Xor, Shl, Deg, Pow2;
    PowerValues();
    SplitDigest(d, b);
    var index := d / Pow2(DEGREE - 8);
    var y := 256 * d + b as nat;
    ReduceSplit(index, y - Shl(index, DEGREE));
    XorDisjoint(d, b as nat, 8);
    ShlValue(d, 8);
    SmallMod(y, Pow2(64));
    SmallMod(index, 256);
  }

  lemma SmallMod(a: nat, m: nat)
    requires a < m
    ensures a % m == a
  {}

  lemma SplitDigest(d: nat, b: Byte)
    requires d < Pow2(DEGREE)
    ensures var index, y := d / Pow2(DEGREE - 8), 256 * d + b as nat;
            index < 256 && Shl(index, DEGREE) <= y < Shl(index, DEGREE) + Pow2(DEGREE) && y < Pow2(64)
  {
    hide Shl, Pow2;
    PowerValues();
    PowerSum(45, 8);
    var q := Pow2(45);
    ShlValue(d / q, DEGREE);
    DivideBy(d, q);
    assert Pow2(53) == 256 * q;
    TimesBlock(d / q, q);
  }

  lemma TimesBlock(a: nat, q: nat)
    ensures a * (256 * q) == 256 * (a * q)
  {}

  lemma DivideBy(d: nat, q: nat)
    requires q > 0
    ensures (d / q) * q <= d < (d / q) * q + q && (d < 256 * q ==> d / q < 256)
  {
    assert d == (d / q) * q + d % q;
    if d < 256 * q && d / q >= 256 {
      MulBlock(d / q, q);
    }
  }

  lemma MulBlock(a: nat, q: nat)
    requires a >= 256
    ensures a * q >= 256 * q
  {}

  /** One step of the rolling update: out goes the oldest byte, in comes b. */
  lemma RollStep(w: Vec, b: Byte)
    requires |w| == WINDOW
    ensures Rolled(Xor(Fingerprint(w), OutEntry(w[0])), b) == Fingerprint(w[1..] + [b])
  {
    hide Xor, Shl, Fingerprint, OutEntry, Rolled, Pow2;
    RemoveOldest(w);
    FingerprintSmall(w[1..]);
    ReduceByTable(Fingerprint(w[1..]), b);
    AppendNewest(w[1..], b);
  }

  // ---------------------------------------------------------------- boundaries

  /** The last 64 bytes read when the digest starts at start, zero-padded. */
  function Window(buf: Vec, start: nat, end: nat): (w: Vec)
    requires start <= end <= |buf|
    ensures |w| == WINDOW
  {
    var padded := Zeros(WINDOW) + buf[start..end];
    padded[|padded| - WINDOW..]
  }

  lemma WindowStep(buf: Vec, start: nat, end: nat)
    requires start <= end < |buf|
    ensures Window(buf, start, end + 1) == Window(buf, start, end)[1..] + [buf[end]]
  {
    assert buf[start..end + 1] == buf[start..end] + [buf[end]];
  }

  lemma WindowFull(buf: Vec, start: nat, end: nat)
    requires start <= end <= |buf| && end - start >= WINDOW
    ensures Window(buf, start, end) == buf[end - WINDOW..end]
  {}

  /** The low bits of the digest at this position are zero. */
  predicate Hit(buf: Vec, start: nat, end: nat, bits: nat)
    requires start <= end <= |buf|
  {
    Fingerprint(Window(buf, start, end)) % Pow2(bits) == 0
  }

  function StartOf(minSize: nat): nat {
    if minSize > WINDOW then minSize - WINDOW else 0
  }

  /** With a minimum of at least 64 a cut depends only on the 64 bytes before it. */
  lemma CutIsLocal(buf: Vec, minSize: nat, end: nat, bits: nat)
    requires WINDOW <= minSize <= end <= |buf|
    ensures Hit(buf, StartOf(minSize), end, bits) <==> Fingerprint(buf[end - WINDOW..end]) % Pow2(bits) == 0
  {
    WindowFull(buf, StartOf(minSize), end);
  }

  /** The first position from end on that is at least minSize long and hits, or limit + 1. */
  function FirstHit(buf: Vec, minSize: nat, end: nat, limit: nat, bits: nat): (r: nat)
    requires StartOf(minSize) <= end && limit <= |buf|
    decreases limit + 1 - end
  {
    if end > limit then limit + 1
    else if end >= minSize && Hit(buf, StartOf(minSize), end, bits) then end
    else FirstHit(buf, minSize, end + 1, limit, bits)
  }

  lemma {:induction false} FirstHitIsFirst(buf: Vec, minSize: nat, end: nat, limit: nat, bits: nat)
    requires StartOf(minSize) <= end && limit <= |buf|
    ensures var r := FirstHit(buf, minSize, end, limit, bits);
            (r == limit + 1 || (end <= r <= limit && r >= minSize && Hit(buf, StartOf(minSize), r, bits)))
            && forall e :: end <= e < r && e <= limit && e >= minSize ==> !Hit(buf, StartOf(minSize), e, bits)
    decreases limit + 1 - end
  {
    hide Hit;
    if end <= limit {
      FirstHitIsFirst(buf, minSize, end + 1, limit, bits);
    }
  }

  /** Length of the next chunk of buf; 0 if more input is needed. */
  function Boundary(buf: Vec, minSize: nat, maxSize: nat, bits: nat, eof: bool): (cut: nat)
    ensures cut <= |buf|
  {
    if |buf| <= minSize then (if eof then |buf| else 0)
    else
      var limit := if |buf| < maxSize then |buf| else maxSize;
      var hit := FirstHit(buf, minSize, StartOf(minSize) + 1, limit, bits);
      if hit <= limit then hit
      else if limit == maxSize then maxSize
      else if eof then |buf| else 0
  }

  /** The circular window read from its oldest byte. */
  function Ring(s: Vec, at: nat): Vec
    requires at <= |s|
  {
    s[at..] + s[..at]
  }

  lemma RingStep(s: Vec, at: nat, b: Byte)
    requires at < |s|
    ensures Ring(s, at)[0] == s[at]
    ensures Ring(s[at := b], (at + 1) % |s|) == Ring(s, at)[1..] + [b]
  {
    var t := s[at := b];
    if at + 1 == |s| {
      assert (at + 1) % |s| == 0;
      assert t == t[..at] + [b];
    } else {
      assert (at + 1) % |s| == at + 1;
      assert t[..at + 1] == s[..at] + [b];
    }
  }

  lemma EmptyWindow(buf: Vec, start: nat)
    requires start <= |buf|
    ensures Window(buf, start, start) == Zeros(WINDOW) && Fingerprint(Zeros(WINDOW)) == 0
  {
    hide Mod, Xor, Deg;
    assert Window(buf, start, start) == Zeros(WINDOW);
    ZeroValue(WINDOW);
    PolynomialDegree();
    ModSmall(0, POLYNOMIAL);
  }

  lemma {:induction false} ZeroValue(n: nat)
    ensures Value(Zeros(n)) == 0
  {
    if n != 0 {
      ZeroValue(n - 1);
      assert Zeros(n)[..n - 1] == Zeros(n - 1);
      ShlZero(8);
      XorZero(0);
    }
  }

  /** Roll the digest over the buffer until it hits. */
  method NextBoundary(outTable: seq<nat>, modTable: seq<nat>, buf: Vec, minSize: nat, maxSize: nat, bits: nat,
                      eof: bool)
    returns (cut: nat)
    requires TablesOk(outTable, modTable)
    ensures cut == Boundary(buf, minSize, maxSize, bits, eof)
  {
    hide Fingerprint, OutEntry, ModEntry, Xor, Pow2, FirstHit, Ring, Window, Hit;
    if |buf| <= minSize {
      return if eof then |buf| else 0;
    }
    var limit := if |buf| < maxSize then |buf| else maxSize;
    var start := StartOf(minSize);
    var window := new Byte[WINDOW](_ => 0);
    var at, digest := 0, 0;
    var i := start;
    assert window[..] == Zeros(WINDOW);
    EmptyWindow(buf, start);
    WholeRing(window[..]);
    while i < limit
      invariant start <= i && (i <= limit || limit < start) && 0 <= at < WINDOW && window.Length == WINDOW
      invariant i <= |buf| && Ring(window[..], at) == Window(buf, start, i)
                && digest == Fingerprint(Window(buf, start, i))
      invariant FirstHit(buf, minSize, start + 1, limit, bits) == FirstHit(buf, minSize, i + 1, limit, bits)
    {
      var b := buf[i];
      RingStep(window[..], at, b);
      RollStep(Window(buf, start, i), b);
      WindowStep(buf, start, i);
      var out := window[at];
      ghost var before := window[..];
      window[at] := b;
      assert window[..] == before[at := b];
      at := (at + 1) % WINDOW;
      digest := Xor(digest, outTable[out]);
      digest := Step(digest, b, modTable);
      HitAt(buf, minSize, i + 1, limit, bits, digest);
      if i + 1 >= minSize && digest % Pow2(bits) == 0 {
        return i + 1;
      }
      i := i + 1;
    }
    NoHit(buf, minSize, i + 1, limit, bits);
    return if limit == maxSize then maxSize else if eof then |buf| else 0;
  }

  lemma WholeRing(s: Vec)
    ensures Ring(s, 0) == s
  {}

  lemma HitAt(buf: Vec, minSize: nat, end: nat, limit: nat, bits: nat, digest: nat)
    requires StartOf(minSize) <= end <= limit <= |buf| && digest == Fingerprint(Window(buf, StartOf(minSize), end))
    ensures FirstHit(buf, minSize, end, limit, bits)
            == if end >= minSize && digest % Pow2(bits) == 0 then end else FirstHit(buf, minSize, end + 1, limit, bits)
  {
    hide Fingerprint, Window;
  }

  lemma NoHit(buf: Vec, minSize: nat, end: nat, limit: nat, bits: nat)
    requires StartOf(minSize) <= end && limit < end && limit <= |buf|
    ensures FirstHit(buf, minSize, end, limit, bits) == limit + 1
  {}

  /** Shift b into the 64-bit digest and reduce through the table. */
  method Step(digest: nat, b: Byte, modTable: seq<nat>) returns (next: nat)
    requires |modTable| == 256 && forall c: Byte :: modTable[c] == ModEntry(c as nat)
    ensures next == Rolled(digest, b)
  {
    hide ModEntry, Xor, Pow2;
    var index := digest / Pow2(DEGREE - 8);
    next := Xor((256 * digest + b as nat) % Pow2(64), modTable[(index % 256) as Byte]);
  }
}
