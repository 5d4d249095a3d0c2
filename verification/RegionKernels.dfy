/** Region kernels for matrix-times-shards products: the reference byte loop, the table
    loop and the blocked split-nibble kernel all compute the same linear combinations. */
module RegionKernels {
  import BinaryPolynomials
  import opened GF256
  import opened LinearAlgebra

  // ---------------------------------------------------------------- reference kernel

  /** dst ^= c * src, byte by byte. A length mismatch is refused and changes nothing. */
  method MulAddRegion(dst: array<Byte>, src: Vec, c: Byte) returns (ok: bool)
    modifies dst
    ensures ok <==> dst.Length == |src|
    ensures dst[..] == if ok then VAdd(old(dst[..]), VScale(c, src)) else old(dst[..])
  {
    hide Add, Mul;
    ghost var was := dst[..];
    if dst.Length != |src| {
      return false;
    }
    VScaleUnits(src);
    VAddZeros(was);
    if c == 0 {
      return true;
    }
    if c == 1 {
      for i := 0 to |src|
        invariant forall j :: 0 <= j < i ==> dst[j] == Add(was[j], src[j])
        invariant forall j :: i <= j < |src| ==> dst[j] == was[j]
      {
        dst[i] := Add(dst[i], src[i]);
      }
      return true;
    }
    for i := 0 to |src|
      invariant forall j :: 0 <= j < i ==> dst[j] == Add(was[j], Mul(c, src[j]))
      invariant forall j :: i <= j < |src| ==> dst[j] == was[j]
    {
      dst[i] := Add(dst[i], Mul(c, src[i]));
    }
    return true;
  }

  /** The pure byte-loop backend. */
  method ReferenceMatMul(coeffs: Matrix, inputs: Matrix, n: nat) returns (outs: Matrix)
    requires IsMatrix(inputs, |inputs|, n) && IsMatrix(coeffs, |coeffs|, |inputs|)
    ensures outs == Product(coeffs, inputs, n)
  {
    hide Add, Mul;
    outs := [];
    for r := 0 to |coeffs|
      invariant |outs| == r
      invariant forall i :: 0 <= i < r ==> outs[i] == Comb(coeffs[i], inputs, |inputs|, n)
    {
      var dst := new Byte[n](_ => 0);
      assert dst[..] == Zeros(n);
      for c := 0 to |inputs|
        invariant dst[..] == Comb(coeffs[r], inputs, c, n)
      {
        var ok := MulAddRegion(dst, inputs[c], coeffs[r][c]);
      }
      outs := outs + [dst[..]];
    }
  }

  /** The vectorised backend: whole-row operations, with coefficients 0 and 1 shortcut. */
  method TableMatMul(coeffs: Matrix, inputs: Matrix, n: nat) returns (outs: Matrix)
    requires IsMatrix(inputs, |inputs|, n) && IsMatrix(coeffs, |coeffs|, |inputs|)
    ensures outs == Product(coeffs, inputs, n)
  {
    hide Add, Mul, VAdd, VScale;
    outs := [];
    for r := 0 to |coeffs|
      invariant |outs| == r
      invariant forall i :: 0 <= i < r ==> outs[i] == Comb(coeffs[i], inputs, |inputs|, n)
    {
      var acc := Zeros(n);
      for c := 0 to |inputs|
        invariant acc == Comb(coeffs[r], inputs, c, n)
      {
        VScaleUnits(inputs[c]);
        VAddZeros(acc);
        if coeffs[r][c] == 0 { continue; }
        if coeffs[r][c] == 1 {
          acc := VAdd(acc, inputs[c]);
        } else {
          acc := VAdd(acc, VScale(coeffs[r][c], inputs[c]));
        }
      }
      outs := outs + [acc];
    }
  }

  // ---------------------------------------------------------------- split-nibble kernel

  const LANE := 32
  const WORD := 8
  const BLOCK := 32768

  /** A product splits over the two nibbles of a byte. */
  lemma SplitNibble(c: Byte, x: Byte)
    ensures Add(Mul(c, x % 16), Mul(c, 16 * (x / 16))) == Mul(c, x)
  {
    assert BinaryPolynomials.Pow2(4) == 16;
    BinaryPolynomials.ShlValue(x / 16, 4);
    BinaryPolynomials.XorDisjoint(x / 16, x % 16, 4);
    AddComm(16 * (x / 16), x % 16);
    hide Mul;
    MulAdd(c, x % 16, 16 * (x / 16));
  }

  /** The 16-entry tables for the low and the high nibble of a source byte. */
  ghost predicate NibbleTables(lo: seq<Byte>, hi: seq<Byte>, c: Byte) {
    |lo| == |hi| == 16
    && forall x: nat :: x < 16 ==> lo[x] == Mul(c, x) && hi[x] == Mul(c, 16 * x)
  }

  lemma NibbleLookup(lo: seq<Byte>, hi: seq<Byte>, c: Byte, x: Byte)
    requires NibbleTables(lo, hi, c)
    ensures Add(lo[x % 16], hi[x / 16]) == Mul(c, x)
  {
    hide Add, Mul;
    SplitNibble(c, x);
  }

  /** Bytes [off, off + done) have received c * src, all others are as they were. */
  ghost predicate Accumulated(now: Vec, was: Vec, src: Vec, off: nat, done: nat, c: Byte) {
    |now| == |was| && off + done <= |now| && off + done <= |src|
    && (forall j :: off <= j < off + done ==> now[j] == Add(was[j], Mul(c, src[j])))
    && (forall j :: 0 <= j < off || off + done <= j < |now| ==> now[j] == was[j])
  }

  /** One 32-byte lane of table lookups. */
  method MulAddLane(dst: array<Byte>, src: Vec, off: nat, done: nat, count: nat, lo: seq<Byte>, hi: seq<Byte>,
                    c: Byte, ghost was: Vec)
    requires off + done + count <= dst.Length && off + done + count <= |src|
    requires NibbleTables(lo, hi, c) && Accumulated(dst[..], was, src, off, done, c)
    modifies dst
    ensures Accumulated(dst[..], was, src, off, done + count, c)
  {
    hide Add, Mul, NibbleTables;
    assert |lo| == |hi| == 16 by { TablesLength(lo, hi, c); }
    for l := 0 to count
      invariant Accumulated(dst[..], was, src, off, done + l, c)
    {
      var i := off + done + l;
      NibbleLookup(lo, hi, c, src[i]);
      dst[i] := Add(dst[i], Add(lo[src[i] % 16], hi[src[i] / 16]));
    }
  }

  lemma TablesLength(lo: seq<Byte>, hi: seq<Byte>, c: Byte)
    requires NibbleTables(lo, hi, c)
    ensures |lo| == |hi| == 16
  {}

  lemma AccumulatedZero(was: Vec, src: Vec, off: nat, len: nat)
    requires off + len <= |was| && off + len <= |src|
    ensures Accumulated(was, was, src, off, len, 0)
  {
    hide Add, Mul;
    forall j | off <= j < off + len
      ensures Add(was[j], Mul(0, src[j])) == was[j]
    {
      MulZero(src[j]);
      AddZero(was[j]);
    }
  }

  /** Plain xor in machine words, then a byte-wise tail. */
  method XorRegion(dst: array<Byte>, src: Vec, off: nat, len: nat)
    requires off + len <= dst.Length && off + len <= |src|
    modifies dst
    ensures Accumulated(dst[..], old(dst[..]), src, off, len, 1)
  {
    hide Add, Mul;
    ghost var was := dst[..];
    var i := 0;
    while i + WORD <= len
      invariant i <= len && Accumulated(dst[..], was, src, off, i, 1)
    {
      XorBytes(dst, src, off, i, WORD, was);
      i := i + WORD;
    }
    XorBytes(dst, src, off, i, len - i, was);
  }

  method XorBytes(dst: array<Byte>, src: Vec, off: nat, done: nat, count: nat, ghost was: Vec)
    requires off + done + count <= dst.Length && off + done + count <= |src|
    requires Accumulated(dst[..], was, src, off, done, 1)
    modifies dst
    ensures Accumulated(dst[..], was, src, off, done + count, 1)
  {
    hide Add, Mul;
    for l := 0 to count
      invariant Accumulated(dst[..], was, src, off, done + l, 1)
    {
      var i := off + done + l;
      MulOne(src[i]);
      dst[i] := Add(dst[i], src[i]);
    }
  }

  /** dst ^= c * src over [off, off + len): nibble tables, 32-byte lanes, scalar tail. */
  method NativeMulAdd(dst: array<Byte>, src: Vec, off: nat, len: nat, c: Byte)
    requires off + len <= dst.Length && off + len <= |src|
    modifies dst
    ensures Accumulated(dst[..], old(dst[..]), src, off, len, c)
  {
    hide Add, Mul;
    ghost var was := dst[..];
    if c == 0 {
      AccumulatedZero(was, src, off, len);
      return;
    }
    if c == 1 {
      XorRegion(dst, src, off, len);
      return;
    }
    var lo, hi := BuildNibbleTables(c);
    var i := 0;
    while i + LANE <= len
      invariant i <= len && Accumulated(dst[..], was, src, off, i, c)
    {
      MulAddLane(dst, src, off, i, LANE, lo, hi, c, was);
      i := i + LANE;
    }
    MulAddLane(dst, src, off, i, len - i, lo, hi, c, was);
  }

  method BuildNibbleTables(c: Byte) returns (lo: seq<Byte>, hi: seq<Byte>)
    ensures NibbleTables(lo, hi, c)
  {
    hide Add, Mul;
    lo, hi := [], [];
    for x := 0 to 16
      invariant |lo| == |hi| == x
      invariant forall y: nat :: y < x ==> lo[y] == Mul(c, y) && hi[y] == Mul(c, 16 * y)
    {
      lo := lo + [Mul(c, x)];
      hi := hi + [Mul(c, 16 * x)];
    }
  }

  // ---------------------------------------------------------------- blocked product

  /** Bytes below done of the output row hold the finished combination. */
  ghost predicate RowDone(out: Vec, row: Vec, inputs: Matrix, n: nat, done: nat)
    requires IsMatrix(inputs, |inputs|, n) && |row| == |inputs|
  {
    |out| == n && done <= n && forall j :: 0 <= j < done ==> out[j] == Comb(row, inputs, |inputs|, n)[j]
  }

  lemma CombStep(row: Vec, inputs: Matrix, c: nat, n: nat, j: nat)
    requires c < |row| && c < |inputs| && IsMatrix(inputs, |inputs|, n) && j < n
    ensures Comb(row, inputs, c + 1, n)[j] == Add(Comb(row, inputs, c, n)[j], Mul(row[c], inputs[c][j]))
  {
    hide Add, Mul;
  }

  /** One output row of one block: clear, then accumulate every input. */
  method BlockRow(o: array<Byte>, row: Vec, inputs: Matrix, n: nat, off: nat, len: nat)
    requires IsMatrix(inputs, |inputs|, n) && |row| == |inputs| && o.Length == n && off + len <= n
    requires RowDone(o[..], row, inputs, n, off)
    modifies o
    ensures RowDone(o[..], row, inputs, n, off + len)
  {
    hide Add, Mul, Comb;
    ghost var was := o[..];
    for j := off to off + len
      invariant forall i :: off <= i < j ==> o[i] == 0
      invariant forall i :: 0 <= i < off || j <= i < n ==> o[i] == was[i]
    {
      o[j] := 0;
    }
    CombNothing(row, inputs, n);
    for c := 0 to |inputs|
      invariant forall i :: 0 <= i < off ==> o[i] == was[i]
      invariant forall i :: off <= i < off + len ==> o[i] == Comb(row, inputs, c, n)[i]
    {
      forall i: nat | off <= i < off + len
        ensures Comb(row, inputs, c + 1, n)[i] == Add(Comb(row, inputs, c, n)[i], Mul(row[c], inputs[c][i]))
      {
        CombStep(row, inputs, c, n, i);
      }
      NativeMulAdd(o, inputs[c], off, len, row[c]);
    }
  }

  lemma CombNothing(row: Vec, inputs: Matrix, n: nat)
    requires IsMatrix(inputs, |inputs|, n)
    ensures Comb(row, inputs, 0, n) == Zeros(n)
  {}

  /** The blocked product into caller-supplied, pairwise distinct output buffers. */
  method NativeMatMul(coeffs: Matrix, inputs: Matrix, out: seq<array<Byte>>, n: nat)
    requires IsMatrix(inputs, |inputs|, n) && IsMatrix(coeffs, |coeffs|, |inputs|)
    requires |out| == |coeffs| && forall r :: 0 <= r < |out| ==> out[r].Length == n
    requires forall r, s :: 0 <= r < s < |out| ==> out[r] != out[s]
    modifies out
    ensures forall r :: 0 <= r < |out| ==> out[r][..] == Product(coeffs, inputs, n)[r]
  {
    hide Add, Mul, Comb;
    var off := 0;
    while off < n
      invariant off <= n
      invariant forall r :: 0 <= r < |out| ==> RowDone(out[r][..], coeffs[r], inputs, n, off)
    {
      var len := if n - off < BLOCK then n - off else BLOCK;
      for r := 0 to |out|
        invariant forall i :: 0 <= i < r ==> RowDone(out[i][..], coeffs[i], inputs, n, off + len)
        invariant forall i :: r <= i < |out| ==> RowDone(out[i][..], coeffs[i], inputs, n, off)
      {
        BlockRow(out[r], coeffs[r], inputs, n, off, len);
      }
      off := off + len;
    }
  }

  // ---------------------------------------------------------------- backends

  datatype Backend = Reference | Table | Native

  /** Every backend computes the same product. */
  method MatMul(backend: Backend, coeffs: Matrix, inputs: Matrix, n: nat) returns (outs: Matrix)
    requires IsMatrix(inputs, |inputs|, n) && IsMatrix(coeffs, |coeffs|, |inputs|)
    ensures outs == Product(coeffs, inputs, n)
  {
    match backend
    case Reference => outs := ReferenceMatMul(coeffs, inputs, n);
    case Table => outs := TableMatMul(coeffs, inputs, n);
    case Native =>
      var buffers: seq<array<Byte>> := [];
      for r := 0 to |coeffs|
        invariant |buffers| == r
        invariant forall i :: 0 <= i < r ==> fresh(buffers[i]) && buffers[i].Length == n
        invariant forall i, j :: 0 <= i < j < r ==> buffers[i] != buffers[j]
      {
        var b := new Byte[n](_ => 0);
        buffers := buffers + [b];
      }
      NativeMatMul(coeffs, inputs, buffers, n);
      outs := [];
      for r := 0 to |coeffs|
        invariant outs == Product(coeffs, inputs, n)[..r]
      {
        outs := outs + [buffers[r][..]];
      }
  }
}
