/** Gauss-Jordan inversion over GF(2^8), in place on a list of rows: it inverts exactly
    the matrices without a nonzero kernel vector, and fails on all the others. */
module GaussJordan {
  import opened GF256
  import opened LinearAlgebra

  datatype Inversion = Inverse(inv: Matrix) | Singular

  // ---------------------------------------------------------------- row loops

  /** row[j] = c * row[j] for every j. */
  method ScaleRow(row: Vec, c: Byte) returns (r: Vec)
    ensures r == VScale(c, row)
  {
    hide Mul;
    r := row;
    for j := 0 to |row|
      invariant |r| == |row|
      invariant forall i :: 0 <= i < j ==> r[i] == Mul(c, row[i])
      invariant forall i :: j <= i < |row| ==> r[i] == row[i]
    {
      r := r[j := Mul(r[j], c)];
      MulComm(row[j], c);
    }
  }

  /** rr[j] ^= factor * row[j] for every j. */
  method AddScaledRow(rr: Vec, row: Vec, factor: Byte) returns (r: Vec)
    requires |rr| == |row|
    ensures r == VAdd(rr, VScale(factor, row))
  {
    hide Mul, Add;
    r := rr;
    for j := 0 to |row|
      invariant |r| == |row|
      invariant forall i :: 0 <= i < j ==> r[i] == Add(rr[i], Mul(factor, row[i]))
      invariant forall i :: j <= i < |row| ==> r[i] == rr[i]
    {
      r := r[j := Add(r[j], Mul(factor, row[j]))];
    }
  }

  /** The scalar triple loop; zero coefficients are skipped. */
  method MatMul(a: Matrix, b: Matrix) returns (out: Matrix)
    requires |b| > 0 && IsMatrix(b, |b|, |b[0]|) && IsMatrix(a, |a|, |b|)
    ensures out == Product(a, b, |b[0]|)
  {
    hide Mul, Add, VAdd, VScale;
    var cols := |b[0]|;
    out := [];
    for i := 0 to |a|
      invariant |out| == i && forall r :: 0 <= r < i ==> out[r] == Comb(a[r], b, |b|, cols)
    {
      var oi := Zeros(cols);
      for t := 0 to |b|
        invariant oi == Comb(a[i], b, t, cols)
      {
        var c := a[i][t];
        if c == 0 {
          VScaleUnits(b[t]);
          VAddZeros(oi);
          continue;
        }
        oi := AddScaledRow(oi, b[t], c);
      }
      out := out + [oi];
    }
  }

  // ---------------------------------------------------------------- row operations and spans

  /** m and n have the same row space. */
  ghost predicate SameSpan(m: Matrix, n: Matrix, w: nat) {
    IsMatrix(m, |m|, w) && IsMatrix(n, |n|, w) && Spanned(m, n, w) && Spanned(n, m, w)
  }

  lemma SameSpanTransitive(l: Matrix, m: Matrix, n: Matrix, w: nat)
    requires SameSpan(l, m, w) && SameSpan(m, n, w)
    ensures SameSpan(l, n, w)
  {
    SpannedTransitive(l, m, n, w);
    SpannedTransitive(n, m, l, w);
  }

  function Swap(m: Matrix, i: nat, j: nat): (r: Matrix)
    requires i < |m| && j < |m|
    ensures |r| == |m|
  {
    m[i := m[j]][j := m[i]]
  }

  lemma SwapSpanned(m: Matrix, i: nat, j: nat, w: nat)
    requires i < |m| && j < |m| && IsMatrix(m, |m|, w)
    ensures Spanned(Swap(m, i, j), m, w)
  {
    hide InSpan;
    var n := Swap(m, i, j);
    forall r: nat | r < |m|
      ensures InSpan(n[r], m)
    {
      SpanRow(m, if r == j then i else if r == i then j else r, w);
    }
  }

  lemma SwapSameSpan(m: Matrix, i: nat, j: nat, w: nat)
    requires i < |m| && j < |m| && IsMatrix(m, |m|, w)
    ensures SameSpan(m, Swap(m, i, j), w)
  {
    SwapSpanned(m, i, j, w);
    SwapSpanned(Swap(m, i, j), i, j, w);
    assert Swap(Swap(m, i, j), i, j) == m;
  }

  lemma ScaleSpanned(m: Matrix, i: nat, c: Byte, w: nat)
    requires i < |m| && IsMatrix(m, |m|, w)
    ensures Spanned(m[i := VScale(c, m[i])], m, w)
  {
    hide InSpan;
    var n := m[i := VScale(c, m[i])];
    forall r: nat | r < |m|
      ensures InSpan(n[r], m)
    {
      SpanRow(m, r, w);
      SpanScale(c, m[i], m) by { SpanRow(m, i, w); }
    }
  }

  lemma ScaleSameSpan(m: Matrix, i: nat, c: Byte, w: nat)
    requires i < |m| && IsMatrix(m, |m|, w) && c != 0
    ensures SameSpan(m, m[i := VScale(c, m[i])], w)
  {
    var n := m[i := VScale(c, m[i])];
    ScaleSpanned(m, i, c, w);
    ScaleSpanned(n, i, Inv(c), w);
    MulInv(c);
    VScaleScale(Inv(c), c, m[i]);
    VScaleUnits(m[i]);
    assert n[i := VScale(Inv(c), n[i])] == m;
  }

  lemma AddSpanned(m: Matrix, i: nat, s: nat, f: Byte, w: nat)
    requires i < |m| && s < |m| && IsMatrix(m, |m|, w)
    ensures Spanned(m[i := VAdd(m[i], VScale(f, m[s]))], m, w)
  {
    hide InSpan;
    var n := m[i := VAdd(m[i], VScale(f, m[s]))];
    forall r: nat | r < |m|
      ensures InSpan(n[r], m)
    {
      SpanRow(m, r, w);
      SpanRow(m, s, w);
      SpanScale(f, m[s], m);
      if r == i {
        SpanAdd(m[i], VScale(f, m[s]), m);
      }
    }
  }

  lemma AddSameSpan(m: Matrix, i: nat, s: nat, f: Byte, w: nat)
    requires i < |m| && s < |m| && i != s && IsMatrix(m, |m|, w)
    ensures SameSpan(m, m[i := VAdd(m[i], VScale(f, m[s]))], w)
  {
    var n := m[i := VAdd(m[i], VScale(f, m[s]))];
    AddSpanned(m, i, s, f, w);
    AddSpanned(n, i, s, f, w);
    VAddAssoc(m[i], VScale(f, m[s]), VScale(f, m[s]));
    VAddSelf(VScale(f, m[s]));
    VAddZeros(m[i]);
    assert n[i := VAdd(n[i], VScale(f, n[s]))] == m;
  }

  // ---------------------------------------------------------------- the elimination state

  /** The first col columns are those of the identity. */
  ghost predicate Reduced(m: Matrix, n: nat, col: nat) {
    col <= n && IsMatrix(m, n, 2 * n)
    && forall r, j :: 0 <= r < n && 0 <= j < col ==> m[r][j] == if r == j then 1 else 0
  }

  /** No row of the remaining square block has an entry in column col: the vector that
      combines column col with the reduced columns is in the kernel of every row. */
  lemma KernelOfStuckColumn(m: Matrix, n: nat, col: nat) returns (v: Vec)
    requires col < n && Reduced(m, n, col)
    requires forall r :: col <= r < n ==> m[r][col] == 0
    ensures |v| == 2 * n && v[col] == 1 && Annihilates(v, m)
    ensures forall j :: n <= j < 2 * n ==> v[j] == 0
  {
    v := seq(2 * n, j requires 0 <= j < 2 * n => if j < col then m[j][col] else if j == col then 1 else 0);
    forall r: nat | r < n
      ensures Dot(m[r], v, 2 * n) == 0
    {
      DotStuck(m, n, col, v, r, col);
      DotStep(m[r], v, col);
      MulOne(m[r][col]);
      AddSelf(m[r][col]);
      AddZero(m[r][col]);
      DotTail(m[r], v, col + 1, 2 * n);
    }
  }

  lemma DotStep(a: Vec, b: Vec, n: nat)
    requires n < |a| && n < |b|
    ensures Dot(a, b, n + 1) == Add(Dot(a, b, n), Mul(a[n], b[n]))
  {}

  lemma {:induction false} DotTail(a: Vec, b: Vec, lo: nat, hi: nat)
    requires lo <= hi <= |a| && hi <= |b| && forall j :: lo <= j < hi ==> b[j] == 0
    ensures Dot(a, b, hi) == Dot(a, b, lo)
  {
    hide Add, Mul;
    if lo < hi {
      DotTail(a, b, lo, hi - 1);
      MulZero(a[hi - 1]);
      AddZero(Dot(a, b, lo));
    }
  }

  lemma {:induction false} DotStuck(m: Matrix, n: nat, col: nat, v: Vec, r: nat, c: nat)
    requires c <= col < n && r < n && Reduced(m, n, col) && |v| == 2 * n
    requires forall j :: 0 <= j < col ==> v[j] == m[j][col]
    ensures Dot(m[r], v, c) == if r < c then m[r][col] else 0
  {
    hide Add, Mul;
    if c != 0 {
      DotStuck(m, n, col, v, r, c - 1);
      MulOne(v[c - 1]);
      MulZero(v[c - 1]);
      AddZero(m[r][col]);
      AddZero(0);
    }
  }

  // ---------------------------------------------------------------- what the steps keep

  lemma SwapReduced(m: Matrix, n: nat, col: nat, pivot: nat)
    requires Reduced(m, n, col) && col <= pivot < n
    ensures Reduced(Swap(m, col, pivot), n, col)
  {}

  lemma ScaleReduced(m: Matrix, n: nat, col: nat, c: Byte)
    requires Reduced(m, n, col) && col < n
    ensures Reduced(m[col := VScale(c, m[col])], n, col)
  {
    hide Mul;
    MulZero(c);
  }

  /** Adding a multiple of the pivot row leaves the reduced columns and clears column col. */
  lemma AddReduced(m: Matrix, n: nat, col: nat, r: nat)
    requires Reduced(m, n, col) && col < n && r < n && r != col && m[col][col] == 1
    ensures Reduced(m[r := VAdd(m[r], VScale(m[r][col], m[col]))], n, col)
    ensures VAdd(m[r], VScale(m[r][col], m[col]))[col] == 0
  {
    hide Add, Mul;
    MulOne(m[r][col]);
    MulZero(m[r][col]);
    AddSelf(m[r][col]);
    forall j | 0 <= j < col { AddZero(m[r][j]); }
  }

  lemma ConcatInjective(a: Vec, b: Vec, c: Vec, d: Vec)
    requires a + b == c + d && |a| == |c|
    ensures a == c && b == d
  {
    assert a == (a + b)[..|a|] && b == (a + b)[|a|..];
  }

  lemma UnitsBesideFor(m: Matrix, n: nat, i: nat, q: Vec, r: Matrix)
    requires IsMatrix(m, n, n) && IsMatrix(r, n, n) && i < n && |q| == n
    requires Unit(n, i) + r[i] == Comb(q, Beside(m, Identity(n)), n, 2 * n)
    ensures Comb(r[i], m, n, n) == Unit(n, i)
  {
    hide Comb;
    CombBeside(q, m, Identity(n), n, n, n);
    CombIdentity(q);
    ConcatInjective(Unit(n, i), r[i], Comb(q, m, n, n), q);
  }

  lemma UnitsBeside(m: Matrix, n: nat, i: nat, r: Matrix)
    requires IsMatrix(m, n, n) && IsMatrix(r, n, n) && i < n
    requires InSpan(Beside(Identity(n), r)[i], Beside(m, Identity(n)))
    ensures Comb(r[i], m, n, n) == Unit(n, i)
  {
    hide InSpan, Comb;
    var q := SpanCoefficients(Beside(Identity(n), r)[i], Beside(m, Identity(n)));
    UnitsBesideFor(m, n, i, q, r);
  }

  lemma UnitsBesideBackFor(m: Matrix, n: nat, i: nat, q: Vec, r: Matrix)
    requires IsMatrix(m, n, n) && IsMatrix(r, n, n) && i < n && |q| == n
    requires m[i] + Unit(n, i) == Comb(q, Beside(Identity(n), r), n, 2 * n)
    ensures Comb(m[i], r, n, n) == Unit(n, i)
  {
    hide Comb;
    CombBeside(q, Identity(n), r, n, n, n);
    CombIdentity(q);
    ConcatInjective(m[i], Unit(n, i), q, Comb(q, r, n, n));
  }

  lemma UnitsBesideBack(m: Matrix, n: nat, i: nat, r: Matrix)
    requires IsMatrix(m, n, n) && IsMatrix(r, n, n) && i < n
    requires InSpan(Beside(m, Identity(n))[i], Beside(Identity(n), r))
    ensures Comb(m[i], r, n, n) == Unit(n, i)
  {
    hide InSpan, Comb;
    var q := SpanCoefficients(Beside(m, Identity(n))[i], Beside(Identity(n), r));
    UnitsBesideBackFor(m, n, i, q, r);
  }

  /** The row space of [m | I] equals that of [I | r] only when r inverts m on both sides. */
  lemma SameSpanInverts(m: Matrix, r: Matrix, n: nat)
    requires IsMatrix(m, n, n) && IsMatrix(r, n, n)
    requires SameSpan(Beside(m, Identity(n)), Beside(Identity(n), r), 2 * n)
    ensures Product(r, m, n) == Identity(n) && Product(m, r, n) == Identity(n)
  {
    hide InSpan, Comb;
    forall i: nat | i < n
      ensures Product(r, m, n)[i] == Unit(n, i)
    {
      UnitsBeside(m, n, i, r);
    }
    forall i: nat | i < n
      ensures Product(m, r, n)[i] == Unit(n, i)
    {
      UnitsBesideBack(m, n, i, r);
    }
    assert Product(r, m, n) == Identity(n) && Product(m, r, n) == Identity(n);
  }

  /** A matrix with a left inverse has a trivial kernel. */
  lemma InverseHasNoKernel(b: Matrix, m: Matrix, v: Vec)
    requires IsMatrix(m, |v|, |v|) && IsMatrix(b, |v|, |v|)
    requires Product(b, m, |v|) == Identity(|v|) && Annihilates(v, m)
    ensures v == Zeros(|v|)
  {
    forall i: nat | i < |v|
      ensures v[i] == 0
    {
      CombOrthogonal(b[i], m, v, |v|);
      assert Product(b, m, |v|)[i] == Unit(|v|, i);
      DotUnit(v, i, |v|);
    }
  }

  lemma {:induction false} DotUnit(v: Vec, i: nat, n: nat)
    requires n <= |v| && i < |v|
    ensures Dot(Unit(|v|, i), v, n) == if i < n then v[i] else 0
  {
    hide Add, Mul;
    if n != 0 {
      DotUnit(v, i, n - 1);
      MulOne(v[n - 1]);
      MulZero(v[n - 1]);
      AddZero(if i < n - 1 then v[i] else 0);
      AddZero(v[n - 1]);
    }
  }

  lemma {:induction false} DotPrefix(a: Vec, u: Vec, v: Vec, n: nat)
    requires n <= |a| && n <= |u| <= |v| && forall j :: 0 <= j < n ==> v[j] == u[j]
    ensures Dot(a, u, n) == Dot(a, v, n)
  {
    hide Add, Mul;
    if n != 0 {
      DotPrefix(a, u, v, n - 1);
    }
  }

  lemma {:induction false} DotFront(a: Vec, b: Vec, u: Vec, n: nat)
    requires n <= |a| && n <= |u|
    ensures Dot(a + b, u, n) == Dot(a, u, n)
  {
    hide Add, Mul;
    if n != 0 {
      DotFront(a, b, u, n - 1);
    }
  }

  /** A kernel vector of [m | I] that ends in zeros gives a kernel vector of m. */
  lemma KernelOfLeftHalf(m: Matrix, n: nat, v: Vec)
    requires IsMatrix(m, n, n) && |v| == 2 * n && Annihilates(v, Beside(m, Identity(n)))
    requires forall j :: n <= j < 2 * n ==> v[j] == 0
    ensures Annihilates(v[..n], m)
  {
    forall i: nat | i < n
      ensures Dot(m[i], v[..n], n) == 0
    {
      var x := Beside(m, Identity(n))[i];
      assert Dot(x, v, 2 * n) == 0;
      DotTail(x, v, n, 2 * n);
      DotFront(m[i], Unit(n, i), v, n);
      DotPrefix(m[i], v[..n], v, n);
    }
  }

  ghost predicate HasKernelVector(m: Matrix, n: nat) {
    exists v: Vec :: |v| == n && v != Zeros(n) && Annihilates(v, m)
  }

  /** The elimination got stuck: a kernel vector of the original matrix exists. */
  lemma StuckMeansKernel(m: Matrix, n: nat, a: Matrix, col: nat)
    requires IsMatrix(m, n, n) && col < n && Reduced(a, n, col)
    requires forall r :: col <= r < n ==> a[r][col] == 0
    requires SameSpan(Beside(m, Identity(n)), a, 2 * n)
    ensures HasKernelVector(m, n)
  {
    var v := KernelOfStuckColumn(a, n, col);
    SpannedOrthogonal(Beside(m, Identity(n)), a, v);
    KernelOfLeftHalf(m, n, v);
    assert v[..n][col] == 1;
  }

  lemma FullyReduced(a: Matrix, n: nat) returns (r: Matrix)
    requires Reduced(a, n, n)
    ensures IsMatrix(r, n, n) && a == Beside(Identity(n), r)
    ensures forall i :: 0 <= i < n ==> r[i] == a[i][n..]
  {
    r := seq(n, i requires 0 <= i < n => a[i][n..]);
    forall i: nat | i < n
      ensures a[i] == Unit(n, i) + r[i]
    {
      assert a[i][..n] == Unit(n, i);
    }
  }

  // ---------------------------------------------------------------- inversion

  method Invert(mat: Matrix) returns (result: Inversion)
    requires IsMatrix(mat, |mat|, |mat|)
    ensures result.Inverse? ==>
              IsMatrix(result.inv, |mat|, |mat|)
              && Product(result.inv, mat, |mat|) == Identity(|mat|)
              && Product(mat, result.inv, |mat|) == Identity(|mat|)
    ensures result.Singular? <==> HasKernelVector(mat, |mat|)
  {
    hide Add, Mul, Inv, InSpan, Spanned, SameSpan;
    var n := |mat|;
    var aug := new Vec[n](i requires 0 <= i < n => mat[i] + Unit(n, i));
    ghost var start := Beside(mat, Identity(n));
    assert aug[..] == start;
    SameSpanReflexive(start, 2 * n);
    for col := 0 to n
      invariant Reduced(aug[..], n, col)
      invariant SameSpan(start, aug[..], 2 * n)
    {
      var pivot := col;
      while pivot < n && aug[pivot][col] == 0
        invariant col <= pivot <= n
        invariant forall r :: col <= r < pivot ==> aug[r][col] == 0
      {
        pivot := pivot + 1;
      }
      if pivot == n {
        StuckMeansKernel(mat, n, aug[..], col);
        return Singular;
      }
      if pivot != col {
        ghost var before := aug[..];
        aug[col], aug[pivot] := aug[pivot], aug[col];
        assert aug[..] == Swap(before, col, pivot);
        SwapReduced(before, n, col, pivot);
        SwapSameSpan(before, col, pivot, 2 * n);
        SameSpanTransitive(start, before, aug[..], 2 * n);
      }
      Normalize(aug, n, col, start);
      Eliminate(aug, n, col, start);
    }
    ghost var right := FullyReduced(aug[..], n);
    SameSpanInverts(mat, right, n);
    var rows := aug[..];
    var inv := seq(n, i requires 0 <= i < |rows| && n <= |rows[i]| => rows[i][n..]);
    assert inv == right;
    forall v: Vec | |v| == n && Annihilates(v, mat)
      ensures v == Zeros(n)
    {
      InverseHasNoKernel(inv, mat, v);
    }
    return Inverse(inv);
  }

  lemma SameSpanReflexive(m: Matrix, w: nat)
    requires IsMatrix(m, |m|, w)
    ensures SameSpan(m, m, w)
  {
    SpannedReflexive(m, w);
  }

  /** Divide the pivot row by its pivot. */
  method Normalize(aug: array<Vec>, n: nat, col: nat, ghost start: Matrix)
    requires col < n == aug.Length && Reduced(aug[..], n, col) && SameSpan(start, aug[..], 2 * n)
    requires aug[col][col] != 0
    modifies aug
    ensures aug[..] == old(aug[..])[col := VScale(Inv(old(aug[col][col])), old(aug[col]))]
    ensures Reduced(aug[..], n, col) && SameSpan(start, aug[..], 2 * n) && aug[col][col] == 1
  {
    hide Add, Mul, Inv, InSpan, Spanned, SameSpan;
    ghost var before := aug[..];
    var pInv := Inv(aug[col][col]);
    MulInv(aug[col][col]);
    aug[col] := ScaleRow(aug[col], pInv);
    assert aug[..] == before[col := VScale(pInv, before[col])];
    ScaleReduced(before, n, col, pInv);
    ScaleSameSpan(before, col, pInv, 2 * n);
    SameSpanTransitive(start, before, aug[..], 2 * n);
  }

  /** Clear column col in every row but the pivot row. */
  method Eliminate(aug: array<Vec>, n: nat, col: nat, ghost start: Matrix)
    requires col < n == aug.Length && Reduced(aug[..], n, col) && SameSpan(start, aug[..], 2 * n)
    requires aug[col][col] == 1
    modifies aug
    ensures Reduced(aug[..], n, col + 1) && SameSpan(start, aug[..], 2 * n)
  {
    hide Add, Mul, InSpan, Spanned, SameSpan;
    var row := aug[col];
    for r := 0 to n
      invariant Reduced(aug[..], n, col) && aug[col] == row
      invariant SameSpan(start, aug[..], 2 * n)
      invariant forall i :: 0 <= i < r && i != col ==> aug[i][col] == 0
    {
      if r == col { continue; }
      var factor := aug[r][col];
      if factor == 0 { continue; }
      ghost var before := aug[..];
      aug[r] := AddScaledRow(aug[r], row, factor);
      assert aug[..] == before[r := VAdd(before[r], VScale(factor, before[col]))];
      AddReduced(before, n, col, r);
      AddSameSpan(before, r, col, factor, 2 * n);
      SameSpanTransitive(start, before, aug[..], 2 * n);
    }
  }
}
