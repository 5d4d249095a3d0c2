/** Vectors and matrices over GF(2^8). A product of matrices is a sequence of linear
    combinations of rows, which is also how the region kernels compute it. */
module LinearAlgebra {
  import BinaryPolynomials
  import opened GF256

  type Vec = seq<Byte>
  type Matrix = seq<Vec>

  ghost predicate IsMatrix(m: Matrix, rows: nat, cols: nat) {
    |m| == rows && forall i :: 0 <= i < rows ==> |m[i]| == cols
  }

  function Zeros(n: nat): (r: Vec)
    ensures |r| == n && forall j :: 0 <= j < n ==> r[j] == 0
  {
    seq(n, _ => 0)
  }

  function Unit(n: nat, i: nat): (r: Vec)
    ensures |r| == n && forall j :: 0 <= j < n ==> r[j] == if i == j then 1 else 0
  {
    seq(n, j => if i == j then 1 else 0)
  }

  function VAdd(a: Vec, b: Vec): (r: Vec)
    requires |a| == |b|
    ensures |r| == |a| && forall j :: 0 <= j < |a| ==> r[j] == Add(a[j], b[j])
  {
    seq(|a|, j requires 0 <= j < |a| => Add(a[j], b[j]))
  }

  function VScale(c: Byte, a: Vec): (r: Vec)
    ensures |r| == |a| && forall j :: 0 <= j < |a| ==> r[j] == Mul(c, a[j])
  {
    seq(|a|, j requires 0 <= j < |a| => Mul(c, a[j]))
  }

  function Dot(a: Vec, b: Vec, n: nat): Byte
    requires n <= |a| && n <= |b|
  {
    if n == 0 then 0 else Add(Dot(a, b, n - 1), Mul(a[n - 1], b[n - 1]))
  }

  /** The linear combination of the first n rows of m, each w wide, with coefficients q. */
  function Comb(q: Vec, m: Matrix, n: nat, w: nat): (r: Vec)
    requires n <= |q| && n <= |m| && IsMatrix(m, |m|, w)
    ensures |r| == w
  {
    if n == 0 then Zeros(w) else VAdd(Comb(q, m, n - 1, w), VScale(q[n - 1], m[n - 1]))
  }

  /** The product a * b; b's rows are w wide. */
  function Product(a: Matrix, b: Matrix, w: nat): (r: Matrix)
    requires IsMatrix(a, |a|, |b|) && IsMatrix(b, |b|, w)
    ensures IsMatrix(r, |a|, w)
    ensures forall i :: 0 <= i < |a| ==> r[i] == Comb(a[i], b, |b|, w)
  {
    seq(|a|, i requires 0 <= i < |a| => Comb(a[i], b, |b|, w))
  }

  function Identity(n: nat): (r: Matrix)
    ensures IsMatrix(r, n, n) && forall i :: 0 <= i < n ==> r[i] == Unit(n, i)
  {
    seq(n, i requires 0 <= i < n => Unit(n, i))
  }

  // ---------------------------------------------------------------- laws of addition

  lemma AddZero(a: Byte)
    ensures Add(a, 0) == a && Add(0, a) == a
  {
    BinaryPolynomials.XorZero(a);
  }

  lemma AddSelf(a: Byte)
    ensures Add(a, a) == 0
  {
    BinaryPolynomials.XorSelf(a);
  }

  lemma AddComm(a: Byte, b: Byte)
    ensures Add(a, b) == Add(b, a)
  {
    BinaryPolynomials.XorComm(a, b);
  }

  lemma AddAssoc(a: Byte, b: Byte, c: Byte)
    ensures Add(Add(a, b), c) == Add(a, Add(b, c))
  {
    BinaryPolynomials.XorAssoc(a, b, c);
  }

  lemma AddShuffle(a: Byte, b: Byte, c: Byte, d: Byte)
    ensures Add(Add(a, b), Add(c, d)) == Add(Add(a, c), Add(b, d))
  {
    BinaryPolynomials.XorShuffle(a, b, c, d);
  }

  lemma AddIsZero(a: Byte, b: Byte)
    ensures Add(a, b) == 0 <==> a == b
  {
    BinaryPolynomials.XorCancel(a, b);
  }

  lemma AddMul(a: Byte, b: Byte, c: Byte)
    ensures Mul(Add(a, b), c) == Add(Mul(a, c), Mul(b, c))
  {
    hide Add, Mul;
    MulComm(Add(a, b), c);
    MulComm(a, c);
    MulComm(b, c);
    MulAdd(c, a, b);
  }

  // ---------------------------------------------------------------- laws of vectors

  lemma VAddZeros(a: Vec)
    ensures VAdd(a, Zeros(|a|)) == a && VAdd(Zeros(|a|), a) == a
  {
    hide Add, Mul;
    forall j | 0 <= j < |a| { AddZero(a[j]); }
  }

  lemma VAddSelf(a: Vec)
    ensures VAdd(a, a) == Zeros(|a|)
  {
    hide Add, Mul;
    forall j | 0 <= j < |a| { AddSelf(a[j]); }
  }

  lemma VAddAssoc(a: Vec, b: Vec, c: Vec)
    requires |a| == |b| == |c|
    ensures VAdd(VAdd(a, b), c) == VAdd(a, VAdd(b, c))
  {
    hide Add, Mul;
    forall j | 0 <= j < |a| { AddAssoc(a[j], b[j], c[j]); }
  }

  lemma VAddShuffle(a: Vec, b: Vec, c: Vec, d: Vec)
    requires |a| == |b| == |c| == |d|
    ensures VAdd(VAdd(a, b), VAdd(c, d)) == VAdd(VAdd(a, c), VAdd(b, d))
  {
    hide Add, Mul;
    forall j | 0 <= j < |a| { AddShuffle(a[j], b[j], c[j], d[j]); }
  }

  lemma VScaleAdd(c: Byte, a: Vec, b: Vec)
    requires |a| == |b|
    ensures VScale(c, VAdd(a, b)) == VAdd(VScale(c, a), VScale(c, b))
  {
    hide Add, Mul;
    forall j | 0 <= j < |a| { MulAdd(c, a[j], b[j]); }
  }

  lemma VAddScale(c: Byte, d: Byte, a: Vec)
    ensures VScale(Add(c, d), a) == VAdd(VScale(c, a), VScale(d, a))
  {
    hide Add, Mul;
    forall j | 0 <= j < |a| { AddMul(c, d, a[j]); }
  }

  lemma VScaleScale(c: Byte, d: Byte, a: Vec)
    ensures VScale(c, VScale(d, a)) == VScale(Mul(c, d), a)
  {
    hide Add, Mul;
    forall j | 0 <= j < |a| { MulAssoc(c, d, a[j]); }
  }

  lemma VScaleUnits(a: Vec)
    ensures VScale(0, a) == Zeros(|a|) && VScale(1, a) == a
  {
    hide Add, Mul;
    forall j | 0 <= j < |a|
      ensures Mul(0, a[j]) == 0 && Mul(1, a[j]) == a[j]
    {
      MulZero(a[j]);
      MulOne(a[j]);
    }
  }

  lemma VScaleZeros(c: Byte, n: nat)
    ensures VScale(c, Zeros(n)) == Zeros(n)
  {
    hide Add, Mul;
    MulZero(c);
  }

  // ---------------------------------------------------------------- laws of combinations

  lemma {:induction false} CombAdd(p: Vec, q: Vec, m: Matrix, n: nat, w: nat)
    requires |p| == |q| && n <= |q| && n <= |m| && IsMatrix(m, |m|, w)
    ensures Comb(VAdd(p, q), m, n, w) == VAdd(Comb(p, m, n, w), Comb(q, m, n, w))
  {
    hide Add, Mul, VAdd, VScale;
    if n == 0 {
      VAddZeros(Zeros(w));
    } else {
      CombAdd(p, q, m, n - 1, w);
      VAddScale(p[n - 1], q[n - 1], m[n - 1]);
      VAddShuffle(Comb(p, m, n - 1, w), Comb(q, m, n - 1, w), VScale(p[n - 1], m[n - 1]), VScale(q[n - 1], m[n - 1]));
    }
  }

  lemma {:induction false} CombScale(c: Byte, q: Vec, m: Matrix, n: nat, w: nat)
    requires n <= |q| && n <= |m| && IsMatrix(m, |m|, w)
    ensures Comb(VScale(c, q), m, n, w) == VScale(c, Comb(q, m, n, w))
  {
    hide Add, Mul, VAdd, VScale;
    if n == 0 {
      VScaleZeros(c, w);
    } else {
      CombScale(c, q, m, n - 1, w);
      VScaleScale(c, q[n - 1], m[n - 1]);
      VScaleAdd(c, Comb(q, m, n - 1, w), VScale(q[n - 1], m[n - 1]));
    }
  }

  /** A zero coefficient vector combines to zero, a unit vector selects a row. */
  lemma {:induction false} CombZeros(q: Vec, m: Matrix, n: nat, w: nat)
    requires n <= |q| && n <= |m| && IsMatrix(m, |m|, w)
    requires forall j :: 0 <= j < n ==> q[j] == 0
    ensures Comb(q, m, n, w) == Zeros(w)
  {
    hide Add, Mul, VAdd, VScale;
    if n != 0 {
      CombZeros(q, m, n - 1, w);
      VScaleUnits(m[n - 1]);
      VAddZeros(Zeros(w));
    }
  }

  lemma {:induction false} CombUnit(i: nat, m: Matrix, n: nat, w: nat)
    requires i < n <= |m| && IsMatrix(m, |m|, w)
    ensures Comb(Unit(|m|, i), m, n, w) == m[i]
  {
    hide Add, Mul, VAdd, VScale;
    VScaleUnits(m[n - 1]);
    if i == n - 1 {
      CombZeros(Unit(|m|, i), m, n - 1, w);
      VAddZeros(m[i]);
    } else {
      CombUnit(i, m, n - 1, w);
      VAddZeros(m[i]);
    }
  }

  /** Combining the rows of a product is combining the rows of its left factor first. */
  lemma {:induction false} CombProduct(q: Vec, a: Matrix, b: Matrix, n: nat, w: nat)
    requires n <= |q| && n <= |a| && IsMatrix(a, |a|, |b|) && IsMatrix(b, |b|, w)
    ensures Comb(q, Product(a, b, w), n, w) == Comb(Comb(q, a, n, |b|), b, |b|, w)
  {
    hide Add, Mul, VAdd, VScale;
    if n == 0 {
      CombZeros(Zeros(|b|), b, |b|, w);
    } else {
      CombProduct(q, a, b, n - 1, w);
      CombScale(q[n - 1], a[n - 1], b, |b|, w);
      CombAdd(Comb(q, a, n - 1, |b|), VScale(q[n - 1], a[n - 1]), b, |b|, w);
    }
  }

  lemma ProductAssoc(a: Matrix, b: Matrix, c: Matrix, w: nat)
    requires IsMatrix(a, |a|, |b|) && IsMatrix(b, |b|, |c|) && IsMatrix(c, |c|, w)
    ensures Product(Product(a, b, |c|), c, w) == Product(a, Product(b, c, w), w)
  {
    forall i | 0 <= i < |a|
      ensures Product(Product(a, b, |c|), c, w)[i] == Product(a, Product(b, c, w), w)[i]
    {
      CombProduct(a[i], b, c, |b|, w);
    }
  }

  /** The first n coordinates of a combination of unit rows are its coefficients. */
  lemma {:induction false} CombIdentityPrefix(q: Vec, n: nat, w: nat, j: nat)
    requires n <= |q| && n <= w && j < w
    ensures Comb(q, Identity(w), n, w)[j] == if j < n then q[j] else 0
  {
    hide Add, Mul;
    if n != 0 {
      CombIdentityPrefix(q, n - 1, w, j);
      MulOne(q[n - 1]);
      MulZero(q[n - 1]);
      AddZero(q[n - 1]);
      AddZero(if j < n - 1 then q[j] else 0);
    }
  }

  lemma CombIdentity(q: Vec)
    ensures Comb(q, Identity(|q|), |q|, |q|) == q
  {
    forall j: nat | j < |q| { CombIdentityPrefix(q, |q|, |q|, j); }
  }

  lemma IdentityProduct(m: Matrix, n: nat, w: nat)
    requires IsMatrix(m, n, w)
    ensures Product(Identity(n), m, w) == m
  {
    forall i: nat | i < n
      ensures Product(Identity(n), m, w)[i] == m[i]
    {
      CombUnit(i, m, n, w);
    }
  }

  // ---------------------------------------------------------------- inner products

  lemma {:induction false} DotAdd(a: Vec, b: Vec, v: Vec, n: nat)
    requires |a| == |b| && n <= |a| && n <= |v|
    ensures Dot(VAdd(a, b), v, n) == Add(Dot(a, v, n), Dot(b, v, n))
  {
    hide Add, Mul;
    if n == 0 {
      AddZero(0);
    } else {
      DotAdd(a, b, v, n - 1);
      AddMul(a[n - 1], b[n - 1], v[n - 1]);
      AddShuffle(Dot(a, v, n - 1), Dot(b, v, n - 1), Mul(a[n - 1], v[n - 1]), Mul(b[n - 1], v[n - 1]));
    }
  }

  lemma {:induction false} DotScale(c: Byte, a: Vec, v: Vec, n: nat)
    requires n <= |a| && n <= |v|
    ensures Dot(VScale(c, a), v, n) == Mul(c, Dot(a, v, n))
  {
    hide Add, Mul;
    if n == 0 {
      MulZero(c);
    } else {
      DotScale(c, a, v, n - 1);
      MulAssoc(c, a[n - 1], v[n - 1]);
      MulAdd(c, Dot(a, v, n - 1), Mul(a[n - 1], v[n - 1]));
    }
  }

  lemma {:induction false} DotZeros(a: Vec, v: Vec, n: nat)
    requires n <= |a| && n <= |v|
    requires forall j :: 0 <= j < n ==> a[j] == 0 || v[j] == 0
    ensures Dot(a, v, n) == 0
  {
    hide Add, Mul;
    if n != 0 {
      DotZeros(a, v, n - 1);
      MulZero(a[n - 1]);
      MulZero(v[n - 1]);
      AddZero(0);
    }
  }

  /** v is orthogonal to every row of m. */
  ghost predicate Annihilates(v: Vec, m: Matrix) {
    forall i :: 0 <= i < |m| ==> |m[i]| == |v| && Dot(m[i], v, |v|) == 0
  }

  lemma {:induction false} CombOrthogonal(q: Vec, m: Matrix, v: Vec, n: nat)
    requires n <= |q| && n <= |m| && IsMatrix(m, |m|, |v|) && Annihilates(v, m)
    ensures Dot(Comb(q, m, n, |v|), v, |v|) == 0
  {
    hide Add, Mul, VAdd, VScale;
    if n == 0 {
      DotZeros(Zeros(|v|), v, |v|);
    } else {
      CombOrthogonal(q, m, v, n - 1);
      DotScale(q[n - 1], m[n - 1], v, |v|);
      DotAdd(Comb(q, m, n - 1, |v|), VScale(q[n - 1], m[n - 1]), v, |v|);
      MulZero(q[n - 1]);
      AddZero(0);
    }
  }

  // ---------------------------------------------------------------- row spans

  ghost predicate InSpan(v: Vec, m: Matrix)
    requires IsMatrix(m, |m|, |v|)
  {
    exists q: Vec :: |q| == |m| && v == Comb(q, m, |m|, |v|)
  }

  lemma SpanCoefficients(v: Vec, m: Matrix) returns (q: Vec)
    requires IsMatrix(m, |m|, |v|) && InSpan(v, m)
    ensures |q| == |m| && v == Comb(q, m, |m|, |v|)
  {
    q :| |q| == |m| && v == Comb(q, m, |m|, |v|);
  }

  lemma SpanRow(m: Matrix, i: nat, w: nat)
    requires i < |m| && IsMatrix(m, |m|, w)
    ensures InSpan(m[i], m)
  {
    CombUnit(i, m, |m|, w);
  }

  lemma SpanZeros(m: Matrix, w: nat)
    requires IsMatrix(m, |m|, w)
    ensures InSpan(Zeros(w), m)
  {
    CombZeros(Zeros(|m|), m, |m|, w);
  }

  lemma SpanAdd(a: Vec, b: Vec, m: Matrix)
    requires |a| == |b| && IsMatrix(m, |m|, |a|) && InSpan(a, m) && InSpan(b, m)
    ensures InSpan(VAdd(a, b), m)
  {
    var p: Vec :| |p| == |m| && a == Comb(p, m, |m|, |a|);
    var q: Vec :| |q| == |m| && b == Comb(q, m, |m|, |a|);
    CombAdd(p, q, m, |m|, |a|);
  }

  lemma SpanScale(c: Byte, a: Vec, m: Matrix)
    requires IsMatrix(m, |m|, |a|) && InSpan(a, m)
    ensures InSpan(VScale(c, a), m)
  {
    var q: Vec :| |q| == |m| && a == Comb(q, m, |m|, |a|);
    CombScale(c, q, m, |m|, |a|);
  }

  /** Every row of m is a combination of the rows of n. */
  ghost predicate Spanned(m: Matrix, n: Matrix, w: nat)
    requires IsMatrix(m, |m|, w) && IsMatrix(n, |n|, w)
  {
    forall i :: 0 <= i < |m| ==> InSpan(m[i], n)
  }

  lemma {:induction false} CombInSpan(q: Vec, m: Matrix, n: Matrix, r: nat, w: nat)
    requires IsMatrix(m, |m|, w) && IsMatrix(n, |n|, w) && Spanned(m, n, w) && r <= |m| && r <= |q|
    ensures InSpan(Comb(q, m, r, w), n)
  {
    if r == 0 {
      SpanZeros(n, w);
    } else {
      CombInSpan(q, m, n, r - 1, w);
      SpanScale(q[r - 1], m[r - 1], n);
      SpanAdd(Comb(q, m, r - 1, w), VScale(q[r - 1], m[r - 1]), n);
    }
  }

  lemma SpannedTransitive(l: Matrix, m: Matrix, n: Matrix, w: nat)
    requires IsMatrix(l, |l|, w) && IsMatrix(m, |m|, w) && IsMatrix(n, |n|, w)
    requires Spanned(l, m, w) && Spanned(m, n, w)
    ensures Spanned(l, n, w)
  {
    forall i | 0 <= i < |l|
      ensures InSpan(l[i], n)
    {
      var q: Vec :| |q| == |m| && l[i] == Comb(q, m, |m|, w);
      CombInSpan(q, m, n, |m|, w);
    }
  }

  lemma SpannedReflexive(m: Matrix, w: nat)
    requires IsMatrix(m, |m|, w)
    ensures Spanned(m, m, w)
  {
    forall i: nat | i < |m| { SpanRow(m, i, w); }
  }

  /** Vectors orthogonal to the rows of n are orthogonal to every spanned row. */
  lemma SpannedOrthogonal(m: Matrix, n: Matrix, v: Vec)
    requires IsMatrix(m, |m|, |v|) && IsMatrix(n, |n|, |v|)
    requires Spanned(m, n, |v|) && Annihilates(v, n)
    ensures Annihilates(v, m)
  {
    forall i | 0 <= i < |m|
      ensures Dot(m[i], v, |v|) == 0
    {
      assert InSpan(m[i], n);
      var q: Vec :| |q| == |n| && m[i] == Comb(q, n, |n|, |v|);
      CombOrthogonal(q, n, v, |n|);
    }
  }

  // ---------------------------------------------------------------- side by side

  /** Row by row concatenation [a | b]. */
  function Beside(a: Matrix, b: Matrix): (r: Matrix)
    requires |a| == |b|
    ensures |r| == |a| && forall i :: 0 <= i < |a| ==> r[i] == a[i] + b[i]
  {
    seq(|a|, i requires 0 <= i < |a| => a[i] + b[i])
  }

  lemma {:induction false} CombBeside(q: Vec, a: Matrix, b: Matrix, n: nat, w: nat, z: nat)
    requires |a| == |b| && n <= |q| && n <= |a| && IsMatrix(a, |a|, w) && IsMatrix(b, |b|, z)
    ensures Comb(q, Beside(a, b), n, w + z) == Comb(q, a, n, w) + Comb(q, b, n, z)
  {
    hide Add, Mul;
    if n != 0 {
      CombBeside(q, a, b, n - 1, w, z);
      hide VAdd, VScale;
      VScaleConcat(q[n - 1], a[n - 1], b[n - 1]);
      VAddConcat(Comb(q, a, n - 1, w), Comb(q, b, n - 1, z), VScale(q[n - 1], a[n - 1]), VScale(q[n - 1], b[n - 1]));
    } else {
      assert Zeros(w + z) == Zeros(w) + Zeros(z);
    }
  }

  lemma VScaleConcat(c: Byte, a: Vec, b: Vec)
    ensures VScale(c, a + b) == VScale(c, a) + VScale(c, b)
  {
    hide Mul;
  }

  lemma VAddConcat(a: Vec, b: Vec, c: Vec, d: Vec)
    requires |a| == |c| && |b| == |d|
    ensures VAdd(a + b, c + d) == VAdd(a, c) + VAdd(b, d)
  {
    hide Add;
  }
}
