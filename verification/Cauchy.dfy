/** The systematic Cauchy code: every k rows of [I ; C] have a trivial kernel, for every
    k and m with k + m <= 256. No determinants: a Cauchy system loses one row and one
    column at a time. */
module Cauchy {
  import opened GF256
  import opened LinearAlgebra
  import opened GaussJordan
  import opened Sequences

  // ---------------------------------------------------------------- construction

  ghost predicate ValidParameters(k: int, m: int) {
    k >= 1 && m >= 0 && k + m <= 256
  }

  lemma DifferentSum(a: Byte, b: Byte)
    requires a != b
    ensures Add(a, b) != 0
  {
    AddIsZero(a, b);
  }

  /** The row 1 / (x + y_j) for y_j = j below k. */
  function CauchyRow(x: nat, k: nat): (r: Vec)
    requires k <= x < 256
    ensures |r| == k && forall j :: 0 <= j < k ==> r[j] == Recip(Add(x, j))
  {
    assert forall j: nat :: j < k ==> Add(x, j) != 0 by {
      forall j: nat | j < k
        ensures Add(x, j) != 0
      {
        DifferentSum(x, j);
      }
    }
    hide Add, Inv;
    seq(k, j requires 0 <= j < k => Inv(Add(x, j)))
  }

  /** C[i][j] = 1 / (x_i + y_j) with x_i = k + i and y_j = j. */
  function CauchyMatrix(m: nat, k: nat): (c: Matrix)
    requires ValidParameters(k, m)
    ensures IsMatrix(c, m, k) && forall i :: 0 <= i < m ==> c[i] == CauchyRow(k + i, k)
  {
    var c: Matrix := seq(m, i requires 0 <= i < m => CauchyRow(k + i, k));
    assert forall i: nat :: i < m ==> c[i] == CauchyRow(k + i, k);
    c
  }

  /** [I_k ; C], or k = 1 with all-ones parity rows: plain replication. */
  function EncodingMatrix(k: nat, m: nat): (e: Matrix)
    requires ValidParameters(k, m)
    ensures IsMatrix(e, k + m, k)
  {
    var parity: Matrix := if k == 1 then seq(m, _ => [1]) else CauchyMatrix(m, k);
    Identity(k) + parity
  }

  /** The entries of the encoding matrix: the identity on top; below it ones for k = 1, and otherwise in row k + i
      and column j the inverse of the sum of k + i and j. */
  lemma EncodingEntries(k: nat, m: nat, i: nat, j: nat)
    requires ValidParameters(k, m) && i < k + m && j < k
    ensures i < k ==> EncodingMatrix(k, m)[i][j] == if i == j then 1 else 0
    ensures i >= k == 1 ==> EncodingMatrix(k, m)[i][j] == 1
    ensures i >= k > 1 ==> Mul(Add(i, j), EncodingMatrix(k, m)[i][j]) == 1
  {
    if i < k {
      assert EncodingMatrix(k, m)[i] == Unit(k, i);
    } else if k > 1 {
      assert EncodingMatrix(k, m)[i] == CauchyRow(i, k);
      DifferentSum(i, j);
      RecipMul(Add(i, j));
    }
    hide Add, Mul, Recip;
  }

  function Rows(e: Matrix, present: seq<nat>): (r: Matrix)
    requires forall i :: 0 <= i < |present| ==> present[i] < |e|
    ensures |r| == |present| && forall i :: 0 <= i < |present| ==> r[i] == e[present[i]]
  {
    seq(|present|, i requires 0 <= i < |present| => e[present[i]])
  }

  // ---------------------------------------------------------------- fractions

  /** 1 / a, extended by 0 at 0. */
  ghost function Recip(a: Byte): Byte {
    if a == 0 then 0 else Inv(a)
  }

  lemma RecipMul(a: Byte)
    requires a != 0
    ensures Mul(a, Recip(a)) == 1 && Recip(a) != 0
  {
    hide Mul, Inv;
    MulInv(a);
  }

  lemma MulSwap(a: Byte, b: Byte, c: Byte)
    ensures Mul(a, Mul(b, c)) == Mul(b, Mul(a, c))
  {
    hide Mul;
    MulAssoc(a, b, c);
    MulAssoc(b, a, c);
    MulComm(a, b);
  }

  /** a * (v / a) = v. */
  lemma Cancel(a: Byte, v: Byte)
    requires a != 0
    ensures Mul(a, Mul(v, Recip(a))) == v
  {
    hide Mul, Recip;
    MulSwap(a, v, Recip(a));
    RecipMul(a);
    MulOne(v);
  }

  /** a + c = (a + b) + (b + c). */
  lemma AddThrough(a: Byte, b: Byte, c: Byte)
    ensures Add(a, c) == Add(Add(a, b), Add(b, c))
  {
    hide Add;
    AddAssoc(Add(a, b), b, c);
    AddAssoc(a, b, b);
    AddSelf(b);
    AddZero(a);
  }

  /** (x + z) * v / (x + y) = v + v * (y + z) / (x + y). */
  lemma TermSplit(x: Byte, y: Byte, z: Byte, v: Byte)
    requires x != y
    ensures Mul(Add(x, z), Mul(v, Recip(Add(x, y)))) == Add(v, Mul(Mul(v, Add(y, z)), Recip(Add(x, y))))
  {
    DifferentSum(x, y);
    hide Mul, Recip, Add;
    var a := Add(x, y);
    AddThrough(x, y, z);
    AddMul(a, Add(y, z), Mul(v, Recip(a)));
    Cancel(a, v);
    MulAssoc(Add(y, z), v, Recip(a));
    MulComm(Add(y, z), v);
  }

  /** w / (x + y) + w / (z + y) = (x + z) * (w / (z + y)) / (x + y). */
  lemma TermMerge(x: Byte, z: Byte, y: Byte, w: Byte)
    requires x != y && z != y
    ensures Add(Mul(w, Recip(Add(x, y))), Mul(w, Recip(Add(z, y))))
         == Mul(Add(x, z), Mul(Mul(w, Recip(Add(z, y))), Recip(Add(x, y))))
  {
    DifferentSum(x, y);
    DifferentSum(z, y);
    hide Mul, Recip, Add;
    var a, b := Add(x, y), Add(z, y);
    var p, q := Mul(w, Recip(a)), Mul(w, Recip(b));
    AddThrough(x, y, z);
    AddComm(y, z);
    AddMul(a, b, Mul(q, Recip(a)));
    Cancel(a, q);
    calc {
      Mul(b, Mul(q, Recip(a)));
      { MulAssoc(b, q, Recip(a)); }
      Mul(Mul(b, q), Recip(a));
      { Cancel(b, w); }
      p;
    }
    AddComm(p, q);
  }

  // ---------------------------------------------------------------- Cauchy sums

  /** The sum of v_j / (x + y_j) over the first n columns. */
  ghost function CauchySum(x: Byte, ys: Vec, v: Vec, n: nat): Byte
    requires n <= |ys| && n <= |v|
  {
    if n == 0 then 0 else Add(CauchySum(x, ys, v, n - 1), Mul(v[n - 1], Recip(Add(x, ys[n - 1]))))
  }

  ghost function Sum(v: Vec, n: nat): Byte
    requires n <= |v|
  {
    if n == 0 then 0 else Add(Sum(v, n - 1), v[n - 1])
  }

  ghost function Weighted(v: Vec, ys: Vec, z: Byte): (w: Vec)
    requires |v| == |ys|
    ensures |w| == |v| && forall j :: 0 <= j < |v| ==> w[j] == Mul(v[j], Add(ys[j], z))
  {
    seq(|v|, j requires 0 <= j < |v| => Mul(v[j], Add(ys[j], z)))
  }

  ghost function Divided(w: Vec, ys: Vec, z: Byte): (u: Vec)
    requires |w| == |ys|
    ensures |u| == |w| && forall j :: 0 <= j < |w| ==> u[j] == Mul(w[j], Recip(Add(z, ys[j])))
  {
    seq(|w|, j requires 0 <= j < |w| => Mul(w[j], Recip(Add(z, ys[j]))))
  }

  /** Multiplying a Cauchy sum by x + z. */
  lemma {:induction false} SumSplit(x: Byte, ys: Vec, v: Vec, z: Byte, n: nat)
    requires n <= |ys| == |v| && forall j :: 0 <= j < n ==> ys[j] != x
    ensures Mul(Add(x, z), CauchySum(x, ys, v, n)) == Add(Sum(v, n), CauchySum(x, ys, Weighted(v, ys, z), n))
  {
    hide Mul, Recip, Add;
    if n == 0 {
      MulZero(Add(x, z));
      AddZero(0);
    } else {
      var w := Weighted(v, ys, z);
      var t := Mul(v[n - 1], Recip(Add(x, ys[n - 1])));
      SumSplit(x, ys, v, z, n - 1);
      MulAdd(Add(x, z), CauchySum(x, ys, v, n - 1), t);
      TermSplit(x, ys[n - 1], z, v[n - 1]);
      AddShuffle(Sum(v, n - 1), CauchySum(x, ys, w, n - 1), v[n - 1], Mul(w[n - 1], Recip(Add(x, ys[n - 1]))));
    }
  }

  /** Adding two Cauchy sums with different x. */
  lemma {:induction false} SumMerge(x: Byte, z: Byte, ys: Vec, w: Vec, n: nat)
    requires n <= |ys| == |w| && forall j :: 0 <= j < n ==> ys[j] != x && ys[j] != z
    ensures Add(CauchySum(x, ys, w, n), CauchySum(z, ys, w, n))
            == Mul(Add(x, z), CauchySum(x, ys, Divided(w, ys, z), n))
  {
    hide Mul, Recip, Add;
    if n == 0 {
      MulZero(Add(x, z));
      AddZero(0);
    } else {
      var u := Divided(w, ys, z);
      var y := ys[n - 1];
      SumMerge(x, z, ys, w, n - 1);
      TermMerge(x, z, y, w[n - 1]);
      AddShuffle(CauchySum(x, ys, w, n - 1), Mul(w[n - 1], Recip(Add(x, y))),
                 CauchySum(z, ys, w, n - 1), Mul(w[n - 1], Recip(Add(z, y))));
      MulAdd(Add(x, z), CauchySum(x, ys, u, n - 1), Mul(u[n - 1], Recip(Add(x, y))));
    }
  }

  lemma {:induction false} SumOfZeros(x: Byte, ys: Vec, v: Vec, n: nat)
    requires n <= |ys| && n <= |v| && forall j :: 0 <= j < n ==> v[j] == 0
    ensures CauchySum(x, ys, v, n) == 0
  {
    hide Mul, Recip, Add;
    if n != 0 {
      SumOfZeros(x, ys, v, n - 1);
      MulZero(Recip(Add(x, ys[n - 1])));
      AddZero(0);
    }
  }

  ghost predicate CauchySystem(xs: Vec, ys: Vec, v: Vec, t: nat) {
    t <= |xs| && t <= |ys| == |v|
    && (forall i, j :: 0 <= i < j < t ==> xs[i] != xs[j] && ys[i] != ys[j])
    && (forall i, j :: 0 <= i < t && 0 <= j < t ==> xs[i] != ys[j])
    && (forall i :: 0 <= i < t ==> CauchySum(xs[i], ys, v, t) == 0)
  }

  /** Eliminate the last row and the last column of a homogeneous Cauchy system. */
  lemma EliminateOne(xs: Vec, ys: Vec, v: Vec, t: nat, i: nat)
    requires CauchySystem(xs, ys, v, t) && i < t - 1
    ensures CauchySum(xs[i], ys, Divided(Weighted(v, ys, ys[t - 1]), ys, xs[t - 1]), t - 1) == 0
  {
    hide Mul, Recip, Add;
    var y, z := ys[t - 1], xs[t - 1];
    var w := Weighted(v, ys, y);
    WeightedSum(xs, ys, v, t, i);
    WeightedSum(xs, ys, v, t, t - 1);
    SumMerge(xs[i], z, ys, w, t - 1);
    AddSelf(Sum(v, t));
    DifferentSum(xs[i], z);
    ZeroProduct(Add(xs[i], z), CauchySum(xs[i], ys, Divided(w, ys, z), t - 1));
  }

  lemma WeightedSum(xs: Vec, ys: Vec, v: Vec, t: nat, i: nat)
    requires CauchySystem(xs, ys, v, t) && i < t
    ensures CauchySum(xs[i], ys, Weighted(v, ys, ys[t - 1]), t - 1) == Sum(v, t)
  {
    hide Mul, Recip, Add;
    var y := ys[t - 1];
    var w := Weighted(v, ys, y);
    SumSplit(xs[i], ys, v, y, t);
    MulZero(Add(xs[i], y));
    AddIsZero(Sum(v, t), CauchySum(xs[i], ys, w, t));
    AddSelf(y);
    MulZero(v[t - 1]);
    MulZero(Recip(Add(xs[i], y)));
    AddZero(CauchySum(xs[i], ys, w, t - 1));
  }

  lemma ZeroProduct(a: Byte, b: Byte)
    requires Mul(a, b) == 0
    ensures a == 0 || b == 0
  {
    hide Mul;
    if a != 0 && b != 0 {
      MulNonzero(a, b);
    }
  }

  /** A homogeneous Cauchy system with distinct nodes has only the zero solution. */
  lemma {:induction false} CauchyInjective(xs: Vec, ys: Vec, v: Vec, t: nat)
    requires CauchySystem(xs, ys, v, t)
    ensures forall j :: 0 <= j < t ==> v[j] == 0
    decreases t
  {
    hide Mul, Recip, Add;
    if t != 0 {
      var y, z := ys[t - 1], xs[t - 1];
      var w := Weighted(v, ys, y);
      var u := Divided(w, ys, z);
      forall i: nat | i < t - 1
        ensures CauchySum(xs[i], ys, u, t - 1) == 0
      {
        EliminateOne(xs, ys, v, t, i);
      }
      CauchyInjective(xs, ys, u, t - 1);
      forall j: nat | j < t - 1
        ensures v[j] == 0
      {
        DifferentSum(z, ys[j]);
        RecipMul(Add(z, ys[j]));
        ZeroProduct(w[j], Recip(Add(z, ys[j])));
        DifferentSum(ys[j], y);
        ZeroProduct(v[j], Add(ys[j], y));
      }
      SumOfZeros(z, ys, v, t - 1);
      AddZero(Mul(v[t - 1], Recip(Add(z, y))));
      DifferentSum(z, y);
      RecipMul(Add(z, y));
      ZeroProduct(v[t - 1], Recip(Add(z, y)));
    }
  }

  // ---------------------------------------------------------------- survivors

  /** k distinct row numbers of the encoding matrix. */
  ghost predicate Survivors(present: seq<nat>, k: nat, m: nat) {
    ValidParameters(k, m) && |present| == k && Distinct(present)
    && forall i :: 0 <= i < k ==> present[i] < k + m
  }

  /** The columns below n whose own data row was lost. */
  function Lost(present: seq<nat>, n: nat): (r: seq<nat>)
    ensures forall i :: 0 <= i < |r| ==> r[i] < n && r[i] !in present
    ensures forall i, j :: 0 <= i < j < |r| ==> r[i] != r[j]
    ensures |r| + |DataRows(present, n)| == n
  {
    if n == 0 then
      assert DataRows(present, 0) == {};
      []
    else
      assert DataRows(present, n) == DataRows(present, n - 1) + (if n - 1 in present then {n - 1} else {});
      Lost(present, n - 1) + (if n - 1 in present then [] else [n - 1])
  }

  ghost function DataRows(present: seq<nat>, n: nat): set<nat> {
    set p | p in present && p < n
  }

  /** The parity rows among the survivors. */
  ghost function Parity(present: seq<nat>, k: nat): (r: seq<nat>)
    ensures forall i :: 0 <= i < |r| ==> r[i] >= k && r[i] in present
  {
    if present == [] then []
    else
      var last, rest := present[|present| - 1], present[..|present| - 1];
      Parity(rest, k) + (if last < k then [] else [last])
  }

  lemma {:induction false} ParityDistinct(present: seq<nat>, k: nat)
    requires Distinct(present)
    ensures Distinct(Parity(present, k))
  {
    if present != [] {
      var last, rest := present[|present| - 1], present[..|present| - 1];
      ParityDistinct(rest, k);
      assert last !in rest;
    }
  }

  /** Data rows and parity rows together are all the survivors. */
  lemma {:induction false} ParitySize(present: seq<nat>, k: nat)
    requires Distinct(present)
    ensures |Parity(present, k)| + |DataRows(present, k)| == |present|
  {
    if present == [] {
      assert DataRows([], k) == {};
    } else {
      var last, rest := present[|present| - 1], present[..|present| - 1];
      ParitySize(rest, k);
      assert last !in rest;
      assert present == rest + [last];
      assert DataRows(present, k) == DataRows(rest, k) + (if last < k then {last} else {});
    }
  }

  ghost function Pick(v: Vec, at: seq<nat>): (r: Vec)
    requires forall i :: 0 <= i < |at| ==> at[i] < |v|
    ensures |r| == |at| && forall i :: 0 <= i < |at| ==> r[i] == v[at[i]]
  {
    seq(|at|, i requires 0 <= i < |at| => v[at[i]])
  }

  lemma {:induction false} CauchySumPrefix(x: Byte, ys: Vec, zs: Vec, v: Vec, w: Vec, n: nat)
    requires n <= |ys| && n <= |zs| && n <= |v| && n <= |w|
    requires forall j :: 0 <= j < n ==> ys[j] == zs[j] && v[j] == w[j]
    ensures CauchySum(x, ys, v, n) == CauchySum(x, zs, w, n)
  {
    hide Mul, Recip, Add;
    if n != 0 {
      CauchySumPrefix(x, ys, zs, v, w, n - 1);
    }
  }

  /** With the surviving columns zero, a parity row's product is a Cauchy sum over the lost ones. */
  lemma {:induction false} ParityDot(x: nat, k: nat, present: seq<nat>, v: Vec, n: nat)
    requires n <= k <= x < 256 && |v| == k
    requires forall j :: 0 <= j < k && j in present ==> v[j] == 0
    ensures Dot(CauchyRow(x, k), v, n) == LostSum(x, present, v, n)
  {
    hide Mul, Recip, Add, LostSum;
    if n == 0 {
      LostSumStep(x, present, v, 0);
    } else {
      ParityDot(x, k, present, v, n - 1);
      LostSumStep(x, present, v, n);
      MulComm(v[n - 1], Recip(Add(x, n - 1)));
      if n - 1 in present {
        MulZero(Recip(Add(x, n - 1)));
        AddZero(LostSum(x, present, v, n - 1));
      }
    }
  }

  ghost function LostSum(x: Byte, present: seq<nat>, v: Vec, n: nat): Byte
    requires n <= |v| && n <= 256
  {
    var ys := Lost(present, n);
    CauchySum(x, ys, Pick(v, ys), |ys|)
  }

  lemma LostSumStep(x: Byte, present: seq<nat>, v: Vec, n: nat)
    requires n <= |v| && n <= 256
    ensures LostSum(x, present, v, n) ==
            if n == 0 then 0
            else if n - 1 in present then LostSum(x, present, v, n - 1)
            else Add(LostSum(x, present, v, n - 1), Mul(v[n - 1], Recip(Add(x, n - 1))))
  {
    hide Mul, Recip, Add;
    if n != 0 && n - 1 in present {
      assert Lost(present, n) == Lost(present, n - 1);
    } else if n != 0 {
      var ys, zs := Lost(present, n - 1), Lost(present, n);
      assert zs == ys + [n - 1];
      CauchySumPrefix(x, ys, zs, Pick(v, ys), Pick(v, zs), |ys|);
    }
  }

  /** A surviving data row forces its coordinate to zero. */
  lemma DataRowKills(k: nat, m: nat, present: seq<nat>, v: Vec, p: nat)
    requires Survivors(present, k, m) && |v| == k && p < k && present[p] < k
    requires Annihilates(v, Rows(EncodingMatrix(k, m), present))
    ensures v[present[p]] == 0
  {
    var e := EncodingMatrix(k, m);
    assert Rows(e, present)[p] == e[present[p]] == Unit(k, present[p]);
    DotUnit(v, present[p], k);
  }

  /** MDS: any k distinct rows of the encoding matrix have a trivial kernel. */
  lemma SurvivorsHaveNoKernel(k: nat, m: nat, present: seq<nat>, v: Vec)
    requires Survivors(present, k, m) && |v| == k
    requires Annihilates(v, Rows(EncodingMatrix(k, m), present))
    ensures v == Zeros(k)
  {
    if k == 1 {
      ReplicationHasNoKernel(m, present, v);
    } else {
      forall j | 0 <= j < k && j in present
        ensures v[j] == 0
      {
        var p: nat :| p < k && present[p] == j;
        DataRowKills(k, m, present, v, p);
      }
      LostColumnsVanish(k, m, present, v);
      forall j: nat | j < k
        ensures v[j] == 0
      {
        LostCovers(present, k, j);
      }
    }
  }

  lemma ReplicationHasNoKernel(m: nat, present: seq<nat>, v: Vec)
    requires Survivors(present, 1, m) && |v| == 1
    requires Annihilates(v, Rows(EncodingMatrix(1, m), present))
    ensures v == Zeros(1)
  {
    var row := EncodingMatrix(1, m)[present[0]];
    assert Rows(EncodingMatrix(1, m), present)[0] == row;
    assert row == [1];
    assert Dot(row, v, 1) == 0;
    DotStep(row, v, 0);
    hide Mul, Add;
    MulOne(v[0]);
    AddZero(v[0]);
  }

  lemma {:induction false} LostCovers(present: seq<nat>, n: nat, j: nat)
    requires j < n
    ensures j in present || j in Lost(present, n)
  {
    if j < n - 1 {
      LostCovers(present, n - 1, j);
    }
  }

  lemma LostColumnsVanish(k: nat, m: nat, present: seq<nat>, v: Vec)
    requires Survivors(present, k, m) && |v| == k && k > 1
    requires Annihilates(v, Rows(EncodingMatrix(k, m), present))
    requires forall j :: 0 <= j < k && j in present ==> v[j] == 0
    ensures forall j :: j in Lost(present, k) ==> v[j] == 0
  {
    var xs, ys := Parity(present, k), Lost(present, k);
    var w := Pick(v, ys);
    var t := |ys|;
    ParitySize(present, k);
    ParityDistinct(present, k);
    forall i: nat | i < t
      ensures CauchySum(xs[i], ys, w, t) == 0
    {
      ParityRowVanishes(k, m, present, v, xs[i]);
    }
    assert CauchySystem(xs, ys, w, t);
    CauchyInjective(xs, ys, w, t);
    forall j | j in ys
      ensures v[j] == 0
    {
      var i: nat :| i < t && ys[i] == j;
      assert w[i] == 0;
    }
  }

  lemma ParityRowVanishes(k: nat, m: nat, present: seq<nat>, v: Vec, x: nat)
    requires Survivors(present, k, m) && |v| == k > 1 && x in present && x >= k
    requires Annihilates(v, Rows(EncodingMatrix(k, m), present))
    requires forall j :: 0 <= j < k && j in present ==> v[j] == 0
    ensures x < 256 && LostSum(x, present, v, k) == 0
  {
    var p: nat :| p < k && present[p] == x;
    var e := EncodingMatrix(k, m);
    assert e[x] == CauchyMatrix(m, k)[x - k] == CauchyRow(x, k);
    assert Rows(e, present)[p] == e[x];
    ParityDot(x, k, present, v, k);
  }

  /** Hence every set of k survivors can be inverted. */
  lemma SurvivorsInvertible(k: nat, m: nat, present: seq<nat>)
    requires Survivors(present, k, m)
    ensures !HasKernelVector(Rows(EncodingMatrix(k, m), present), k)
  {
    forall v: Vec | |v| == k && Annihilates(v, Rows(EncodingMatrix(k, m), present))
      ensures v == Zeros(k)
    {
      SurvivorsHaveNoKernel(k, m, present, v);
    }
  }

  /** The lost columns are collected in ascending order. */
  lemma {:induction false} LostPrefix(present: seq<nat>, i: nat, n: nat)
    requires i <= n
    ensures Lost(present, i) <= Lost(present, n)
  {
    if i < n {
      LostPrefix(present, i, n - 1);
    }
  }

  /** Where column i stands among the lost ones. */
  lemma LostNext(present: seq<nat>, i: nat, n: nat)
    requires i < n
    ensures |Lost(present, i)| <= |Lost(present, n)|
    ensures i in present ==> |Lost(present, i + 1)| == |Lost(present, i)|
    ensures i !in present ==>
              |Lost(present, i)| < |Lost(present, n)| && Lost(present, n)[|Lost(present, i)|] == i
              && |Lost(present, i + 1)| == |Lost(present, i)| + 1
  {
    LostPrefix(present, i, n);
    LostPrefix(present, i + 1, n);
  }
}
