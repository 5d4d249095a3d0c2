/** The field GF(2^8) of the erasure code as log/antilog tables, and the proof that the
    tables compute the product of polynomials modulo x^8+x^4+x^3+x^2+1. */
module GF256 {
  import opened BinaryPolynomials
  import opened PolynomialProducts
  import Machine = ByteBits

  const POLY := 0x11D

  type Byte = x: nat | x < 256

  // ---------------------------------------------------------------- tables

  /** Multiplication by alpha = 2. */
  function Double(a: Byte): (d: Byte) {
    ByteBound(a);
    if 2 * a >= 0x100 then Xor(2 * a, POLY) else 2 * a
  }

  lemma ByteBound(a: Byte)
    ensures 2 * a >= 0x100 ==> Xor(2 * a, POLY) < 256
  {
    hide Xor;
    assert Pow2(8) == 256;
    if 2 * a >= 0x100 {
      XorTop(2 * a, POLY, 8);
    }
  }

  /** alpha^n. */
  function Power(n: nat): Byte {
    if n == 0 then 1 else Double(Power(n - 1))
  }

  /** Least exponent in [i, 255) whose power is a, or 0. */
  function FindLog(a: nat, i: nat): (r: nat)
    requires i <= 255
    ensures r < 255
    decreases 255 - i
  {
    if i == 255 then 0 else if Power(i) == a then i else FindLog(a, i + 1)
  }

  function Exp(): (t: seq<Byte>)
    ensures |t| == 512 && forall i :: 0 <= i < 512 ==> t[i] == Power(i)
  {
    seq(512, i requires 0 <= i < 512 => Power(i))
  }

  function Log(): (t: seq<nat>)
    ensures |t| == 256 && forall a :: 0 <= a < 256 ==> t[a] == FindLog(a, 0) < 255
  {
    seq(256, a requires 0 <= a < 256 => FindLog(a, 0))
  }

  function Mul(a: Byte, b: Byte): Byte {
    if a == 0 || b == 0 then 0 else Exp()[Log()[a] + Log()[b]]
  }

  function Inv(a: Byte): Byte
    requires a != 0
  {
    Exp()[255 - Log()[a]]
  }

  function Div(a: Byte, b: Byte): Byte
    requires b != 0
  {
    if a == 0 then 0 else Exp()[Log()[a] + 255 - Log()[b]]
  }

  // ---------------------------------------------------------------- alpha has order 255

  lemma PowerNext(n: nat, a: bv8)
    requires Power(n) == a as int
    ensures Power(n + 1) == Machine.Double(a) as int
  {
    hide Xor;
    Machine.DoubleIsReducedShift(a);
  }

  /** No power with an exponent in [lo, hi) is 1. */
  ghost predicate AvoidsOne(lo: nat, hi: nat) {
    forall d :: lo <= d < hi ==> Power(d) != 1
  }

  lemma FourPowers(n: nat, a: bv8)
    requires Power(n) == a as int
    ensures Power(n + 1) == Machine.Double(a) as int
    ensures Power(n + 2) == Machine.Double(Machine.Double(a)) as int
    ensures Power(n + 3) == Machine.Double(Machine.Double(Machine.Double(a))) as int
    ensures Power(n + 4) == Machine.Double(Machine.Double(Machine.Double(Machine.Double(a)))) as int
  {
    hide Power, Machine.Double;
    var b := Machine.Double(a);
    var c := Machine.Double(b);
    PowerNext(n, a);
    PowerNext(n + 1, b);
    PowerNext(n + 2, c);
    PowerNext(n + 3, Machine.Double(c));
  }

  lemma BlockPowers(n: nat, a: bv8, b: bv8)
    requires Power(n) == a as int && Machine.Block(a, b)
    ensures Power(n + 8) == b as int && AvoidsOne(n, n + 8)
  {
    hide Power, Machine.Double;
    var e := Machine.Double(Machine.Double(Machine.Double(Machine.Double(a))));
    FourPowers(n, a);
    FourPowers(n + 4, e);
    forall d | n <= d < n + 8
      ensures Power(d) != 1
    {
      assert d == n || d == n + 1 || d == n + 2 || d == n + 3 || d == n + 4 || d == n + 5 || d == n + 6 || d == n + 7;
    }
  }

  lemma Powers0()
    requires Power(1) == 2
    ensures Power(65) == 190 && AvoidsOne(1, 65)
  {
    Machine.Blocks0();
    BlockPowers(1, 2, 58);
    BlockPowers(9, 58, 152);
    BlockPowers(17, 152, 3);
    BlockPowers(25, 3, 39);
    BlockPowers(33, 39, 212);
    BlockPowers(41, 212, 140);
    BlockPowers(49, 140, 186);
    BlockPowers(57, 186, 190);
  }

  lemma Powers1()
    requires Power(65) == 190
    ensures Power(129) == 23 && AvoidsOne(65, 129)
  {
    Machine.Blocks1();
    BlockPowers(65, 190, 202);
    BlockPowers(73, 202, 231);
    BlockPowers(81, 231, 225);
    BlockPowers(89, 225, 175);
    BlockPowers(97, 175, 26);
    BlockPowers(105, 26, 31);
    BlockPowers(113, 31, 118);
    BlockPowers(121, 118, 23);
  }

  lemma Powers2()
    requires Power(129) == 23
    ensures Power(193) == 25 && AvoidsOne(129, 193)
  {
    Machine.Blocks2();
    BlockPowers(129, 23, 158);
    BlockPowers(137, 158, 77);
    BlockPowers(145, 77, 146);
    BlockPowers(153, 146, 209);
    BlockPowers(161, 209, 229);
    BlockPowers(169, 229, 219);
    BlockPowers(177, 219, 55);
    BlockPowers(185, 55, 25);
  }

  lemma Powers3()
    requires Power(193) == 25
    ensures Power(249) == 54 && AvoidsOne(193, 249)
  {
    Machine.Blocks3();
    BlockPowers(193, 25, 56);
    BlockPowers(201, 56, 162);
    BlockPowers(209, 162, 155);
    BlockPowers(217, 155, 36);
    BlockPowers(225, 36, 243);
    BlockPowers(233, 243, 88);
    BlockPowers(241, 88, 54);
  }

  lemma LastPowers()
    requires Power(249) == 54
    ensures Power(255) == 1 && AvoidsOne(249, 255)
  {
    hide Power, Machine.Double;
    var a: bv8 := 54;
    Machine.LastBlock();
    FourPowers(249, a);
    PowerNext(253, Machine.Double(Machine.Double(Machine.Double(Machine.Double(a)))));
    PowerNext(254, Machine.Double(Machine.Double(Machine.Double(Machine.Double(Machine.Double(a))))));
    forall d | 249 <= d < 255
      ensures Power(d) != 1
    {
      assert d == 249 || d == 250 || d == 251 || d == 252 || d == 253 || d == 254;
    }
  }

  lemma Order255()
    ensures Power(255) == 1 && AvoidsOne(1, 255)
  {
    assert Power(1) == 2;
    hide Power;
    Powers0();
    Powers1();
    Powers2();
    Powers3();
    LastPowers();
    forall d | 1 <= d < 255
      ensures Power(d) != 1
    {
      assert d < 65 || 65 <= d < 129 || 129 <= d < 193 || 193 <= d < 249 || 249 <= d;
    }
  }

  lemma DoubleInjective(a: Byte, b: Byte)
    requires Double(a) == Double(b)
    ensures a == b
  {
    hide Xor;
    XorCancel(2 * a, POLY);
    XorCancel(2 * b, POLY);
    XorHalves(2 * a, POLY);
    XorHalves(2 * b, POLY);
  }

  lemma {:induction false} PowersDistinct(i: nat, j: nat)
    requires i < j < 255
    ensures Power(i) != Power(j)
  {
    hide Double;
    if i == 0 {
      Order255();
    } else {
      PowersDistinct(i - 1, j - 1);
      if Power(i) == Power(j) {
        DoubleInjective(Power(i - 1), Power(j - 1));
      }
    }
  }

  lemma {:induction false} PowerPeriodic(n: nat)
    ensures Power(n + 255) == Power(n)
  {
    hide Double;
    if n == 0 {
      Order255();
    } else {
      PowerPeriodic(n - 1);
    }
  }

  lemma DoubleNonzero(a: Byte)
    requires a != 0
    ensures Double(a) != 0
  {
    hide Xor;
    XorHalves(2 * a, POLY);
  }

  lemma {:induction false} PowerNonzero(n: nat)
    ensures Power(n) != 0
  {
    if n != 0 {
      hide Double;
      PowerNonzero(n - 1);
      DoubleNonzero(Power(n - 1));
    }
  }

  // ---------------------------------------------------------------- every nonzero byte is a power

  ghost function PowersBelow(n: nat): set<nat> {
    set i: nat | i < n :: Power(i) as nat
  }

  ghost function NonzeroBelow(n: nat): (r: set<nat>)
    ensures forall x :: x in r <==> 0 < x <= n
    ensures |r| == n
  {
    if n == 0 then {} else NonzeroBelow(n - 1) + {n}
  }

  lemma {:induction false} PowersBelowSize(n: nat)
    requires n <= 255
    ensures |PowersBelow(n)| == n
  {
    hide Power;
    if n == 0 {
      assert PowersBelow(0) == {};
    } else {
      PowersBelowSize(n - 1);
      assert PowersBelow(n) == PowersBelow(n - 1) + {Power(n - 1) as nat};
      if Power(n - 1) in PowersBelow(n - 1) {
        var i: nat :| i < n - 1 && Power(i) == Power(n - 1);
        PowersDistinct(i, n - 1);
      }
    }
  }

  lemma SubsetOfSameSize<T>(a: set<T>, b: set<T>)
    requires a <= b && |a| == |b|
    ensures a == b
  {
    assert |b - a| == |b| - |a|;
  }

  /** alpha generates: 255 distinct powers fill the 255 nonzero bytes. */
  lemma SomePower(a: Byte)
    requires a != 0
    ensures exists i: nat :: i < 255 && Power(i) == a
  {
    hide Power;
    PowersBelowSize(255);
    forall x | x in PowersBelow(255)
      ensures x in NonzeroBelow(255)
    {
      var i: nat :| i < 255 && Power(i) == x;
      PowerNonzero(i);
    }
    SubsetOfSameSize(PowersBelow(255), NonzeroBelow(255));
    assert (a as nat) in PowersBelow(255);
  }

  lemma {:induction false} FindLogFinds(a: Byte, i: nat, j: nat)
    requires i <= j < 255 && Power(j) == a
    ensures Power(FindLog(a, i)) == a
    decreases j - i
  {
    hide Power;
    if Power(i) != a {
      FindLogFinds(a, i + 1, j);
    }
  }

  /** Log inverts Exp on the nonzero bytes. */
  lemma LogExp(a: Byte)
    requires a != 0
    ensures Log()[a] < 255 && Power(Log()[a]) == a
  {
    hide Power;
    SomePower(a);
    var j: nat :| j < 255 && Power(j) == a;
    FindLogFinds(a, 0, j);
  }

  // ---------------------------------------------------------------- the product

  lemma DoubleIsMod(a: Byte)
    ensures Double(a) == Mod(2 * a, POLY)
  {
    hide Xor;
    assert Pow2(8) == 256 && Pow2(9) == 512 && Deg(POLY) == 8;
    DegUnique(2 * a, 8);
    DegUnique(2 * a, 9);
    if 2 * a < 256 {
      ModSmall(2 * a, POLY);
    } else {
      ModStep(2 * a, POLY);
      assert Shl(POLY, 0) == POLY;
      ByteBound(a);
      DegUnique(Double(a), 8);
      ModSmall(Double(a), POLY);
    }
  }

  lemma OneIsReduced()
    ensures Mod(1, POLY) == 1
  {
    assert Deg(POLY) == 8 && Deg(1) == 0;
    ModSmall(1, POLY);
  }

  lemma ModDouble(x: nat, p: nat)
    requires p != 0
    ensures Mod(2 * Mod(x, p), p) == Mod(2 * x, p)
  {
    hide Mod, Deg;
    ShlDouble(x, 0);
    ShlDouble(Mod(x, p), 0);
    ModShift(x, p, 1);
  }

  lemma {:induction false} PowerIsMod(n: nat)
    ensures Power(n) == Mod(Pow2(n), POLY)
  {
    hide Double, Deg, Mod;
    if n == 0 {
      OneIsReduced();
    } else {
      PowerIsMod(n - 1);
      DoubleIsMod(Power(n - 1));
      ModDouble(Pow2(n - 1), POLY);
    }
  }

  /** Exponents add. */
  lemma PolynomialProductOfPowers(i: nat, j: nat)
    ensures Mod(Times(Power(i), Power(j)), POLY) == Power(i + j)
  {
    hide Power, Mod, Times, Pow2, Shl;
    PowerIsMod(i);
    PowerIsMod(j);
    PowerIsMod(i + j);
    ModTimesLeft(Pow2(i), Power(j), POLY);
    TimesPow2Left(i, Power(j));
    ModShift(Pow2(j), POLY, i);
    ShlOne(j);
    ShlOne(j + i);
    ShlSum(1, j, i);
  }

  /** The table product is the product of the two polynomials, reduced modulo 0x11D. */
  lemma MulIsPolynomialProduct(a: Byte, b: Byte)
    ensures Mul(a, b) == Mod(Times(a, b), POLY)
  {
    hide Power;
    if a == 0 || b == 0 {
      TimesZero(a);
      ZeroTimes(b);
      assert Deg(0) < Deg(POLY);
      ModSmall(0, POLY);
    } else {
      hide Mod, Times;
      LogExp(a);
      LogExp(b);
      PolynomialProductOfPowers(Log()[a], Log()[b]);
    }
  }

  lemma {:induction false} ZeroTimes(b: nat)
    ensures Times(0, b) == 0
    decreases b
  {
    hide Xor;
    XorZero(0);
    if b != 0 {
      ZeroTimes(b / 2);
    }
  }

  lemma MulPowers(i: nat, j: nat)
    ensures Mul(Power(i), Power(j)) == Power(i + j)
  {
    hide Power, Mul;
    MulIsPolynomialProduct(Power(i), Power(j));
    PolynomialProductOfPowers(i, j);
  }

  // ---------------------------------------------------------------- field laws

  lemma MulZero(a: Byte)
    ensures Mul(a, 0) == 0 && Mul(0, a) == 0
  {}

  lemma MulOne(a: Byte)
    ensures Mul(a, 1) == a && Mul(1, a) == a
  {
    assert Power(0) == 1;
    hide Power;
    if a != 0 {
      LogExp(a);
      MulPowers(Log()[a], 0);
      MulPowers(0, Log()[a]);
    }
  }

  lemma MulComm(a: Byte, b: Byte)
    ensures Mul(a, b) == Mul(b, a)
  {}

  lemma MulAssoc(a: Byte, b: Byte, c: Byte)
    ensures Mul(Mul(a, b), c) == Mul(a, Mul(b, c))
  {
    hide Power;
    if a != 0 && b != 0 && c != 0 {
      hide Mul;
      var i, j, k := Log()[a], Log()[b], Log()[c];
      LogExp(a);
      LogExp(b);
      LogExp(c);
      MulPowers(i, j);
      MulPowers(i + j, k);
      MulPowers(j, k);
      MulPowers(i, j + k);
    }
  }

  lemma XorByte(a: Byte, b: Byte)
    ensures Xor(a, b) < 256
  {
    assert Pow2(8) == 256;
    XorBound(a, b, 8);
  }

  function Add(a: Byte, b: Byte): Byte {
    XorByte(a, b);
    Xor(a, b)
  }

  lemma MulAdd(a: Byte, b: Byte, c: Byte)
    ensures Mul(a, Add(b, c)) == Add(Mul(a, b), Mul(a, c))
  {
    hide Mul, Mod, Times, Xor;
    MulIsPolynomialProduct(a, b);
    MulIsPolynomialProduct(a, c);
    MulIsPolynomialProduct(a, Add(b, c));
    TimesAddRight(a, b, c);
    ModAdd(Times(a, b), Times(a, c), POLY);
  }

  lemma MulInv(a: Byte)
    requires a != 0
    ensures Inv(a) != 0 && Mul(a, Inv(a)) == 1 && Mul(Inv(a), a) == 1
  {
    hide Power, Mul;
    LogExp(a);
    var i := Log()[a];
    MulPowers(i, 255 - i);
    MulPowers(255 - i, i);
    Order255();
    PowerNonzero(255 - i);
  }

  lemma MulNonzero(a: Byte, b: Byte)
    requires a != 0 && b != 0
    ensures Mul(a, b) != 0
  {
    hide Power, Mul;
    LogExp(a);
    LogExp(b);
    MulPowers(Log()[a], Log()[b]);
    PowerNonzero(Log()[a] + Log()[b]);
  }

  /** Division undoes multiplication. */
  lemma DivMul(a: Byte, b: Byte)
    requires b != 0
    ensures Div(Mul(a, b), b) == a && Mul(Div(a, b), b) == a
  {
    hide Power;
    if a != 0 {
      LogExp(a);
      LogExp(b);
      DivPowers(a, b);
      MulNonzero(a, b);
      DivPowers(Mul(a, b), b);
      hide Mul, Div;
      MulInv(b);
      MulAssoc(a, b, Inv(b));
      MulAssoc(a, Inv(b), b);
      MulOne(a);
    }
  }

  lemma DivPowers(a: Byte, b: Byte)
    requires a != 0 && b != 0
    ensures Div(a, b) == Mul(a, Inv(b))
  {
    hide Power;
    LogExp(a);
    LogExp(b);
    MulPowers(Log()[a], 255 - Log()[b]);
  }

  // ---------------------------------------------------------------- table construction

  lemma {:induction false} ZeroHasNoLog(i: nat)
    requires i <= 255
    ensures FindLog(0, i) == 0
    decreases 255 - i
  {
    hide Power;
    if i < 255 {
      PowerNonzero(i);
      ZeroHasNoLog(i + 1);
    }
  }

  lemma LogDetermined(l: seq<nat>)
    requires |l| == 256 && l[0] == 0
    requires forall j :: 0 <= j < 255 ==> l[Power(j)] == j
    ensures l == Log()
  {
    hide Power;
    forall a: nat | a < 256
      ensures l[a] == Log()[a]
    {
      if a == 0 {
        ZeroHasNoLog(0);
      } else {
        LogExp(a);
        assert l[Power(Log()[a])] == Log()[a];
      }
    }
  }

  /** The loop that fills the tables: x runs through the powers of alpha by a shift and a
      conditional xor, and each power records its exponent. */
  method BuildTables() returns (exp: seq<Byte>, log: seq<nat>)
    ensures exp == Exp() && log == Log()
  {
    hide Power, Double;
    var e := new Byte[512](_ => 0);
    var l := new nat[256](_ => 0);
    var x: nat := 1;
    PowerZero();
    for i := 0 to 255
      invariant x == Power(i)
      invariant forall j :: 0 <= j < i ==> e[j] == Power(j)
      invariant forall j :: 0 <= j < i ==> l[Power(j)] == j
      invariant l[0] == 0
    {
      PowerNonzero(i);
      forall j | 0 <= j < i
        ensures Power(j) != Power(i)
      {
        PowersDistinct(j, i);
      }
      e[i] := x;
      l[x] := i;
      PowerSucc(i);
      x := 2 * x;
      if x >= 0x100 {
        x := Xor(x, POLY);
      }
    }
    LogDetermined(l[..]);
    for i := 255 to 512
      invariant forall j :: 0 <= j < i ==> e[j] == Power(j)
      invariant l[..] == Log()
    {
      PowerPeriodic(i - 255);
      e[i] := e[i - 255];
    }
    exp, log := e[..], l[..];
  }

  lemma PowerZero()
    ensures Power(0) == 1
  {}

  lemma PowerSucc(n: nat)
    ensures Power(n + 1) == if 2 * Power(n) >= 0x100 then Xor(2 * Power(n), POLY) else 2 * Power(n)
  {}
}
