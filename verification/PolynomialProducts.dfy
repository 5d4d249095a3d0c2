/** Remainders and products of polynomials over GF(2): the remainder is a linear map,
    and reducing a factor before multiplying changes nothing. */
module PolynomialProducts {
  import opened BinaryPolynomials

  // ---------------------------------------------------------------- remainder

  lemma ModSmall(x: nat, p: nat)
    requires p != 0 && Deg(x) < Deg(p)
    ensures Mod(x, p) == x
  {}

  /** One step of the division loop, from the side of its definition. */
  lemma ModStep(x: nat, p: nat)
    requires p != 0 && Deg(x) >= Deg(p)
    ensures Mod(x, p) == Mod(Xor(x, Shl(p, Deg(x) - Deg(p))), p)
    ensures Deg(Xor(x, Shl(p, Deg(x) - Deg(p)))) < Deg(x)
  {
    hide Xor, Deg, Shl;
    DegShift(p, Deg(x) - Deg(p));
    DegXor(x, Shl(p, Deg(x) - Deg(p)));
  }

  lemma XorSwap(a: nat, b: nat, c: nat)
    ensures Xor(Xor(a, b), c) == Xor(Xor(a, c), b)
  {
    hide Xor;
    XorAssoc(a, b, c);
    XorAssoc(a, c, b);
    XorComm(b, c);
  }

  /** Adding any shift of p leaves the remainder unchanged. */
  lemma {:induction false} ModAddMultiple(x: nat, p: nat, s: nat)
    requires p != 0
    ensures Mod(Xor(x, Shl(p, s)), p) == Mod(x, p)
    decreases Deg(x) + 1
  {
    hide Xor, Deg, Shl, Mod;
    var q := Shl(p, s);
    var y := Xor(x, q);
    DegShift(p, s);
    DegXor(x, q);
    if Deg(x) < Deg(q) {
      ModStep(y, p);
      XorCancel(x, q);
    } else if Deg(x) == Deg(q) {
      ModStep(x, p);
    } else {
      var r := Shl(p, Deg(x) - Deg(p));
      ModStep(x, p);
      ModStep(y, p);
      XorSwap(x, q, r);
      ModAddMultiple(Xor(x, r), p, s);
    }
  }

  /** One division step on a summand, seen from the sum. */
  lemma ModAddStep(x: nat, y: nat, p: nat, s: nat)
    requires p != 0
    ensures Mod(Xor(Xor(x, Shl(p, s)), y), p) == Mod(Xor(x, y), p)
  {
    hide Xor, Deg, Shl, Mod;
    XorSwap(x, Shl(p, s), y);
    ModAddMultiple(Xor(x, y), p, s);
  }

  lemma {:induction false} ModAdd(x: nat, y: nat, p: nat)
    requires p != 0
    ensures Mod(Xor(x, y), p) == Xor(Mod(x, p), Mod(y, p))
    decreases Deg(x) + Deg(y) + 2, Deg(y) + 1
  {
    hide Xor, Deg, Shl, Mod;
    if Deg(x) >= Deg(p) {
      var s := Deg(x) - Deg(p);
      ModStep(x, p);
      ModAddStep(x, y, p, s);
      ModAdd(Xor(x, Shl(p, s)), y, p);
    } else if Deg(y) >= Deg(p) {
      ModAdd(y, x, p);
      XorComm(x, y);
      XorComm(Mod(x, p), Mod(y, p));
    } else {
      DegXor(x, y);
      ModSmall(x, p);
      ModSmall(y, p);
      ModSmall(Xor(x, y), p);
    }
  }

  /** Reducing before a shift is harmless. */
  lemma {:induction false} ModShift(x: nat, p: nat, n: nat)
    requires p != 0
    ensures Mod(Shl(Mod(x, p), n), p) == Mod(Shl(x, n), p)
    decreases Deg(x) + 1
  {
    hide Xor, Deg, Shl, Mod;
    if Deg(x) < Deg(p) {
      ModSmall(x, p);
    } else {
      var s := Deg(x) - Deg(p);
      ModStep(x, p);
      ModShift(Xor(x, Shl(p, s)), p, n);
      XorShift(x, Shl(p, s), n);
      ShlSum(p, s, n);
      ModAddMultiple(Shl(x, n), p, s + n);
    }
  }

  // ---------------------------------------------------------------- product

  /** The multiple of a that the lowest coefficient of b contributes. */
  function Term(a: nat, b: nat): nat {
    if b % 2 == 1 then a else 0
  }

  /** Carry-less product. */
  function Times(a: nat, b: nat): nat
    decreases b
  {
    if b == 0 then 0 else Xor(Term(a, b), Times(2 * a, b / 2))
  }

  lemma TermAddRight(a: nat, b: nat, c: nat)
    ensures Term(a, Xor(b, c)) == Xor(Term(a, b), Term(a, c))
  {
    hide Xor;
    assert Xor(b, c) % 2 == (b + c) % 2 by { XorHalves(b, c); }
    if b % 2 == 1 {
      assert Xor(b, c) % 2 != c % 2;
    } else {
      assert Xor(b, c) % 2 == c % 2;
    }
    XorZero(0);
    XorZero(a);
    XorSelf(a);
  }

  /** Unfolding a product also when the right factor is zero. */
  lemma TimesUnfold(a: nat, b: nat)
    ensures Times(a, b) == Xor(Term(a, b), Times(2 * a, b / 2))
  {
    XorZero(0);
  }

  lemma {:induction false} TimesAddRight(a: nat, b: nat, c: nat)
    ensures Times(a, Xor(b, c)) == Xor(Times(a, b), Times(a, c))
    decreases b + c
  {
    hide Xor, Term, Times;
    if b == 0 || c == 0 {
      XorZero(b);
      XorZero(c);
      XorZero(Times(a, b));
      XorZero(Times(a, c));
      assert Times(a, 0) == 0 by { TimesZero(a); }
    } else {
      TimesUnfold(a, b);
      TimesUnfold(a, c);
      TimesUnfold(a, Xor(b, c));
      TermAddRight(a, b, c);
      XorHalves(b, c);
      TimesAddRight(2 * a, b / 2, c / 2);
      XorShuffle(Term(a, b), Term(a, c), Times(2 * a, b / 2), Times(2 * a, c / 2));
    }
  }

  lemma TimesZero(a: nat)
    ensures Times(a, 0) == 0
  {}

  /** A product by x^n is a shift. */
  lemma {:induction false} TimesPow2Left(n: nat, b: nat)
    ensures Times(Pow2(n), b) == Shl(b, n)
    decreases b
  {
    hide Xor, Shl;
    if b == 0 {
      ShlZero(n);
    } else {
      TimesPow2Left(n + 1, b / 2);
      ShlOne(n);
      ShlZero(n);
      ShlDouble(b / 2, n);
      XorComm(Term(Pow2(n), b), Shl(2 * (b / 2), n));
      XorShift(2 * (b / 2), b % 2, n);
      EvenXorBit(b);
    }
  }

  lemma EvenXorBit(b: nat)
    ensures Xor(2 * (b / 2), b % 2) == b
  {
    XorZero(b / 2);
  }

  lemma {:induction false} ShlZero(n: nat)
    ensures Shl(0, n) == 0
  {
    if n != 0 {
      ShlZero(n - 1);
    }
  }

  /** Replacing the left factor by its remainder does not change the remainder of a product. */
  lemma {:induction false} TimesAddMultiple(a: nat, b: nat, p: nat, s: nat)
    requires p != 0
    ensures Mod(Times(Xor(a, Shl(p, s)), b), p) == Mod(Times(a, b), p)
    decreases b
  {
    hide Xor, Mod, Deg, Term, Times;
    var q := Shl(p, s);
    if b == 0 {
      TimesZero(a);
      TimesZero(Xor(a, q));
    } else {
      TimesUnfold(a, b);
      TimesUnfold(Xor(a, q), b);
      XorDouble(a, q);
      assert 2 * q == Shl(p, s + 1);
      TimesAddMultiple(2 * a, b / 2, p, s + 1);
      assert Mod(Term(Xor(a, q), b), p) == Mod(Term(a, b), p) by {
        ModAddMultiple(a, p, s);
        TermCases(a, b);
        TermCases(Xor(a, q), b);
      }
      ModAdd(Term(a, b), Times(2 * a, b / 2), p);
      ModAdd(Term(Xor(a, q), b), Times(2 * Xor(a, q), b / 2), p);
    }
  }

  lemma TermCases(a: nat, b: nat)
    ensures Term(a, b) == if b % 2 == 1 then a else 0
  {}

  lemma {:induction false} ModTimesLeft(a: nat, b: nat, p: nat)
    requires p != 0
    ensures Mod(Times(Mod(a, p), b), p) == Mod(Times(a, b), p)
    decreases Deg(a) + 1
  {
    hide Xor, Mod, Deg, Term, Shl, Times;
    if Deg(a) < Deg(p) {
      ModSmall(a, p);
    } else {
      var s := Deg(a) - Deg(p);
      ModStep(a, p);
      ModTimesLeft(Xor(a, Shl(p, s)), b, p);
      TimesAddMultiple(a, b, p, s);
    }
  }
}
