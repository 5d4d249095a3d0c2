/** Polynomials over GF(2), written as natural numbers: bit i of the number is the
    coefficient of x^i. Addition is Xor; a product by x^n is a product by 2^n. */
module BinaryPolynomials {

  function Pow2(n: nat): (p: nat)
    ensures p > 0
  {
    if n == 0 then 1 else 2 * Pow2(n - 1)
  }

  /** a shifted left by n bits: the product of the polynomial a by x^n. */
  function Shl(a: nat, n: nat): nat {
    if n == 0 then a else 2 * Shl(a, n - 1)
  }

  lemma {:induction false} ShlSum(a: nat, m: nat, n: nat)
    ensures Shl(Shl(a, m), n) == Shl(a, m + n)
  {
    if n != 0 {
      ShlSum(a, m, n - 1);
    }
  }

  lemma {:induction false} ShlDouble(a: nat, n: nat)
    ensures Shl(2 * a, n) == 2 * Shl(a, n) == Shl(a, n + 1)
  {
    if n != 0 {
      ShlDouble(a, n - 1);
    }
  }

  lemma {:induction false} ShlOne(n: nat)
    ensures Shl(1, n) == Pow2(n)
  {
    if n != 0 {
      ShlOne(n - 1);
    }
  }

  lemma {:induction false} ShlValue(a: nat, n: nat)
    ensures Shl(a, n) == a * Pow2(n)
  {
    if n != 0 {
      ShlValue(a, n - 1);
      assert a * (2 * Pow2(n - 1)) == 2 * (a * Pow2(n - 1));
    }
  }

  // ---------------------------------------------------------------- addition

  function Xor(a: nat, b: nat): nat
    decreases a + b
  {
    if a == 0 && b == 0 then 0 else 2 * Xor(a / 2, b / 2) + (a + b) % 2
  }

  lemma {:induction false} XorComm(a: nat, b: nat)
    ensures Xor(a, b) == Xor(b, a)
    decreases a + b
  {
    if a != 0 || b != 0 {
      XorComm(a / 2, b / 2);
    }
  }

  lemma {:induction false} XorZero(a: nat)
    ensures Xor(a, 0) == a && Xor(0, a) == a
  {
    if a != 0 {
      XorZero(a / 2);
    }
  }

  lemma {:induction false} XorSelf(a: nat)
    ensures Xor(a, a) == 0
  {
    if a != 0 {
      XorSelf(a / 2);
    }
  }

  lemma XorHalves(a: nat, b: nat)
    ensures Xor(a, b) / 2 == Xor(a / 2, b / 2) && Xor(a, b) % 2 == (a + b) % 2
  {}

  lemma XorStep(a: nat, b: nat)
    ensures Xor(a, b) == 2 * Xor(a / 2, b / 2) + (if a % 2 == b % 2 then 0 else 1)
  {
    hide Xor;
    XorHalves(a, b);
    assert (a + b) % 2 == if a % 2 == b % 2 then 0 else 1;
  }

  lemma XorTriple(a: nat, b: nat, c: nat)
    ensures Xor(Xor(a, b), c) / 2 == Xor(Xor(a / 2, b / 2), c / 2)
    ensures Xor(Xor(a, b), c) % 2 == (a + b + c) % 2
  {
    hide Xor;
    var d := Xor(a, b);
    XorHalves(d, c);
    XorHalves(a, b);
    Parity(a + b, c, d);
  }

  lemma Parity(a: nat, c: nat, d: nat)
    requires d % 2 == a % 2
    ensures (d + c) % 2 == (a + c) % 2
  {}

  lemma SameHalves(a: nat, b: nat)
    requires a / 2 == b / 2 && a % 2 == b % 2
    ensures a == b
  {}

  lemma {:induction false} XorAssoc(a: nat, b: nat, c: nat)
    ensures Xor(Xor(a, b), c) == Xor(a, Xor(b, c))
    decreases a + b + c
  {
    hide Xor;
    XorComm(a, Xor(b, c));
    if a + b + c == 0 {
      XorZero(0);
    } else {
      XorAssoc(a / 2, b / 2, c / 2);
      XorComm(a / 2, Xor(b / 2, c / 2));
      XorTriple(a, b, c);
      XorTriple(b, c, a);
      SameHalves(Xor(Xor(a, b), c), Xor(Xor(b, c), a));
    }
  }

  /** Equality of sums is additive and cancels, in one lemma for the callers. */
  lemma XorCancel(a: nat, b: nat)
    ensures Xor(Xor(a, b), b) == a && Xor(b, Xor(b, a)) == a
    ensures Xor(a, b) == 0 <==> a == b
  {
    hide Xor;
    XorAssoc(a, b, b);
    XorAssoc(b, b, a);
    XorSelf(a);
    XorSelf(b);
    XorZero(a);
    XorZero(b);
  }

  lemma XorShuffle(a: nat, b: nat, c: nat, d: nat)
    ensures Xor(Xor(a, b), Xor(c, d)) == Xor(Xor(a, c), Xor(b, d))
  {
    hide Xor;
    XorAssoc(a, b, Xor(c, d));
    XorAssoc(b, c, d);
    XorComm(b, c);
    XorAssoc(c, b, d);
    XorAssoc(a, c, Xor(b, d));
  }

  lemma XorDouble(a: nat, b: nat)
    ensures Xor(2 * a, 2 * b) == 2 * Xor(a, b)
  {
    hide Xor;
    XorHalves(2 * a, 2 * b);
  }

  lemma {:induction false} XorShift(a: nat, b: nat, n: nat)
    ensures Xor(Shl(a, n), Shl(b, n)) == Shl(Xor(a, b), n)
  {
    hide Xor;
    if n != 0 {
      XorShift(a, b, n - 1);
      XorDouble(Shl(a, n - 1), Shl(b, n - 1));
    }
  }

  /** Below 2^n nothing carries; a bit n set on one side only survives. */
  lemma {:induction false} XorBound(a: nat, b: nat, n: nat)
    requires a < Pow2(n) && b < Pow2(n)
    ensures Xor(a, b) < Pow2(n)
  {
    if n != 0 {
      XorBound(a / 2, b / 2, n - 1);
    }
  }

  lemma {:induction false} XorTop(a: nat, b: nat, n: nat)
    requires Pow2(n) <= a < Pow2(n + 1)
    ensures b < Pow2(n) ==> Pow2(n) <= Xor(a, b) < Pow2(n + 1)
    ensures Pow2(n) <= b < Pow2(n + 1) ==> Xor(a, b) < Pow2(n)
  {
    if n == 0 {
      assert a == 1;
      assert Xor(1, 0) == 1 && Xor(1, 1) == 0;
    } else {
      XorTop(a / 2, b / 2, n - 1);
    }
  }

  lemma EvenPlus(a: nat, b: nat)
    ensures (2 * a) / 2 == a && (2 * a + b) % 2 == b % 2
  {}

  /** Disjoint parts: below the lowest set bit of a shift, Xor is addition. */
  lemma {:induction false} XorDisjoint(a: nat, b: nat, n: nat)
    requires b < Pow2(n)
    ensures Xor(Shl(a, n), b) == Shl(a, n) + b
  {
    hide Xor;
    if n == 0 {
      XorZero(a);
    } else {
      XorDisjoint(a, b / 2, n - 1);
      EvenPlus(Shl(a, n - 1), b);
      XorHalves(Shl(a, n), b);
    }
  }

  // ---------------------------------------------------------------- degree and remainder

  /** bit_length - 1; the zero polynomial has degree -1. */
  function Deg(a: nat): (d: int)
    ensures d >= -1 && (d == -1 <==> a == 0)
    ensures a != 0 ==> Pow2(d) <= a < Pow2(d + 1)
  {
    if a == 0 then -1 else if a == 1 then 0 else 1 + Deg(a / 2)
  }

  lemma {:induction false} DegUnique(a: nat, n: nat)
    ensures a < Pow2(n) <==> Deg(a) < n
  {
    if n != 0 && a > 1 {
      DegUnique(a / 2, n - 1);
    }
  }

  lemma {:induction false} DegShift(a: nat, n: nat)
    requires a != 0
    ensures Deg(Shl(a, n)) == Deg(a) + n && Shl(a, n) != 0
  {
    if n != 0 {
      DegShift(a, n - 1);
    }
  }

  lemma DegXor(a: nat, b: nat)
    ensures Deg(a) < Deg(b) ==> Deg(Xor(a, b)) == Deg(b)
    ensures Deg(a) > Deg(b) ==> Deg(Xor(a, b)) == Deg(a)
    ensures Deg(a) == Deg(b) ==> Deg(Xor(a, b)) < Deg(a) || Xor(a, b) == a == b == 0
  {
    hide Xor, Deg;
    XorComm(a, b);
    XorZero(a);
    XorZero(b);
    if a != 0 && b != 0 {
      if Deg(a) < Deg(b) {
        DegXorTop(b, a);
      } else {
        DegXorTop(a, b);
      }
    }
  }

  lemma DegXorTop(a: nat, b: nat)
    requires a != 0 && b != 0 && Deg(b) <= Deg(a)
    ensures Deg(Xor(a, b)) <= Deg(a)
    ensures Deg(Xor(a, b)) == Deg(a) <==> Deg(b) < Deg(a)
  {
    hide Xor, Deg;
    var n := Deg(a);
    XorTop(a, b, n);
    DegUnique(b, n);
    DegUnique(b, n + 1);
    DegUnique(Xor(a, b), n);
    DegUnique(Xor(a, b), n + 1);
  }

  /** Remainder of x modulo p: subtract the multiple of p that has x's degree, repeat. */
  function Mod(x: nat, p: nat): (r: nat)
    requires p != 0
    ensures Deg(r) < Deg(p)
    decreases Deg(x) + 1
  {
    if Deg(x) < Deg(p) then x
    else
      var y := Shl(p, Deg(x) - Deg(p));
      DegShift(p, Deg(x) - Deg(p));
      DegXor(x, y);
      Mod(Xor(x, y), p)
  }
}
