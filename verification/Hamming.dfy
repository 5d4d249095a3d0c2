/** Hamming distance between codes, and what the distances of their substrings say about it. */
module Hamming {
  import opened BinaryPolynomials

  /** The number of set bits. */
  function Ones(n: nat): nat {
    if n == 0 then 0 else n % 2 + Ones(n / 2)
  }

  function Dist(a: nat, b: nat): nat {
    Ones(Xor(a, b))
  }

  lemma DistStep(a: nat, b: nat)
    ensures Dist(a, b) == Dist(a / 2, b / 2) + if a % 2 == b % 2 then 0 else 1
  {
    hide Xor;
    XorStep(a, b);
  }

  lemma DistZero(a: nat, b: nat)
    ensures Dist(a, b) == 0 <==> a == b
  {
    hide Xor;
    XorCancel(a, b);
    NoOnes(Xor(a, b));
  }

  lemma {:induction false} NoOnes(n: nat)
    ensures Ones(n) == 0 <==> n == 0
  {
    if n != 0 {
      NoOnes(n / 2);
    }
  }

  lemma DistSymmetric(a: nat, b: nat)
    ensures Dist(a, b) == Dist(b, a)
  {
    hide Xor;
    XorComm(a, b);
  }

  lemma {:induction false} Triangle(a: nat, b: nat, c: nat)
    ensures Dist(a, c) <= Dist(a, b) + Dist(b, c)
    decreases a + b + c
  {
    hide Dist;
    DistStep(a, b);
    DistStep(b, c);
    DistStep(a, c);
    if a != 0 || b != 0 || c != 0 {
      Triangle(a / 2, b / 2, c / 2);
    } else {
      DistZero(0, 0);
    }
  }

  // ---------------------------------------------------------------- substrings

  /** The k lowest bits, as masking keeps them. */
  function Low(n: nat, k: nat): nat {
    if k == 0 then 0 else n % 2 + 2 * Low(n / 2, k - 1)
  }

  /** All bits but the k lowest, as a right shift keeps them. */
  function High(n: nat, k: nat): nat {
    if k == 0 then n else High(n / 2, k - 1)
  }

  lemma {:induction false} LowAndHigh(n: nat, k: nat)
    ensures n == High(n, k) * Pow2(k) + Low(n, k) && Low(n, k) < Pow2(k)
  {
    if k != 0 {
      LowAndHigh(n / 2, k - 1);
      TwiceProduct(High(n, k), Pow2(k - 1));
    }
  }

  lemma TwiceProduct(h: nat, p: nat)
    ensures h * (2 * p) == 2 * (h * p)
  {}

  lemma {:induction false} HighSum(n: nat, k: nat, l: nat)
    ensures High(High(n, k), l) == High(n, k + l)
  {
    if k != 0 {
      HighSum(n / 2, k - 1, l);
    }
  }

  /** The distance splits into that of the low and that of the high bits. */
  lemma {:induction false} DistSplit(a: nat, b: nat, k: nat)
    ensures Dist(a, b) == Dist(Low(a, k), Low(b, k)) + Dist(High(a, k), High(b, k))
    decreases k
  {
    hide Dist;
    if k == 0 {
      DistZero(0, 0);
    } else {
      DistStep(a, b);
      DistSplit(a / 2, b / 2, k - 1);
      LowDigits(a, k);
      LowDigits(b, k);
      DistStep(Low(a, k), Low(b, k));
    }
  }

  lemma LowDigits(n: nat, k: nat)
    requires k > 0
    ensures Low(n, k) % 2 == n % 2 && Low(n, k) / 2 == Low(n / 2, k - 1)
  {}

  // ---------------------------------------------------------------- flipping bits

  /** v with these bits flipped. */
  function Flip(v: nat, bits: seq<nat>): nat
    decreases |bits|
  {
    if bits == [] then v else Flip(Xor(v, Shl(1, bits[0])), bits[1..])
  }

  function Mask(bits: seq<nat>): nat {
    if bits == [] then 0 else Xor(Shl(1, bits[0]), Mask(bits[1..]))
  }

  lemma {:induction false} FlipIsXor(v: nat, bits: seq<nat>)
    ensures Flip(v, bits) == Xor(v, Mask(bits))
    decreases |bits|
  {
    hide Xor;
    if bits == [] {
      XorZero(v);
    } else {
      FlipIsXor(Xor(v, Shl(1, bits[0])), bits[1..]);
      XorAssoc(v, Shl(1, bits[0]), Mask(bits[1..]));
    }
  }

  /** Ascending positions between from and to. */
  predicate Ascending(bits: seq<nat>, from: nat, to: nat) {
    bits == [] || (from <= bits[0] < to && Ascending(bits[1..], bits[0] + 1, to))
  }

  /** The positions of the set bits of n, the lowest counted as from. */
  function Positions(n: nat, from: nat): seq<nat> {
    if n == 0 then [] else (if n % 2 == 1 then [from] else []) + Positions(n / 2, from + 1)
  }

  lemma {:induction false} PositionsAscend(n: nat, from: nat, low: nat, width: nat)
    requires n < Pow2(width) && low <= from
    ensures Ascending(Positions(n, from), low, from + width) && |Positions(n, from)| == Ones(n)
    decreases n
  {
    if n != 0 {
      PositionsAscend(n / 2, from + 1, if n % 2 == 1 then from + 1 else low, width - 1);
      var rest := Positions(n / 2, from + 1);
      if n % 2 == 1 {
        assert ([from] + rest)[1..] == rest;
      } else {
        assert [] + rest == rest;
      }
    }
  }

  lemma {:induction false} MaskOfPositions(n: nat, from: nat)
    ensures Mask(Positions(n, from)) == Shl(n, from)
    decreases n
  {
    hide Xor, Shl;
    if n == 0 {
      ShlValue(0, from);
    } else {
      MaskOfPositions(n / 2, from + 1);
      ShlDouble(n / 2, from);
      var rest := Positions(n / 2, from + 1);
      if n % 2 == 1 {
        assert ([from] + rest)[1..] == rest;
        XorShift(1, 2 * (n / 2), from);
        OddXor(n / 2);
      } else {
        assert [] + rest == rest;
      }
    }
  }

  lemma OddXor(h: nat)
    ensures Xor(1, 2 * h) == 2 * h + 1
  {
    hide Xor;
    XorStep(1, 2 * h);
    XorZero(h);
  }

  /** Flipping distinct bits of a word moves it by as many, and leaves it a word. */
  lemma {:induction false} MaskOfAscending(bits: seq<nat>, from: nat, width: nat)
    requires Ascending(bits, from, from + width)
    ensures exists n: nat :: n < Pow2(width) && Mask(bits) == Shl(n, from) && Ones(n) == |bits|
    decreases width
  {
    hide Xor, Shl, Ones;
    if bits == [] {
      ShlValue(0, from);
      NoOnes(0);
      assert 0 < Pow2(width) && Mask(bits) == Shl(0, from);
    } else if bits[0] == from {
      MaskOfAscending(bits[1..], from + 1, width - 1);
      var m: nat :| m < Pow2(width - 1) && Mask(bits[1..]) == Shl(m, from + 1) && Ones(m) == |bits[1..]|;
      ShlDouble(m, from);
      XorShift(1, 2 * m, from);
      OddXor(m);
      OnesOdd(m);
      assert 2 * m + 1 < Pow2(width);
    } else {
      MaskOfAscending(bits, from + 1, width - 1);
      var m: nat :| m < Pow2(width - 1) && Mask(bits) == Shl(m, from + 1) && Ones(m) == |bits|;
      ShlDouble(m, from);
      OnesOdd(m);
      assert 2 * m < Pow2(width) && Mask(bits) == Shl(2 * m, from);
    }
  }

  lemma OnesOdd(m: nat)
    ensures Ones(2 * m + 1) == Ones(m) + 1 && Ones(2 * m) == Ones(m)
  {
    OnesStep(2 * m + 1, m, 1);
    OnesStep(2 * m, m, 0);
  }

  lemma OnesStep(n: nat, h: nat, b: nat)
    requires n == 2 * h + b && b < 2
    ensures Ones(n) == Ones(h) + b
  {
    assert n / 2 == h && n % 2 == b;
    if n == 0 {
      assert h == 0;
    }
  }

  lemma FlippedWord(v: nat, bits: seq<nat>, width: nat)
    requires v < Pow2(width) && Ascending(bits, 0, width)
    ensures Dist(v, Flip(v, bits)) == |bits| && Flip(v, bits) < Pow2(width)
  {
    hide Xor;
    MaskOfAscending(bits, 0, width);
    FlipIsXor(v, bits);
    XorCancel(Mask(bits), v);
    XorComm(v, Mask(bits));
    XorBound(v, Mask(bits), width);
  }

  lemma FlipToWord(v: nat, w: nat, width: nat) returns (bits: seq<nat>)
    requires v < Pow2(width) && w < Pow2(width)
    ensures Ascending(bits, 0, width) && |bits| == Dist(v, w) && Flip(v, bits) == w
  {
    hide Xor;
    var n := Xor(v, w);
    XorBound(v, w, width);
    bits := Positions(n, 0);
    PositionsAscend(n, 0, 0, width);
    MaskOfPositions(n, 0);
    FlipIsXor(v, bits);
    XorCancel(w, v);
  }
}
