/** Bytes as machine words: Xor on numbers below 256 is the machine's xor, and the
    doublings of alpha, run on machine words, return to 1 after exactly 255 steps. */
module ByteBits {
  import opened BinaryPolynomials

  // ---------------------------------------------------------------- xor

  lemma HalfBits(x: bv8)
    ensures (x >> 1) as int == (x as int) / 2
  {}

  lemma LowBit(x: bv8)
    ensures (x & 1) as int == (x as int) % 2
  {}

  lemma XorParts(x: bv8, y: bv8)
    ensures (x ^ y) >> 1 == (x >> 1) ^ (y >> 1)
    ensures (x ^ y) & 1 == if x & 1 == y & 1 then 0 else 1
  {}

  /** A machine word as a number. */
  function Number(x: bv8): nat {
    x as int
  }

  /** How the halves and low bits of p, q and r fit together. */
  predicate Parts(p: nat, q: nat, r: nat, hp: nat, hq: nat, h: nat) {
    hp == p / 2 && hq == q / 2 && r == 2 * h + (if p % 2 == q % 2 then 0 else 1)
  }

  lemma SameLowBit(x: bv8, y: bv8)
    ensures x & 1 == y & 1 <==> Number(x) % 2 == Number(y) % 2
  {
    LowBit(x);
    LowBit(y);
  }

  lemma XorNumber(x: bv8, y: bv8)
    ensures Number(x ^ y) == 2 * Number((x >> 1) ^ (y >> 1)) + (if x & 1 == y & 1 then 0 else 1)
  {
    XorParts(x, y);
    HalfBits(x ^ y);
    LowBit(x ^ y);
  }

  lemma HalfNumber(x: bv8)
    ensures Number(x >> 1) == Number(x) / 2
  {
    HalfBits(x);
  }

  lemma MachineParts(x: bv8, y: bv8)
    ensures Parts(Number(x), Number(y), Number(x ^ y), Number(x >> 1), Number(y >> 1), Number((x >> 1) ^ (y >> 1)))
  {
    hide Number;
    HalfNumber(x);
    HalfNumber(y);
    XorNumber(x, y);
    SameLowBit(x, y);
  }

  lemma XorOfParts(p: nat, q: nat, r: nat, hp: nat, hq: nat, h: nat)
    requires Parts(p, q, r, hp, hq, h) && h == Xor(hp, hq)
    ensures r == Xor(p, q)
  {
    hide Xor;
    XorStep(p, q);
  }

  /** n bounds the number of bits that are left to compare. */
  lemma {:induction false} MachineXorBits(x: bv8, y: bv8, n: nat)
    requires Number(x) < Pow2(n) && Number(y) < Pow2(n)
    ensures Number(x ^ y) == Xor(Number(x), Number(y))
    decreases n
  {
    hide Xor, Number, Parts;
    if n == 0 {
      NoBits(x, y);
    } else {
      HalfNumber(x);
      HalfNumber(y);
      MachineXorBits(x >> 1, y >> 1, n - 1);
      MachineParts(x, y);
      XorOfParts(Number(x), Number(y), Number(x ^ y), Number(x >> 1), Number(y >> 1), Number((x >> 1) ^ (y >> 1)));
    }
  }

  lemma NoBits(x: bv8, y: bv8)
    requires Number(x) == 0 && Number(y) == 0
    ensures Number(x ^ y) == Xor(Number(x), Number(y))
  {
    hide Xor;
    assert x == 0 && y == 0;
    XorZero(0);
  }

  lemma MachineXor(x: bv8, y: bv8)
    ensures (x ^ y) as int == Xor(x as int, y as int)
  {
    hide Xor;
    assert Pow2(8) == 256;
    MachineXorBits(x, y, 8);
  }

  // ---------------------------------------------------------------- alpha

  function Double(a: bv8): bv8 {
    if a & 0x80 != 0 then (a << 1) ^ 0x1D else a << 1
  }

  lemma ShiftBits(a: bv8)
    ensures a & 0x80 != 0 <==> a as int >= 128
    ensures (a << 1) as int == if a as int >= 128 then 2 * (a as int) - 256 else 2 * (a as int)
  {}

  lemma DoubleIsReducedShift(a: bv8)
    ensures Double(a) as int == if a as int >= 128 then Xor(2 * (a as int), 0x11D) else 2 * (a as int)
  {
    hide Xor;
    ShiftBits(a);
    if a as int >= 128 {
      var u := 2 * (a as int) - 256;
      MachineXor(a << 1, 0x1D);
      assert Pow2(8) == 256 && Shl(1, 8) == 256;
      XorDisjoint(1, u, 8);
      XorDisjoint(1, 0x1D, 8);
      XorShuffle(256, u, 256, 0x1D);
      XorSelf(256);
      XorZero(Xor(u, 0x1D));
    }
  }

  /** a, 2a, ..., 128a all differ from 1. */
  predicate EightAvoidOne(a: bv8) {
    var b := Double(Double(a));
    var c := Double(Double(b));
    var d := Double(Double(c));
    a != 1 && Double(a) != 1 && b != 1 && Double(b) != 1 && c != 1 && Double(c) != 1 && d != 1 && Double(d) != 1
  }

  function Double8(a: bv8): bv8 {
    Double(Double(Double(Double(Double(Double(Double(Double(a))))))))
  }

  predicate Block(a: bv8, b: bv8) {
    EightAvoidOne(a) && Double8(a) == b
  }

  lemma Blocks0()
    ensures Block(2, 58)
    ensures Block(58, 152)
    ensures Block(152, 3)
    ensures Block(3, 39)
    ensures Block(39, 212)
    ensures Block(212, 140)
    ensures Block(140, 186)
    ensures Block(186, 190)
  {}

  lemma Blocks1()
    ensures Block(190, 202)
    ensures Block(202, 231)
    ensures Block(231, 225)
    ensures Block(225, 175)
    ensures Block(175, 26)
    ensures Block(26, 31)
    ensures Block(31, 118)
    ensures Block(118, 23)
  {}

  lemma Blocks2()
    ensures Block(23, 158)
    ensures Block(158, 77)
    ensures Block(77, 146)
    ensures Block(146, 209)
    ensures Block(209, 229)
    ensures Block(229, 219)
    ensures Block(219, 55)
    ensures Block(55, 25)
  {}

  lemma Blocks3()
    ensures Block(25, 56)
    ensures Block(56, 162)
    ensures Block(162, 155)
    ensures Block(155, 36)
    ensures Block(36, 243)
    ensures Block(243, 88)
    ensures Block(88, 54)
  {}

  /** The last six doublings close the cycle. */
  lemma LastBlock()
    ensures var a: bv8 := 54; var c := Double(Double(a)); var e := Double(Double(c));
            a != 1 && Double(a) != 1 && c != 1 && Double(c) != 1 && e != 1 && Double(e) != 1 && Double(Double(e)) == 1
  {}
}
