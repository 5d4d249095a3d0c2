/** Digests written as hexadecimal strings. */
module HexDigits {
  import opened Wrappers
  import opened GF256
  import opened LinearAlgebra

  const HEX: string := "0123456789abcdef"

  type Digit = n: nat | n < 16

  function Hex(d: Digit): char {
    HEX[d]
  }

  function DigitOf(c: char): (r: Option<Digit>)
    ensures r.Some? ==> Hex(r.value) == LowerChar(c)
  {
    if '0' <= c <= '9' then Some((c as int) - 48)
    else if 'a' <= c <= 'f' then Some((c as int) - 87)
    else if 'A' <= c <= 'F' then Some((c as int) - 55)
    else None
  }

  function LowerChar(c: char): char {
    if 'A' <= c <= 'Z' then ((c as int) + 32) as char else c
  }

  function Lower(s: string): (r: string)
    ensures |r| == |s| && forall i :: 0 <= i < |s| ==> r[i] == LowerChar(s[i])
  {
    seq(|s|, i requires 0 <= i < |s| => LowerChar(s[i]))
  }

  lemma LowerTwice(s: string)
    ensures Lower(Lower(s)) == Lower(s)
  {}

  function ToHex(v: Vec): (r: string)
    ensures |r| == 2 * |v|
  {
    if v == [] then [] else [Hex(v[0] / 16), Hex(v[0] % 16)] + ToHex(v[1..])
  }

  function FromHex(s: string): (r: Option<Vec>) {
    if s == [] then Some([])
    else if |s| == 1 then None
    else
      var hi, lo, rest := DigitOf(s[0]), DigitOf(s[1]), FromHex(s[2..]);
      if hi.Some? && lo.Some? && rest.Some? then Some([(16 * hi.value + lo.value) as Byte] + rest.value) else None
  }

  /** The high half of each byte comes first. */
  lemma {:induction false} HexAt(v: Vec, i: nat)
    requires i < |v|
    ensures ToHex(v)[2 * i] == HEX[v[i] / 16] && ToHex(v)[2 * i + 1] == HEX[v[i] % 16]
  {
    if i > 0 {
      HexAt(v[1..], i - 1);
      assert ToHex(v)[2..] == ToHex(v[1..]);
    }
  }

  lemma DigitOfHex(d: Digit)
    ensures DigitOf(Hex(d)) == Some(d)
  {}

  lemma {:induction false} HexRoundTrip(v: Vec)
    ensures FromHex(ToHex(v)) == Some(v)
  {
    hide DigitOf, Hex;
    if v != [] {
      HexRoundTrip(v[1..]);
      DigitOfHex(v[0] / 16);
      DigitOfHex(v[0] % 16);
      var h := ToHex(v);
      assert h[2..] == ToHex(v[1..]);
      assert h[0] == Hex(v[0] / 16) && h[1] == Hex(v[0] % 16);
      assert [v[0]] + v[1..] == v;
    }
  }

  /** Parsing gives the bytes whose digits, in lower case, were written. */
  lemma {:induction false} ParsedHex(s: string)
    ensures FromHex(s).Some? ==> ToHex(FromHex(s).value) == Lower(s)
    ensures FromHex(Lower(s)) == FromHex(s)
  {
    hide Hex, DigitOf, LowerChar;
    if |s| >= 2 {
      ParsedHex(s[2..]);
      SameDigit(s[0]);
      SameDigit(s[1]);
      LowerParts(s);
      var r := FromHex(s);
      if r.Some? {
        PairDigits(DigitOf(s[0]).value, DigitOf(s[1]).value, FromHex(s[2..]).value);
      }
    } else if |s| == 1 {
      assert Lower(s) == [LowerChar(s[0])];
    } else {
      assert Lower(s) == [];
    }
  }

  lemma LowerParts(s: string)
    requires |s| >= 2
    ensures Lower(s) == [LowerChar(s[0]), LowerChar(s[1])] + Lower(s[2..]) && Lower(s)[2..] == Lower(s[2..])
  {
    hide LowerChar;
  }

  lemma PairDigits(hi: Digit, lo: Digit, rest: Vec)
    ensures ToHex([(16 * hi + lo) as Byte] + rest) == [Hex(hi), Hex(lo)] + ToHex(rest)
  {
    hide Hex;
    var v := [(16 * hi + lo) as Byte] + rest;
    assert v[1..] == rest && v[0] / 16 == hi && v[0] % 16 == lo;
  }

  lemma SameDigit(c: char)
    ensures DigitOf(LowerChar(c)) == DigitOf(c)
  {}

  lemma HexInjective(v: Vec, w: Vec)
    requires ToHex(v) == ToHex(w)
    ensures v == w
  {
    HexRoundTrip(v);
    HexRoundTrip(w);
  }

  /** A digest as clients and tables name it: lower-case digits of 32 bytes. */
  ghost predicate IsDigest(s: string) {
    FromHex(s).Some? && |FromHex(s).value| == 32 && Lower(s) == s
  }

  lemma DigestHex(v: Vec)
    requires |v| == 32
    ensures IsDigest(ToHex(v)) && FromHex(ToHex(v)) == Some(v)
  {
    HexRoundTrip(v);
    ParsedHex(ToHex(v));
  }
}
