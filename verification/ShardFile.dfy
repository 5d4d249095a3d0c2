/** The 256-byte header of a shard file: packing, unpacking and the round trips between them. */
module ShardFile {
  import opened Wrappers
  import opened GF256
  import opened LinearAlgebra
  import opened Sequences

  const MAGIC: Vec := [67, 83, 72, 68]
  const VERSION: Byte := 1
  const HEADER_SIZE: nat := 256
  const BODY_SIZE: nat := 252
  const FIXED_SIZE: nat := 86
  const MAX_KEY: nat := 166

  /** The stripe id is a 128-bit number, the checksum 32 bytes read as a number, and the key its encoded bytes. */
  datatype Header = Header(index: nat, k: nat, m: nat, stripe: nat, length: nat, checksum: nat, seqno: nat, offset: nat,
                           len: nat, key: Vec)

  datatype HeaderError = KeyTooLong | FieldRange | Truncated | CrcMismatch | BadMagic

  // ---------------------------------------------------------------- fixed-width numbers

  function Pow256(n: nat): (r: nat)
    ensures r > 0
  {
    if n == 0 then 1 else 256 * Pow256(n - 1)
  }

  /** Little-endian bytes of v. */
  function Le(v: nat, n: nat): (r: Vec)
    ensures |r| == n
  {
    if n == 0 then [] else [(v % 256) as Byte] + Le(v / 256, n - 1)
  }

  function UnLe(s: Vec): nat {
    if s == [] then 0 else s[0] as nat + 256 * UnLe(s[1..])
  }

  lemma {:induction false} LeRoundTrip(v: nat, n: nat)
    requires v < Pow256(n)
    ensures UnLe(Le(v, n)) == v
  {
    if n != 0 {
      LeRoundTrip(v / 256, n - 1);
      assert Le(v, n)[1..] == Le(v / 256, n - 1);
    }
  }

  lemma {:induction false} UnLeRoundTrip(s: Vec)
    ensures UnLe(s) < Pow256(|s|) && Le(UnLe(s), |s|) == s
  {
    if s != [] {
      UnLeRoundTrip(s[1..]);
      UnLeDigits(s[0], UnLe(s[1..]));
      assert [s[0]] + s[1..] == s;
    }
  }

  lemma UnLeDigits(d: Byte, rest: nat)
    ensures (d as nat + 256 * rest) % 256 == d as nat && (d as nat + 256 * rest) / 256 == rest
  {}

  lemma {:induction false} Pow256Next(n: nat, v: nat)
    ensures v / 256 / Pow256(n) == v / Pow256(n + 1)
  {
    DivTwice(v, 256, Pow256(n));
  }

  lemma DivTwice(v: nat, a: nat, b: nat)
    requires a > 0 && b > 0
    ensures a * b > 0 && v / a / b == v / (a * b)
  {
    var q, r := v / a, v % a;
    var p, t := q / b, q % b;
    assert v == a * (b * p + t) + r;
    assert v == (a * b) * p + (a * t + r);
    Remainder(a, b, t, r);
    DivOf(v, a * b, p, a * t + r);
  }

  lemma Remainder(a: nat, b: nat, t: nat, r: nat)
    requires r < a && t < b
    ensures a * t + r < a * b
  {
    assert a * (t + 1) <= a * b;
  }

  lemma DivOf(v: nat, d: nat, p: nat, r: nat)
    requires d > 0 && v == d * p + r && r < d
    ensures v / d == p
  {
    var q, t := v / d, v % d;
    Apart(d, p, q);
    Apart(d, q, p);
    assert v == d * q + t;
  }

  lemma Apart(d: nat, a: nat, b: nat)
    ensures a < b ==> d * a + d <= d * b
  {
    if a < b {
      assert d * (a + 1) <= d * b;
    }
  }

  /** Byte i of a little-endian number counts 256 to the power of i. */
  lemma {:induction false} LeDigit(v: nat, n: nat, i: nat)
    requires i < n
    ensures Le(v, n)[i] as nat == v / Pow256(i) % 256
  {
    if i > 0 {
      LeDigit(v / 256, n - 1, i - 1);
      Pow256Next(i - 1, v);
    }
  }

  function Backwards(s: Vec): (r: Vec)
    ensures |r| == |s| && forall i :: 0 <= i < |s| ==> r[i] == s[|s| - 1 - i]
  {
    seq(|s|, i requires 0 <= i < |s| => s[|s| - 1 - i])
  }

  /** Big-endian bytes of v. */
  function Be(v: nat, n: nat): (r: Vec)
    ensures |r| == n
  {
    Backwards(Le(v, n))
  }

  lemma BeDigit(v: nat, n: nat, i: nat)
    requires i < n
    ensures Be(v, n)[n - 1 - i] as nat == v / Pow256(i) % 256
  {
    LeDigit(v, n, i);
  }

  function UnBe(s: Vec): nat {
    UnLe(Backwards(s))
  }

  lemma BeRoundTrip(v: nat, n: nat)
    requires v < Pow256(n)
    ensures UnBe(Be(v, n)) == v
  {
    LeRoundTrip(v, n);
    assert Backwards(Backwards(Le(v, n))) == Le(v, n);
  }

  lemma UnBeRoundTrip(s: Vec)
    ensures UnBe(s) < Pow256(|s|) && Be(UnBe(s), |s|) == s
  {
    UnLeRoundTrip(Backwards(s));
    assert Backwards(Backwards(s)) == s;
  }

  // ---------------------------------------------------------------- consecutive fields

  function Sum(widths: seq<nat>): nat {
    if widths == [] then 0 else widths[0] + Sum(widths[1..])
  }

  function Cut(raw: Vec, widths: seq<nat>): (r: seq<Vec>)
    requires Sum(widths) <= |raw|
    ensures |r| == |widths|
  {
    if widths == [] then [] else [raw[..widths[0]]] + Cut(raw[widths[0]..], widths[1..])
  }

  ghost predicate Fitting(fields: seq<Vec>, widths: seq<nat>) {
    |fields| == |widths| && forall i :: 0 <= i < |fields| ==> |fields[i]| == widths[i]
  }

  lemma {:induction false} CutJoin(fields: seq<Vec>, widths: seq<nat>, tail: Vec)
    requires Fitting(fields, widths)
    ensures |Join(fields)| == Sum(widths) && Cut(Join(fields) + tail, widths) == fields
  {
    if fields != [] {
      CutJoin(fields[1..], widths[1..], tail);
      var raw := Join(fields) + tail;
      assert raw[..widths[0]] == fields[0];
      assert raw[widths[0]..] == Join(fields[1..]) + tail;
      assert [fields[0]] + fields[1..] == fields;
    }
  }

  lemma {:induction false} JoinCut(raw: Vec, widths: seq<nat>)
    requires Sum(widths) <= |raw|
    ensures Fitting(Cut(raw, widths), widths) && Join(Cut(raw, widths)) == raw[..Sum(widths)]
  {
    if widths != [] {
      var w := widths[0];
      JoinCut(raw[w..], widths[1..]);
      assert Cut(raw, widths)[1..] == Cut(raw[w..], widths[1..]);
      assert raw[..w] + raw[w..][..Sum(widths[1..])] == raw[..Sum(widths)];
    }
  }

  // ---------------------------------------------------------------- header

  /** Widths of magic, version, index, k, m, stripe id, length, checksum, seqno, offset, data length, key length. */
  function Widths(): (r: seq<nat>)
    ensures |r| == 12
  {
    [4, 1, 1, 1, 1, 16, 8, 32, 4, 8, 8, 2]
  }

  function Fields(h: Header): (r: seq<Vec>)
    ensures |r| == 12
  {
    [MAGIC, [VERSION], Le(h.index, 1), Le(h.k, 1), Le(h.m, 1), Be(h.stripe, 16), Le(h.length, 8), Le(h.checksum, 32),
     Le(h.seqno, 4), Le(h.offset, 8), Le(h.len, 8), Le(|h.key|, 2)]
  }

  predicate InRange(h: Header) {
    h.index < Pow256(1) && h.k < Pow256(1) && h.m < Pow256(1) && h.stripe < Pow256(16) && h.length < Pow256(8)
    && h.checksum < Pow256(32) && h.seqno < Pow256(4) && h.offset < Pow256(8) && h.len < Pow256(8)
  }

  lemma WidthsSum()
    ensures Sum(Widths()) == FIXED_SIZE
  {
    var w := Widths();
    assert w[1..] == [1, 1, 1, 1, 16, 8, 32, 4, 8, 8, 2];
    assert w[1..][1..] == [1, 1, 1, 16, 8, 32, 4, 8, 8, 2];
    assert w[1..][1..][1..] == [1, 1, 16, 8, 32, 4, 8, 8, 2];
    assert [1, 1, 16, 8, 32, 4, 8, 8, 2][1..] == [1, 16, 8, 32, 4, 8, 8, 2];
    TailSum();
  }

  lemma TailSum()
    ensures Sum([1, 16, 8, 32, 4, 8, 8, 2]) == 79
  {
    assert [1, 16, 8, 32, 4, 8, 8, 2][1..] == [16, 8, 32, 4, 8, 8, 2];
    assert [16, 8, 32, 4, 8, 8, 2][1..] == [8, 32, 4, 8, 8, 2];
    assert [8, 32, 4, 8, 8, 2][1..] == [32, 4, 8, 8, 2];
    assert [32, 4, 8, 8, 2][1..] == [4, 8, 8, 2];
    assert [4, 8, 8, 2][1..] == [8, 8, 2];
    assert [8, 8, 2][1..] == [8, 2];
    assert [8, 2][1..] == [2];
  }

  lemma FieldsFit(h: Header)
    ensures Fitting(Fields(h), Widths())
  {}

  /** All but the trailing CRC: the fixed fields, the key, and zeros. */
  function Body(h: Header): (r: Vec)
    requires |h.key| <= MAX_KEY
    ensures |r| == BODY_SIZE
  {
    FieldsFit(h);
    CutJoin(Fields(h), Widths(), []);
    WidthsSum();
    Join(Fields(h)) + h.key + Zeros(MAX_KEY - |h.key|)
  }

  /** crc stands for CRC-32, of which only its range matters here. */
  function Pack(h: Header, crc: Vec -> nat): (r: Result<Vec, HeaderError>)
    ensures r.Ok? ==> |r.value| == HEADER_SIZE
  {
    if |h.key| > MAX_KEY then Err(KeyTooLong)
    else if !InRange(h) then Err(FieldRange)
    else Ok(Body(h) + Le(crc(Body(h)), 4))
  }

  function FromFields(f: seq<Vec>, rest: Vec): Header
    requires |f| == 12
  {
    var klen := UnLe(f[11]);
    Header(UnLe(f[2]), UnLe(f[3]), UnLe(f[4]), UnBe(f[5]), UnLe(f[6]), UnLe(f[7]), UnLe(f[8]), UnLe(f[9]), UnLe(f[10]),
           if klen < |rest| then rest[..klen] else rest)
  }

  function Unpack(raw: Vec, crc: Vec -> nat): Result<Header, HeaderError> {
    if |raw| < HEADER_SIZE then Err(Truncated)
    else
      var body := raw[..BODY_SIZE];
      if crc(body) != UnLe(raw[BODY_SIZE..HEADER_SIZE]) then Err(CrcMismatch)
      else
        WidthsSum();
        var f := Cut(body, Widths());
        if f[0] != MAGIC || f[1] != [VERSION] then Err(BadMagic)
        else Ok(FromFields(f, body[FIXED_SIZE..]))
  }

  // ---------------------------------------------------------------- round trips

  lemma FieldsBack(h: Header)
    requires InRange(h) && |h.key| <= MAX_KEY
    ensures FromFields(Fields(h), h.key + Zeros(MAX_KEY - |h.key|)) == h
  {
    hide Pow256;
    LeRoundTrip(h.index, 1);
    LeRoundTrip(h.k, 1);
    LeRoundTrip(h.m, 1);
    BeRoundTrip(h.stripe, 16);
    LeRoundTrip(h.length, 8);
    LeRoundTrip(h.checksum, 32);
    LeRoundTrip(h.seqno, 4);
    LeRoundTrip(h.offset, 8);
    LeRoundTrip(h.len, 8);
    KeyLength(|h.key|);
    hide Le, UnLe, Be, UnBe;
    assert (h.key + Zeros(MAX_KEY - |h.key|))[..|h.key|] == h.key;
  }

  lemma KeyLength(n: nat)
    requires n <= MAX_KEY
    ensures UnLe(Le(n, 2)) == n
  {
    assert Pow256(2) == 65536;
    LeRoundTrip(n, 2);
  }

  lemma BodyParts(h: Header)
    requires |h.key| <= MAX_KEY
    ensures Sum(Widths()) == FIXED_SIZE && Cut(Body(h), Widths()) == Fields(h)
    ensures Body(h)[FIXED_SIZE..] == h.key + Zeros(MAX_KEY - |h.key|)
  {
    hide Fields, Widths, Sum, Cut, Join;
    var rest := h.key + Zeros(MAX_KEY - |h.key|);
    FieldsFit(h);
    CutJoin(Fields(h), Widths(), rest);
    WidthsSum();
    assert Body(h) == Join(Fields(h)) + rest;
  }

  lemma FieldsStart(h: Header)
    ensures Fields(h)[0] == MAGIC && Fields(h)[1] == [VERSION]
  {}

  lemma UnpackParts(raw: Vec, crc: Vec -> nat, body: Vec, f: seq<Vec>, h: Header)
    requires |raw| >= HEADER_SIZE && body == raw[..BODY_SIZE] && crc(body) == UnLe(raw[BODY_SIZE..HEADER_SIZE])
    requires Sum(Widths()) == FIXED_SIZE && f == Cut(body, Widths()) && f[0] == MAGIC && f[1] == [VERSION]
    requires h == FromFields(f, body[FIXED_SIZE..])
    ensures Unpack(raw, crc) == Ok(h)
  {
    hide Widths, Sum, Cut, UnLe, FromFields;
  }

  lemma PackParts(h: Header, crc: Vec -> nat)
    ensures Pack(h, crc).Ok? <==> |h.key| <= MAX_KEY && InRange(h)
    ensures Pack(h, crc).Ok? ==> Pack(h, crc).value == Body(h) + Le(crc(Body(h)), 4)
  {
    hide Body, InRange, Le;
  }

  lemma TwoParts(a: Vec, b: Vec, tail: Vec)
    ensures (a + b + tail)[..|a|] == a && (a + b + tail)[|a|..|a| + |b|] == b
  {}

  /** Unpacking a packed header, whatever follows it in the file, gives the header back. */
  lemma UnpackPack(h: Header, crc: Vec -> nat, payload: Vec)
    requires Pack(h, crc).Ok? && forall b :: crc(b) < Pow256(4)
    ensures Unpack(Pack(h, crc).value + payload, crc) == Ok(h)
  {
    hide Fields, FromFields, Widths, InRange, Le, UnLe, Sum, Cut, Join, Pow256, Body, Pack, Unpack;
    PackParts(h, crc);
    var body := Body(h);
    TwoParts(body, Le(crc(body), 4), payload);
    LeRoundTrip(crc(body), 4);
    BodyParts(h);
    FieldsStart(h);
    FieldsBack(h);
    UnpackParts(body + Le(crc(body), 4) + payload, crc, body, Fields(h), h);
  }

  /** Where field i begins among those laid end to end. */
  function Start(widths: seq<nat>, i: nat): nat
    requires i <= |widths|
  {
    if i == 0 then 0 else Start(widths, i - 1) + widths[i - 1]
  }

  lemma {:induction false} StartTail(widths: seq<nat>, i: nat)
    requires 0 < i <= |widths|
    ensures Start(widths, i) == widths[0] + Start(widths[1..], i - 1)
  {
    if i > 1 {
      StartTail(widths, i - 1);
    }
  }

  lemma {:induction false} FieldAt(fields: seq<Vec>, widths: seq<nat>, tail: Vec, i: nat)
    requires Fitting(fields, widths) && i < |fields|
    ensures Start(widths, i) + widths[i] <= |Join(fields)|
    ensures (Join(fields) + tail)[Start(widths, i)..Start(widths, i) + widths[i]] == fields[i]
  {
    var raw := Join(fields) + tail;
    if i > 0 {
      FieldAt(fields[1..], widths[1..], tail, i - 1);
      StartTail(widths, i);
      assert raw[widths[0]..] == Join(fields[1..]) + tail;
    }
  }

  lemma Starts()
    ensures var w := Widths();
            Start(w, 0) == 0 && Start(w, 1) == 4 && Start(w, 2) == 5 && Start(w, 3) == 6 && Start(w, 4) == 7
            && Start(w, 5) == 8 && Start(w, 6) == 24 && Start(w, 7) == 32 && Start(w, 8) == 64 && Start(w, 9) == 68
            && Start(w, 10) == 76 && Start(w, 11) == 84
  {
    var w := Widths();
    assert Start(w, 2) == 5;
    assert Start(w, 4) == 7;
    assert Start(w, 6) == 24;
    assert Start(w, 8) == 64;
    assert Start(w, 10) == 76;
  }

  /** Which bytes of a packed header hold what. */
  lemma PackedAt(h: Header, crc: Vec -> nat)
    requires Pack(h, crc).Ok?
    ensures var raw := Pack(h, crc).value;
            raw[..4] == [67, 83, 72, 68] && raw[4] == 1
            && raw[5..6] == Le(h.index, 1) && raw[6..7] == Le(h.k, 1) && raw[7..8] == Le(h.m, 1)
            && raw[8..24] == Be(h.stripe, 16) && raw[24..32] == Le(h.length, 8) && raw[32..64] == Le(h.checksum, 32)
            && raw[64..68] == Le(h.seqno, 4) && raw[68..76] == Le(h.offset, 8) && raw[76..84] == Le(h.len, 8)
            && raw[84..86] == Le(|h.key|, 2) && raw[86..86 + |h.key|] == h.key
            && raw[86 + |h.key|..252] == Zeros(166 - |h.key|) && raw[252..] == Le(crc(raw[..252]), 4)
  {
    hide Widths, InRange, Le, Be, Sum, Cut, Join, Pow256, Start;
    PackParts(h, crc);
    FieldsFit(h);
    WidthsSum();
    CutJoin(Fields(h), Widths(), []);
    Starts();
    var rest := h.key + Zeros(MAX_KEY - |h.key|) + Le(crc(Body(h)), 4);
    var raw := Pack(h, crc).value;
    assert raw == Join(Fields(h)) + rest;
    forall i | 0 <= i < 12
      ensures raw[Start(Widths(), i)..Start(Widths(), i) + Widths()[i]] == Fields(h)[i]
    {
      FieldAt(Fields(h), Widths(), rest, i);
    }
    PackedRest(Join(Fields(h)), h.key, Le(crc(Body(h)), 4), raw);
    assert raw[..252] == Body(h);
  }

  lemma PackedRest(front: Vec, key: Vec, crc: Vec, raw: Vec)
    requires |front| == FIXED_SIZE && |key| <= MAX_KEY && raw == front + (key + Zeros(MAX_KEY - |key|) + crc)
    ensures raw[86..86 + |key|] == key && raw[86 + |key|..252] == Zeros(166 - |key|) && raw[252..] == crc
  {}

  /** Different headers pack to different bytes. */
  lemma PackInjective(a: Header, b: Header, crc: Vec -> nat)
    requires Pack(a, crc).Ok? && Pack(a, crc) == Pack(b, crc) && forall v :: crc(v) < Pow256(4)
    ensures a == b
  {
    hide *;
    UnpackPack(a, crc, []);
    UnpackPack(b, crc, []);
  }

  /** The key length a raw header claims. */
  function ClaimedKey(raw: Vec): nat
    requires |raw| >= HEADER_SIZE
  {
    WidthsSum();
    UnLe(Cut(raw[..BODY_SIZE], Widths())[11])
  }

  predicate Canonical(raw: Vec)
    requires |raw| >= HEADER_SIZE
  {
    ClaimedKey(raw) <= MAX_KEY && raw[FIXED_SIZE + ClaimedKey(raw)..BODY_SIZE] == Zeros(MAX_KEY - ClaimedKey(raw))
  }

  lemma FieldsOf(f: seq<Vec>, rest: Vec)
    requires Fitting(f, Widths()) && f[0] == MAGIC && f[1] == [VERSION]
    ensures InRange(FromFields(f, rest))
    ensures Fields(FromFields(f, rest))[..11] == f[..11]
  {
    hide Pow256, Le, UnLe, Be, UnBe;
    UnBeRoundTrip(f[5]);
    forall i | 2 <= i < 11
      ensures UnLe(f[i]) < Pow256(|f[i]|) && Le(UnLe(f[i]), |f[i]|) == f[i]
    {
      UnLeRoundTrip(f[i]);
    }
  }

  lemma FieldsOfAll(f: seq<Vec>, rest: Vec)
    requires Fitting(f, Widths()) && f[0] == MAGIC && f[1] == [VERSION] && |rest| == MAX_KEY
    ensures Fields(FromFields(f, rest)) == f <==> UnLe(f[11]) <= MAX_KEY
  {
    FieldsOf(f, rest);
    UnLeRoundTrip(f[11]);
    assert |f[11]| == 2;
    KeyLength(|FromFields(f, rest).key|);
    assert Fields(FromFields(f, rest))[11] == Le(|FromFields(f, rest).key|, 2);
    hide Le, UnLe, Pow256, InRange;
    assert f == f[..11] + [f[11]];
    assert Fields(FromFields(f, rest)) == Fields(FromFields(f, rest))[..11] + [Fields(FromFields(f, rest))[11]];
  }

  /** What unpacking reads out of a raw header. */
  lemma Unpacked(raw: Vec, crc: Vec -> nat) returns (f: seq<Vec>, rest: Vec, klen: nat)
    requires Unpack(raw, crc).Ok?
    ensures |raw| >= HEADER_SIZE && |rest| == MAX_KEY && rest == raw[FIXED_SIZE..BODY_SIZE] && klen == ClaimedKey(raw)
    ensures Fitting(f, Widths()) && f[0] == MAGIC && f[1] == [VERSION] && UnLe(f[11]) == klen
    ensures Sum(Widths()) == FIXED_SIZE && f == Cut(raw[..BODY_SIZE], Widths()) && Join(f) == raw[..FIXED_SIZE]
    ensures Unpack(raw, crc).value == FromFields(f, rest)
    ensures FromFields(f, rest).key == if klen < MAX_KEY then rest[..klen] else rest
    ensures Le(crc(raw[..BODY_SIZE]), 4) == raw[BODY_SIZE..HEADER_SIZE]
  {
    hide Sum, Cut, Join, Le, Pow256;
    WidthsSum();
    f := Cut(raw[..BODY_SIZE], Widths());
    rest := raw[FIXED_SIZE..BODY_SIZE];
    klen := UnLe(f[11]);
    JoinCut(raw[..BODY_SIZE], Widths());
    UnLeRoundTrip(raw[BODY_SIZE..HEADER_SIZE]);
    assert raw[..BODY_SIZE][..FIXED_SIZE] == raw[..FIXED_SIZE];
    assert raw[..BODY_SIZE][FIXED_SIZE..] == rest;
    hide UnLe;
  }

  /** A canonical raw header is what packing its own contents gives. */
  lemma PackUnpackCanonical(raw: Vec, crc: Vec -> nat)
    requires Unpack(raw, crc).Ok? && Canonical(raw)
    ensures Pack(Unpack(raw, crc).value, crc) == Ok(raw[..HEADER_SIZE])
  {
    hide Fields, FromFields, Widths, InRange, Le, UnLe, Sum, Cut, Join, Pow256, Unpack, Pack, ClaimedKey;
    var f, rest, klen := Unpacked(raw, crc);
    var h := FromFields(f, rest);
    FieldsOfAll(f, rest);
    FieldsOf(f, rest);
    assert rest == rest[..klen] + rest[klen..];
    assert rest[klen..] == raw[FIXED_SIZE + klen..BODY_SIZE];
    assert Body(h) == raw[..BODY_SIZE] by { assert raw[..FIXED_SIZE] + rest == raw[..BODY_SIZE]; }
    PackParts(h, crc);
    assert raw[..BODY_SIZE] + raw[BODY_SIZE..HEADER_SIZE] == raw[..HEADER_SIZE];
  }

  lemma PackUnpackOther(raw: Vec, crc: Vec -> nat)
    requires Unpack(raw, crc).Ok? && Pack(Unpack(raw, crc).value, crc) == Ok(raw[..HEADER_SIZE])
    ensures Canonical(raw)
  {
    hide Fields, FromFields, Widths, InRange, Le, UnLe, Sum, Cut, Join, Pow256, Unpack, Pack, Body, ClaimedKey;
    var f, rest, klen := Unpacked(raw, crc);
    var h := FromFields(f, rest);
    PackParts(h, crc);
    assert raw[..HEADER_SIZE][..BODY_SIZE] == Body(h);
    assert Body(h) == raw[..BODY_SIZE];
    BodyParts(h);
    FieldsOfAll(f, rest);
    assert rest == Body(h)[FIXED_SIZE..];
    assert rest[klen..] == raw[FIXED_SIZE + klen..BODY_SIZE];
  }

  /** Unpacking and packing again gives the same bytes exactly for zero-padded headers whose key fits. */
  lemma PackUnpack(raw: Vec, crc: Vec -> nat)
    requires Unpack(raw, crc).Ok?
    ensures |raw| >= HEADER_SIZE
    ensures Pack(Unpack(raw, crc).value, crc) == Ok(raw[..HEADER_SIZE]) <==> Canonical(raw)
  {
    hide Pack, Canonical;
    if Canonical(raw) {
      PackUnpackCanonical(raw, crc);
    } else if Pack(Unpack(raw, crc).value, crc) == Ok(raw[..HEADER_SIZE]) {
      PackUnpackOther(raw, crc);
    }
  }
}
