/** The value of a fixed-depth hash trie over a set of digests, and what two values say about two sets. */
module MerkleTrie {
  import opened Wrappers
  import opened GF256
  import opened LinearAlgebra
  import opened HexDigits
  import opened SortedSets
  import opened Sequences

  const DEPTH: nat := 3
  const EMPTY: Vec := Zeros(32)

  type Sha = Vec -> Vec

  ghost predicate Sized(sha: Sha) {
    forall x: Vec :: |sha(x)| == 32
  }

  ghost predicate Digests(s: set<Vec>) {
    forall x :: x in s ==> |x| == 32
  }

  /** The leaf that holds a digest. */
  function PathOf(x: Vec): (p: string)
    requires |x| == 32
    ensures |p| == DEPTH
  {
    ToHex(x)[..DEPTH]
  }

  /** The digests of s whose leaf lies below p. */
  function Under(s: set<Vec>, p: string): (r: set<Vec>)
    requires Digests(s)
    ensures Digests(r) && r <= s
  {
    set x | x in s && p <= PathOf(x)
  }

  function AsInt(b: Byte): int {
    b as int
  }

  function Listed(s: set<Vec>): (r: seq<Vec>)
    ensures |r| == |s| && forall x :: x in r <==> x in s
  {
    Sorted(s, AsInt)
  }

  // ---------------------------------------------------------------- node values

  /** What is hashed at a leaf, if anything. */
  function LeafInput(s: set<Vec>): Option<Vec> {
    if s == {} then None else Some(Join(Listed(s)))
  }

  /** What is hashed above sixteen children, if anything. */
  function InnerInput(kids: seq<Vec>): Option<Vec> {
    if forall k :: k in kids ==> k == EMPTY then None else Some(Join(kids))
  }

  function Value(sha: Sha, input: Option<Vec>): Vec {
    if input.None? then EMPTY else sha(input.value)
  }

  ghost function Input(sha: Sha, s: set<Vec>, p: string): Option<Vec>
    requires Digests(s) && |p| <= DEPTH
    decreases DEPTH - |p|, 1
  {
    if |p| == DEPTH then LeafInput(Under(s, p)) else InnerInput(Kids(sha, s, p))
  }

  ghost function Kids(sha: Sha, s: set<Vec>, p: string): (r: seq<Vec>)
    requires Digests(s) && |p| < DEPTH
    ensures |r| == 16
    decreases DEPTH - |p|, 0
  {
    seq(16, i requires 0 <= i < 16 => Node(sha, s, p + [Hex(i)]))
  }

  ghost function Node(sha: Sha, s: set<Vec>, p: string): Vec
    requires Digests(s) && |p| <= DEPTH
    decreases DEPTH - |p|, 2
  {
    Value(sha, Input(sha, s, p))
  }

  // ---------------------------------------------------------------- what is hashed, byte by byte

  /** The i-th digest of those laid end to end. */
  function Piece(raw: Vec, i: nat): Vec {
    if 32 * i + 32 <= |raw| then raw[32 * i..32 * i + 32] else []
  }

  /** At the first byte where they differ, a has the smaller one. */
  ghost predicate Below(a: Vec, b: Vec) {
    exists n :: 0 <= n < |a| && n < |b| && a[..n] == b[..n] && a[n] < b[n]
  }

  lemma {:induction false} JoinPiece(l: seq<Vec>, i: nat)
    requires forall k :: 0 <= k < |l| ==> |l[k]| == 32
    ensures |Join(l)| == 32 * |l| && (i < |l| ==> Piece(Join(l), i) == l[i])
  {
    if l != [] {
      JoinPiece(l[1..], if i == 0 then 0 else i - 1);
      if 0 < i < |l| {
        assert Join(l)[32 * i..32 * i + 32] == Join(l[1..])[32 * (i - 1)..32 * (i - 1) + 32];
      }
    }
  }

  lemma {:induction false} LexBelow(a: Vec, b: Vec)
    requires LexLe(a, b, AsInt) && a != b && |a| == |b|
    ensures Below(a, b)
  {
    if a[0] == b[0] {
      assert a == [a[0]] + a[1..] && b == [b[0]] + b[1..];
      LexBelow(a[1..], b[1..]);
      var n :| 0 <= n < |a| - 1 && a[1..][..n] == b[1..][..n] && a[1..][n] < b[1..][n];
      assert a[..n + 1] == [a[0]] + a[1..][..n] && b[..n + 1] == [b[0]] + b[1..][..n];
    } else {
      assert a[..0] == b[..0];
    }
  }

  /** Above a leaf the sixteen children are hashed in the order of their digits, unless all of them are empty. */
  lemma InnerHashed(sha: Sha, s: set<Vec>, p: string, i: nat)
    requires Sized(sha) && Digests(s) && |p| < DEPTH && i < 16
    ensures var raw := Input(sha, s, p);
            (raw.None? <==> forall c: Digit :: Node(sha, s, p + [HEX[c]]) == EMPTY)
            && (raw.Some? ==> |raw.value| == 512 && Piece(raw.value, i) == Node(sha, s, p + [HEX[i]]))
  {
    hide Node, Join;
    var kids := Kids(sha, s, p);
    forall c: Digit
      ensures kids[c] == Node(sha, s, p + [HEX[c]]) && |kids[c]| == 32
    {
      NodeSize(sha, s, p + [HEX[c]]);
    }
    JoinPiece(kids, i);
    assert forall k :: k in kids ==> exists c: Digit :: kids[c] == k;
    assert forall c: Digit :: kids[c] in kids;
  }

  /** At a leaf its digests are hashed, each once and in ascending order, unless there is none. */
  lemma LeafHashed(sha: Sha, s: set<Vec>, p: string, i: nat, j: nat)
    requires Digests(s) && |p| == DEPTH
    ensures var raw, n := Input(sha, s, p), |Under(s, p)|;
            (raw.None? <==> n == 0)
            && (raw.Some? ==> |raw.value| == 32 * n
                              && (i < n ==> Piece(raw.value, i) in Under(s, p))
                              && (i < j < n ==> Below(Piece(raw.value, i), Piece(raw.value, j))))
  {
    hide Sorted, Join, Piece, Below, Under, LexLe;
    var l := Listed(Under(s, p));
    forall k | 0 <= k < |l|
      ensures |l[k]| == 32
    {
      assert l[k] in l;
    }
    JoinPiece(l, i);
    JoinPiece(l, j);
    if i < |l| {
      assert l[i] in l;
      if i < j < |l| {
        assert l[i] != l[j] && LexLe(l[i], l[j], AsInt);
        LexBelow(l[i], l[j]);
      }
    }
  }

  // ---------------------------------------------------------------- equal sets, equal nodes

  lemma UnderChild(s: set<Vec>, p: string, c: char)
    requires Digests(s)
    ensures Under(s, p + [c]) == Under(Under(s, p), p + [c])
  {
    forall x | x in Under(s, p + [c]) ensures p <= PathOf(x) {
      assert (p + [c])[..|p|] == p;
    }
  }

  /** A node's value is a function of the digests below it. */
  lemma {:induction false} NodeOfUnder(sha: Sha, a: set<Vec>, b: set<Vec>, p: string)
    requires Digests(a) && Digests(b) && |p| <= DEPTH && Under(a, p) == Under(b, p)
    ensures Node(sha, a, p) == Node(sha, b, p)
    decreases DEPTH - |p|
  {
    hide Under, InnerInput, LeafInput, Hex, Value;
    if |p| < DEPTH {
      forall i | 0 <= i < 16 ensures Node(sha, a, p + [Hex(i)]) == Node(sha, b, p + [Hex(i)]) {
        UnderChild(a, p, Hex(i));
        UnderChild(b, p, Hex(i));
        NodeOfUnder(sha, a, b, p + [Hex(i)]);
      }
      assert Kids(sha, a, p) == Kids(sha, b, p);
    }
  }

  function Delta(a: set<Vec>, b: set<Vec>): (r: set<Vec>)
    requires Digests(a) && Digests(b)
    ensures Digests(r)
  {
    (a - b) + (b - a)
  }

  lemma DifferentNodes(sha: Sha, a: set<Vec>, b: set<Vec>, p: string)
    requires Digests(a) && Digests(b) && |p| <= DEPTH && Node(sha, a, p) != Node(sha, b, p)
    ensures Under(Delta(a, b), p) != {}
  {
    hide Node;
    if Under(a, p) == Under(b, p) {
      NodeOfUnder(sha, a, b, p);
    } else if x :| x in Under(a, p) && x !in Under(b, p) {
      assert x in Under(Delta(a, b), p);
    } else {
      var y :| y in Under(b, p) && y !in Under(a, p);
      assert y in Under(Delta(a, b), p);
    }
  }

  lemma UnderApart(s: set<Vec>, p: string, q: string, x: Vec)
    requires Digests(s) && |p| == |q| && p != q && x in Under(s, p)
    ensures x !in Under(s, q)
  {
    hide PathOf;
  }

  /** However the hash collides, no more nodes of one level differ than digests do. */
  lemma {:induction false} FewDifferences(sha: Sha, a: set<Vec>, b: set<Vec>, paths: seq<string>, n: nat, d: set<Vec>)
    requires Digests(a) && Digests(b) && n <= DEPTH && Distinct(paths)
    requires forall p :: p in paths ==> |p| == n && Under(Delta(a, b), p) != {} && Under(Delta(a, b), p) <= d
    ensures |paths| <= |d|
  {
    hide Delta, Under, PathOf;
    if paths != [] {
      var x :| x in Under(Delta(a, b), paths[0]);
      forall q | q in paths[1..] ensures Under(Delta(a, b), q) <= d - {x} {
        UnderApart(Delta(a, b), paths[0], q, x);
      }
      FewDifferences(sha, a, b, paths[1..], n, d - {x});
    }
  }

  // ---------------------------------------------------------------- equal nodes, equal sets

  /** No input hashed at the same place of the two tries collides, nor hashes to the empty value. */
  ghost predicate NoCollisions(sha: Sha, a: set<Vec>, b: set<Vec>)
    requires Digests(a) && Digests(b)
  {
    forall p :: |p| <= DEPTH ==> Told(sha, Input(sha, a, p), Input(sha, b, p))
  }

  ghost predicate Told(sha: Sha, x: Option<Vec>, y: Option<Vec>) {
    Value(sha, x) == Value(sha, y) ==> x == y
  }

  lemma {:induction false} JoinedDigests(l: seq<Vec>, k: seq<Vec>)
    requires Join(l) == Join(k)
    requires forall i :: 0 <= i < |l| ==> |l[i]| == 32
    requires forall i :: 0 <= i < |k| ==> |k[i]| == 32
    ensures l == k
  {
    if l != [] && k != [] {
      assert Join(l)[..32] == l[0] && Join(l)[32..] == Join(l[1..]);
      assert Join(k)[..32] == k[0] && Join(k)[32..] == Join(k[1..]);
      JoinedDigests(l[1..], k[1..]);
      assert l == [l[0]] + l[1..] && k == [k[0]] + k[1..];
    }
  }

  lemma LeafTells(a: set<Vec>, b: set<Vec>)
    requires Digests(a) && Digests(b) && LeafInput(a) == LeafInput(b)
    ensures a == b
  {
    hide Sorted, Join;
    if a != {} && b != {} {
      JoinedDigests(Listed(a), Listed(b));
      assert forall x :: x in a <==> x in Listed(a);
      assert forall x :: x in b <==> x in Listed(b);
    }
  }

  lemma NodeSize(sha: Sha, s: set<Vec>, p: string)
    requires Sized(sha) && Digests(s) && |p| <= DEPTH
    ensures |Node(sha, s, p)| == 32
  {
    hide Input;
  }

  lemma InnerTells(k: seq<Vec>, l: seq<Vec>)
    requires |k| == |l| && InnerInput(k) == InnerInput(l)
    requires forall i :: 0 <= i < |k| ==> |k[i]| == 32 && |l[i]| == 32
    ensures k == l
  {
    hide Join;
    if InnerInput(k).None? {
      assert forall i :: 0 <= i < |k| ==> k[i] in k && l[i] in l;
    } else {
      JoinedDigests(k, l);
    }
  }

  lemma KidsTell(sha: Sha, a: set<Vec>, b: set<Vec>, p: string)
    requires Sized(sha) && Digests(a) && Digests(b) && |p| < DEPTH
    requires InnerInput(Kids(sha, a, p)) == InnerInput(Kids(sha, b, p))
    ensures Kids(sha, a, p) == Kids(sha, b, p)
  {
    hide Node, Hex, InnerInput;
    var k, l := Kids(sha, a, p), Kids(sha, b, p);
    forall i | 0 <= i < 16 ensures |k[i]| == 32 && |l[i]| == 32 {
      NodeSize(sha, a, p + [Hex(i)]);
      NodeSize(sha, b, p + [Hex(i)]);
    }
    InnerTells(k, l);
  }

  lemma InSomeChild(s: set<Vec>, p: string, x: Vec) returns (i: nat)
    requires Digests(s) && |p| < DEPTH && x in Under(s, p)
    ensures i < 16 && x in Under(s, p + [Hex(i)])
  {
    hide Hex;
    i := DigitAt(x, |p|);
    assert PathOf(x)[..|p| + 1] == p + [Hex(i)];
  }

  lemma DigitAt(x: Vec, n: nat) returns (i: nat)
    requires |x| == 32 && n < DEPTH
    ensures i < 16 && PathOf(x)[n] == Hex(i)
  {
    hide Hex;
    var h := ToHex(x);
    assert h == [Hex(x[0] / 16), Hex(x[0] % 16)] + ToHex(x[1..]);
    assert h[2] == ToHex(x[1..])[0] == Hex(x[1] / 16);
    i := if n == 0 then x[0] / 16 else if n == 1 then x[0] % 16 else x[1] / 16;
  }

  /** Without collisions, equal values mean equal sets. */
  lemma {:induction false} NodeTells(sha: Sha, a: set<Vec>, b: set<Vec>, p: string)
    requires Sized(sha) && Digests(a) && Digests(b) && NoCollisions(sha, a, b) && |p| <= DEPTH
    requires Node(sha, a, p) == Node(sha, b, p)
    ensures Under(a, p) == Under(b, p)
    decreases DEPTH - |p|
  {
    hide Under, Hex, InnerInput, LeafInput;
    assert Told(sha, Input(sha, a, p), Input(sha, b, p));
    if |p| == DEPTH {
      LeafTells(Under(a, p), Under(b, p));
    } else {
      KidsTell(sha, a, b, p);
      forall i | 0 <= i < 16 ensures Under(a, p + [Hex(i)]) == Under(b, p + [Hex(i)]) {
        assert Kids(sha, a, p)[i] == Node(sha, a, p + [Hex(i)]) && Kids(sha, b, p)[i] == Node(sha, b, p + [Hex(i)]);
        NodeTells(sha, a, b, p + [Hex(i)]);
      }
      ChildrenCover(a, b, p);
      ChildrenCover(b, a, p);
    }
  }

  lemma ChildrenCover(a: set<Vec>, b: set<Vec>, p: string)
    requires Digests(a) && Digests(b) && |p| < DEPTH
    requires forall i :: 0 <= i < 16 ==> Under(a, p + [Hex(i)]) == Under(b, p + [Hex(i)])
    ensures Under(a, p) <= Under(b, p)
  {
    hide Hex;
    forall x | x in Under(a, p) ensures x in Under(b, p) {
      var i := InSomeChild(a, p, x);
      UnderChild(b, p, Hex(i));
    }
  }

  // ---------------------------------------------------------------- descending

  /** The walk from the root reaches p: every node down to it differs. */
  ghost predicate Reached(sha: Sha, a: set<Vec>, b: set<Vec>, p: string)
    requires Digests(a) && Digests(b) && |p| <= DEPTH
  {
    forall i :: 0 <= i <= |p| ==> Node(sha, a, p[..i]) != Node(sha, b, p[..i])
  }

  lemma PrefixesOf(p: string, c: char, i: nat)
    requires i <= |p| + 1
    ensures (p + [c])[..i] == if i <= |p| then p[..i] else p + [c]
  {}

  lemma ReachedFar(sha: Sha, a: set<Vec>, b: set<Vec>, p: string, c: char)
    requires Digests(a) && Digests(b) && |p| < DEPTH && Reached(sha, a, b, p + [c])
    ensures Reached(sha, a, b, p) && Node(sha, a, p + [c]) != Node(sha, b, p + [c])
  {
    hide Node, Digests;
    PrefixesOf(p, c, |p| + 1);
    forall i | 0 <= i <= |p|
      ensures Node(sha, a, p[..i]) != Node(sha, b, p[..i])
    {
      PrefixesOf(p, c, i);
    }
  }

  lemma ReachedStep(sha: Sha, a: set<Vec>, b: set<Vec>, p: string, c: char)
    requires Digests(a) && Digests(b) && |p| < DEPTH
    ensures Reached(sha, a, b, p + [c])
            <==> Reached(sha, a, b, p) && Node(sha, a, p + [c]) != Node(sha, b, p + [c])
  {
    hide Node, Digests;
    if Reached(sha, a, b, p + [c]) {
      ReachedFar(sha, a, b, p, c);
    } else {
      var i :| 0 <= i <= |p| + 1 && Node(sha, a, (p + [c])[..i]) == Node(sha, b, (p + [c])[..i]);
      PrefixesOf(p, c, i);
    }
  }

  /** The digests of a that b lacks and a walk can find. */
  ghost function Found(sha: Sha, a: set<Vec>, b: set<Vec>): set<Vec>
    requires Digests(a) && Digests(b)
  {
    set x | x in a - b && Reached(sha, a, b, PathOf(x))
  }

  lemma NodesOnTheWay(sha: Sha, a: set<Vec>, b: set<Vec>, x: Vec, i: nat)
    requires Sized(sha) && Digests(a) && Digests(b) && NoCollisions(sha, a, b) && x in Delta(a, b) && i <= DEPTH
    ensures Node(sha, a, PathOf(x)[..i]) != Node(sha, b, PathOf(x)[..i])
  {
    hide Node, NoCollisions;
    var p := PathOf(x)[..i];
    assert Under(a, p) != Under(b, p) by {
      assert (x in Under(a, p) <==> x in a) && (x in Under(b, p) <==> x in b);
    }
    if Node(sha, a, p) == Node(sha, b, p) {
      NodeTells(sha, a, b, p);
    }
  }

  /** Without collisions a walk finds them all. */
  lemma FoundAll(sha: Sha, a: set<Vec>, b: set<Vec>)
    requires Sized(sha) && Digests(a) && Digests(b) && NoCollisions(sha, a, b)
    ensures Found(sha, a, b) == a - b && Found(sha, b, a) == b - a
  {
    hide Node, Input;
    forall x, i | x in Delta(a, b) && 0 <= i <= DEPTH
      ensures Node(sha, a, PathOf(x)[..i]) != Node(sha, b, PathOf(x)[..i])
    {
      NodesOnTheWay(sha, a, b, x, i);
    }
  }
}
