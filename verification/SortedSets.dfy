/** Sets of sequences listed in lexicographic order. */
module SortedSets {
  /** Elements are compared by an injective key. */
  ghost predicate Injective<T(!new)>(key: T -> int) {
    forall x, y :: key(x) == key(y) ==> x == y
  }

  predicate LexLe<T>(a: seq<T>, b: seq<T>, key: T -> int) {
    a == [] || (b != [] && (key(a[0]) < key(b[0]) || (key(a[0]) == key(b[0]) && LexLe(a[1..], b[1..], key))))
  }

  lemma {:induction false} LexTotal<T>(a: seq<T>, b: seq<T>, key: T -> int)
    ensures LexLe(a, b, key) || LexLe(b, a, key)
  {
    if a != [] && b != [] {
      LexTotal(a[1..], b[1..], key);
    }
  }

  lemma {:induction false} LexTransitive<T>(a: seq<T>, b: seq<T>, c: seq<T>, key: T -> int)
    requires LexLe(a, b, key) && LexLe(b, c, key)
    ensures LexLe(a, c, key)
  {
    if a != [] && key(a[0]) == key(b[0]) && key(b[0]) == key(c[0]) {
      LexTransitive(a[1..], b[1..], c[1..], key);
    }
  }

  lemma {:induction false} LexAntisymmetric<T(!new)>(a: seq<T>, b: seq<T>, key: T -> int)
    requires Injective(key) && LexLe(a, b, key) && LexLe(b, a, key)
    ensures a == b
  {
    if a != [] {
      LexAntisymmetric(a[1..], b[1..], key);
      assert a == [a[0]] + a[1..] && b == [b[0]] + b[1..];
    }
  }

  predicate IsFirst<T(==)>(x: seq<T>, s: set<seq<T>>, key: T -> int) {
    x in s && forall y :: y in s ==> LexLe(x, y, key)
  }

  lemma {:induction false} FirstExists<T(!new)>(s: set<seq<T>>, key: T -> int)
    requires s != {}
    ensures exists x :: IsFirst(x, s, key)
    decreases |s|
  {
    var y :| y in s;
    LexTotal(y, y, key);
    if s == {y} {
      assert IsFirst(y, s, key);
    } else {
      FirstExists(s - {y}, key);
      var z :| IsFirst(z, s - {y}, key);
      LexTotal(y, z, key);
      var x := if LexLe(y, z, key) then y else z;
      forall w | w in s ensures LexLe(x, w, key) {
        if w != y && x == y {
          LexTransitive(y, z, w, key);
        }
      }
      assert IsFirst(x, s, key);
    }
  }

  lemma FirstIsUnique<T(!new)>(s: set<seq<T>>, key: T -> int)
    requires Injective(key)
    ensures forall x, y :: IsFirst(x, s, key) && IsFirst(y, s, key) ==> x == y
  {
    forall x, y | IsFirst(x, s, key) && IsFirst(y, s, key) ensures x == y {
      LexAntisymmetric(x, y, key);
    }
  }

  /** The elements in ascending order, each once. */
  function Sorted<T(==, !new)>(s: set<seq<T>>, key: T -> int): (r: seq<seq<T>>)
    requires Injective(key)
    ensures |r| == |s| && (forall x :: x in r <==> x in s)
    ensures forall i, j :: 0 <= i < j < |r| ==> r[i] != r[j] && LexLe(r[i], r[j], key)
    decreases |s|
  {
    if s == {} then []
    else
      FirstExists(s, key);
      FirstIsUnique(s, key);
      var x :| x in s && IsFirst(x, s, key);
      [x] + Sorted(s - {x}, key)
  }
}
