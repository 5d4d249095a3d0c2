/** The least element of a finite set of integers. */
module Extremes {
  predicate IsLeast(x: int, s: set<int>) {
    x in s && forall i :: i in s ==> x <= i
  }

  lemma {:induction false} LeastExists(s: set<int>)
    requires s != {}
    ensures exists x :: IsLeast(x, s)
    decreases |s|
  {
    assert (forall i :: i !in s) ==> s == {};
    var x :| x in s;
    if s == {x} {
      assert IsLeast(x, s);
    } else {
      LeastExists(s - {x});
      var r :| IsLeast(r, s - {x});
      var least := if x < r then x else r;
      forall i | i in s ensures least <= i {
        assert i == x || i in s - {x};
      }
      assert IsLeast(least, s);
    }
  }

  function Least(s: set<int>): (r: int)
    requires s != {}
    ensures IsLeast(r, s)
  {
    LeastExists(s);
    var r :| r in s && IsLeast(r, s);
    r
  }
}
