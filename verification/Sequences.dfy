/** Lists: their elements, whether they repeat, and joining lists of lists. */
module Sequences {
  function Elements<T(==)>(l: seq<T>): set<T> {
    set x | x in l
  }

  ghost predicate Distinct<T>(l: seq<T>) {
    forall i, j :: 0 <= i < j < |l| ==> l[i] != l[j]
  }

  function Join<T>(parts: seq<seq<T>>): seq<T> {
    if parts == [] then [] else parts[0] + Join(parts[1..])
  }

  lemma {:induction false} JoinSnoc<T>(parts: seq<seq<T>>, part: seq<T>)
    ensures Join(parts + [part]) == Join(parts) + part
  {
    if parts == [] {
      assert ([part])[1..] == [];
    } else {
      JoinSnoc(parts[1..], part);
      assert (parts + [part])[1..] == parts[1..] + [part];
    }
  }
}
