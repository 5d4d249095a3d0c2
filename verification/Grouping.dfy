/** Near-duplicate groups as labels, and connected components of the graph of near pairs. */
module Grouping {
  import opened Wrappers
  import opened Hamming
  import opened Mih
  import opened Extremes

  type Codes = map<Id, nat>
  type Groups = map<Id, Option<Id>>

  // ---------------------------------------------------------------- the graph

  predicate Adjacent(codes: Codes, radius: nat, i: Id, j: Id) {
    i in codes && j in codes && i != j && Dist(codes[i], codes[j]) <= radius
  }

  ghost predicate Path(codes: Codes, radius: nat, p: seq<Id>) {
    p != [] && p[0] in codes && forall k :: 0 <= k < |p| - 1 ==> Adjacent(codes, radius, p[k], p[k + 1])
  }

  ghost predicate Joins(codes: Codes, radius: nat, p: seq<Id>, i: Id, j: Id) {
    Path(codes, radius, p) && p[0] == i && p[|p| - 1] == j
  }

  ghost predicate Connected(codes: Codes, radius: nat, i: Id, j: Id) {
    exists p :: Joins(codes, radius, p, i, j)
  }

  lemma ConnectedSelf(codes: Codes, radius: nat, i: Id)
    requires i in codes
    ensures Connected(codes, radius, i, i)
  {
    assert Joins(codes, radius, [i], i, i);
  }

  lemma ConnectedStep(codes: Codes, radius: nat, i: Id, j: Id, k: Id)
    requires Connected(codes, radius, i, j) && Adjacent(codes, radius, j, k)
    ensures Connected(codes, radius, i, k)
  {
    hide Adjacent;
    var p :| Joins(codes, radius, p, i, j);
    assert Joins(codes, radius, p + [k], i, k);
  }

  lemma PathTail(codes: Codes, radius: nat, p: seq<Id>)
    requires Path(codes, radius, p) && |p| > 1
    ensures Path(codes, radius, p[1..]) && Adjacent(codes, radius, p[0], p[1])
  {
    hide Dist;
    var q := p[1..];
    assert Adjacent(codes, radius, p[0], p[0 + 1]);
    forall k | 0 <= k < |q| - 1 ensures Adjacent(codes, radius, q[k], q[k + 1]) {
      assert Adjacent(codes, radius, p[k + 1], p[k + 1 + 1]);
    }
  }

  lemma {:induction false} JoinedOn(codes: Codes, radius: nat, i: Id, q: seq<Id>)
    requires Path(codes, radius, q) && Connected(codes, radius, i, q[0])
    ensures Connected(codes, radius, i, q[|q| - 1])
    decreases |q|
  {
    hide Connected;
    if |q| > 1 {
      PathTail(codes, radius, q);
      ConnectedStep(codes, radius, i, q[0], q[1]);
      JoinedOn(codes, radius, i, q[1..]);
    }
  }

  lemma ConnectedTrans(codes: Codes, radius: nat, i: Id, j: Id, k: Id)
    requires Connected(codes, radius, i, j) && Connected(codes, radius, j, k)
    ensures Connected(codes, radius, i, k)
  {
    hide Adjacent;
    var q :| Joins(codes, radius, q, j, k);
    JoinedOn(codes, radius, i, q);
  }

  lemma AdjacentSymmetric(codes: Codes, radius: nat, i: Id, j: Id)
    requires Adjacent(codes, radius, i, j)
    ensures Adjacent(codes, radius, j, i)
  {
    hide Dist;
    DistSymmetric(codes[i], codes[j]);
  }

  lemma {:induction false} ConnectedBack(codes: Codes, radius: nat, p: seq<Id>)
    requires Path(codes, radius, p)
    ensures Connected(codes, radius, p[|p| - 1], p[0])
    decreases |p|
  {
    hide Adjacent;
    if |p| == 1 {
      ConnectedSelf(codes, radius, p[0]);
    } else {
      var q := p[..|p| - 1];
      ConnectedBack(codes, radius, q);
      assert Adjacent(codes, radius, p[|p| - 2], p[|p| - 2 + 1]);
      AdjacentSymmetric(codes, radius, p[|p| - 2], p[|p| - 1]);
      AdjacentBoth(codes, radius, p[|p| - 1], p[|p| - 2]);
      ConnectedSelf(codes, radius, p[|p| - 1]);
      ConnectedStep(codes, radius, p[|p| - 1], p[|p| - 1], p[|p| - 2]);
      ConnectedTrans(codes, radius, p[|p| - 1], p[|p| - 2], p[0]);
    }
  }

  lemma AdjacentBoth(codes: Codes, radius: nat, i: Id, j: Id)
    requires Adjacent(codes, radius, i, j)
    ensures i in codes && j in codes && i != j
  {}

  lemma ConnectedSymmetric(codes: Codes, radius: nat, i: Id, j: Id)
    requires Connected(codes, radius, i, j)
    ensures Connected(codes, radius, j, i)
  {
    var p :| Joins(codes, radius, p, i, j);
    ConnectedBack(codes, radius, p);
  }

  /** More images connect no less. */
  lemma ConnectedMore(codes: Codes, radius: nat, x: Id, c: nat, i: Id, j: Id)
    requires x !in codes && Connected(codes, radius, i, j)
    ensures Connected(codes[x := c], radius, i, j)
  {
    var p :| Joins(codes, radius, p, i, j);
    assert forall k :: 0 <= k < |p| - 1 ==> Adjacent(codes, radius, p[k], p[k + 1]);
    assert Joins(codes[x := c], radius, p, i, j);
  }

  // ---------------------------------------------------------------- labels

  /** Near images have one label. */
  ghost predicate Shared(codes: Codes, groups: Groups, radius: nat) {
    codes.Keys <= groups.Keys
    && forall i, j :: Adjacent(codes, radius, i, j) ==> groups[i].Some? && groups[i] == groups[j]
  }

  /** A label is the id of a connected image, not above the labelled one's, and no isolated image has one. */
  ghost predicate Labelled(codes: Codes, groups: Groups, radius: nat) {
    codes.Keys <= groups.Keys && forall i :: i in codes && groups[i].Some? ==> LabelledAt(codes, groups, radius, i)
  }

  ghost predicate LabelledAt(codes: Codes, groups: Groups, radius: nat, i: Id)
    requires i in groups && groups[i].Some?
  {
    groups[i].value <= i && Connected(codes, radius, i, groups[i].value) && HasNeighbour(codes, radius, i)
  }

  ghost predicate HasNeighbour(codes: Codes, radius: nat, i: Id) {
    exists j :: Adjacent(codes, radius, i, j)
  }

  ghost predicate Grouped(codes: Codes, groups: Groups, radius: nat) {
    Shared(codes, groups, radius) && Labelled(codes, groups, radius)
  }

  lemma {:induction false} SharedAlong(codes: Codes, groups: Groups, radius: nat, p: seq<Id>)
    requires Shared(codes, groups, radius) && Path(codes, radius, p)
    ensures p[0] in groups && p[|p| - 1] in groups && groups[p[0]] == groups[p[|p| - 1]]
    ensures |p| > 1 ==> groups[p[0]].Some?
    decreases |p|
  {
    hide Dist;
    if |p| > 1 {
      PathTail(codes, radius, p);
      SharedAlong(codes, groups, radius, p[1..]);
    }
  }

  lemma SharedConnected(codes: Codes, groups: Groups, radius: nat, i: Id, j: Id)
    requires Shared(codes, groups, radius) && Connected(codes, radius, i, j)
    ensures i in groups && j in groups && groups[i] == groups[j] && (i != j ==> groups[i].Some?)
  {
    hide Adjacent;
    var p :| Joins(codes, radius, p, i, j);
    SharedAlong(codes, groups, radius, p);
  }

  /** Two images have a label in common exactly if they are connected; the label is the smallest id of their component;
      and exactly the isolated images have none. */
  lemma GroupsAreComponents(codes: Codes, groups: Groups, radius: nat, i: Id, j: Id)
    requires Grouped(codes, groups, radius) && i in codes && j in codes && i != j
    ensures groups[i].Some? && groups[i] == groups[j] <==> Connected(codes, radius, i, j)
    ensures groups[i].Some? ==> Connected(codes, radius, i, groups[i].value)
    ensures groups[i].Some? && Connected(codes, radius, i, j) ==> groups[i].value <= j && groups[i].value <= i
    ensures groups[i].Some? <==> HasNeighbour(codes, radius, i)
  {
    hide Adjacent, Shared, Connected;
    if groups[i].Some? {
      assert LabelledAt(codes, groups, radius, i);
      if groups[i] == groups[j] {
        assert LabelledAt(codes, groups, radius, j);
        ConnectedSymmetric(codes, radius, j, groups[i].value);
        ConnectedTrans(codes, radius, i, groups[i].value, j);
      }
    }
    if Connected(codes, radius, i, j) {
      SharedConnected(codes, groups, radius, i, j);
      assert LabelledAt(codes, groups, radius, j);
    }
    if HasNeighbour(codes, radius, i) {
      NeighbourShares(codes, groups, radius, i);
    }
  }

  lemma NeighbourShares(codes: Codes, groups: Groups, radius: nat, i: Id)
    requires Shared(codes, groups, radius) && HasNeighbour(codes, radius, i)
    ensures i in groups && groups[i].Some?
  {}

  // ---------------------------------------------------------------- a new image

  /** The indexed images near a code. */
  function Near(codes: Codes, c: nat, radius: nat): set<Id> {
    set i | i in codes && Dist(codes[i], c) <= radius
  }

  function LabelsOf(groups: Groups, s: set<Id>): set<Id> {
    set i | i in s && i in groups && groups[i].Some? :: groups[i].value
  }

  /** The images and labels that are merged when x arrives. */
  function Merged(codes: Codes, groups: Groups, radius: nat, x: Id, c: nat): set<Id> {
    {x} + Near(codes, c, radius) + LabelsOf(groups, Near(codes, c, radius))
  }

  /** Every row with a merged label, the new image's row and its neighbours' rows get one label. */
  function Relabelled(groups: Groups, root: Id, near: set<Id>, x: Id): Groups {
    map i | i in groups ::
      if i == x || i in near
          || (groups[i].Some? && groups[i].value in LabelsOf(groups, near)) then Some(root) else groups[i]
  }

  lemma NewAdjacent(codes: Codes, radius: nat, x: Id, c: nat, i: Id)
    requires x !in codes && i in codes
    ensures Adjacent(codes[x := c], radius, i, x) <==> i in Near(codes, c, radius)
    ensures Adjacent(codes[x := c], radius, x, i) <==> i in Near(codes, c, radius)
  {
    hide Dist;
    DistSymmetric(codes[i], c);
  }

  /** An image near no other leaves the labels right. */
  lemma IsolatedShares(codes: Codes, groups: Groups, radius: nat, x: Id, c: nat)
    requires x !in codes && x in groups && Near(codes, c, radius) == {} && Shared(codes, groups, radius)
    ensures Shared(codes[x := c], groups, radius)
  {
    hide Near, Dist;
    forall i, j | Adjacent(codes[x := c], radius, i, j) ensures Adjacent(codes, radius, i, j) {
      if i == x {
        NewAdjacent(codes, radius, x, c, j);
      } else if j == x {
        NewAdjacent(codes, radius, x, c, i);
      }
    }
  }

  lemma IsolatedLabels(codes: Codes, groups: Groups, radius: nat, x: Id, c: nat)
    requires x !in codes && x in groups && groups[x].None? && Labelled(codes, groups, radius)
    ensures Labelled(codes[x := c], groups, radius)
  {
    hide LabelledAt;
    forall i | i in codes && groups[i].Some? ensures LabelledAt(codes[x := c], groups, radius, i) {
      LabelledMore(codes, groups, groups, radius, x, c, i);
    }
  }

  /** An image near no other that still has a label from before makes the labels wrong. */
  lemma StaleLabel(codes: Codes, groups: Groups, radius: nat, x: Id, c: nat)
    requires x !in codes && x in groups && groups[x].Some? && Near(codes, c, radius) == {}
    ensures !Labelled(codes[x := c], groups, radius)
  {
    hide Near, Dist, Connected;
    forall j | j in codes
      ensures !Adjacent(codes[x := c], radius, x, j)
    {
      NewAdjacent(codes, radius, x, c, j);
    }
    assert !LabelledAt(codes[x := c], groups, radius, x);
  }

  /** A case of it: two near images are removed and the second one is restored alone. It has no near image
      any more, and keeps its label. */
  lemma RestoredKeepsLabel(groups: Groups)
    requires groups == map[1 := Some(1), 2 := Some(1)]
    ensures Grouped(map[1 := 0, 2 := 1], groups, 1) && Grouped(map[], groups, 1)
    ensures Near(map[], 1, 1) == {} && !Grouped(map[2 := 1], groups, 1)
  {
    ThreeCodes();
    hide Dist, Connected;
    var both, none: Codes := map[1 := 0, 2 := 1], map[];
    assert Adjacent(both, 1, 1, 2) && Adjacent(both, 1, 2, 1);
    ConnectedSelf(both, 1, 1);
    ConnectedSelf(both, 1, 2);
    ConnectedStep(both, 1, 2, 2, 1);
    assert Near(none, 1, 1) == {};
    StaleLabel(none, groups, 1, 2, 1);
    assert none[2 := 1] == map[2 := 1];
  }

  lemma LabelledMore(codes: Codes, groups: Groups, after: Groups, radius: nat, x: Id, c: nat, i: Id)
    requires x !in codes && i in groups && groups[i].Some? && LabelledAt(codes, groups, radius, i)
    requires i in after && after[i] == groups[i]
    ensures LabelledAt(codes[x := c], after, radius, i)
  {
    hide Connected, Dist;
    ConnectedMore(codes, radius, x, c, i, groups[i].value);
    var j :| Adjacent(codes, radius, i, j);
    assert Adjacent(codes[x := c], radius, i, j);
  }

  lemma RelabelShares(codes: Codes, groups: Groups, radius: nat, x: Id, c: nat, root: Id)
    requires x !in codes && x in groups && Shared(codes, groups, radius)
    ensures Shared(codes[x := c], Relabelled(groups, root, Near(codes, c, radius), x), radius)
  {
    hide Dist, Near;
    var near := Near(codes, c, radius);
    var more, after := codes[x := c], Relabelled(groups, root, near, x);
    forall i, j | Adjacent(more, radius, i, j) ensures after[i].Some? && after[i] == after[j] {
      if i == x {
        NewAdjacent(codes, radius, x, c, j);
      } else if j == x {
        NewAdjacent(codes, radius, x, c, i);
      } else {
        assert Adjacent(codes, radius, i, j);
        assert i in near ==> groups[i].value in LabelsOf(groups, near);
        assert j in near ==> groups[j].value in LabelsOf(groups, near);
      }
    }
  }

  /** Every merged image is connected to the new one. */
  lemma MergedConnected(codes: Codes, groups: Groups, radius: nat, x: Id, c: nat, i: Id)
    requires x !in codes && Labelled(codes, groups, radius) && i in Merged(codes, groups, radius, x, c)
    ensures Connected(codes[x := c], radius, x, i) && Connected(codes[x := c], radius, i, x)
  {
    hide Connected, Near, Adjacent;
    var more, near := codes[x := c], Near(codes, c, radius);
    ConnectedSelf(more, radius, x);
    if i != x {
      var h :| h in near && (h == i || (h in groups && groups[h] == Some(i)));
      NearIn(codes, c, radius, h);
      NewAdjacent(codes, radius, x, c, h);
      ConnectedStep(more, radius, x, x, h);
      if h != i {
        assert LabelledAt(codes, groups, radius, h);
        ConnectedMore(codes, radius, x, c, h, i);
        ConnectedTrans(more, radius, x, h, i);
      }
      ConnectedSymmetric(more, radius, x, i);
    }
  }

  lemma SomeNear(codes: Codes, c: nat, radius: nat) returns (h: Id)
    requires Near(codes, c, radius) != {}
    ensures h in Near(codes, c, radius)
  {
    var near := Near(codes, c, radius);
    assert (forall i :: i !in near) ==> near == {};
    h :| h in near;
  }

  lemma NearIn(codes: Codes, c: nat, radius: nat, h: Id)
    requires h in Near(codes, c, radius)
    ensures h in codes
  {}

  lemma RelabelledAt(codes: Codes, groups: Groups, radius: nat, x: Id, c: nat, root: Id, i: Id)
    requires x !in codes && x in groups && Labelled(codes, groups, radius)
    requires Near(codes, c, radius) != {} && IsLeast(root, Merged(codes, groups, radius, x, c))
    requires i in codes[x := c] && i in groups
    requires Relabelled(groups, root, Near(codes, c, radius), x)[i].Some?
    ensures LabelledAt(codes[x := c], Relabelled(groups, root, Near(codes, c, radius), x), radius, i)
  {
    hide Connected, Near, Adjacent, Merged;
    var more, near, after := codes[x := c], Near(codes, c, radius), Relabelled(groups, root, Near(codes, c, radius), x);
    MergedParts(codes, groups, radius, x, c);
    if i == x || i in near {
      MergedConnected(codes, groups, radius, x, c, i);
      MergedConnected(codes, groups, radius, x, c, root);
      ConnectedTrans(more, radius, i, x, root);
      var some := SomeNear(codes, c, radius);
      var h := if i == x then some else i;
      NearIn(codes, c, radius, h);
      NewAdjacent(codes, radius, x, c, h);
      assert HasNeighbour(more, radius, i);
    } else {
      assert LabelledAt(codes, groups, radius, i);
      var g := groups[i].value;
      LabelledMore(codes, groups, groups, radius, x, c, i);
      if g in LabelsOf(groups, near) {
        MergedConnected(codes, groups, radius, x, c, g);
        MergedConnected(codes, groups, radius, x, c, root);
        ConnectedTrans(more, radius, i, g, x);
        ConnectedTrans(more, radius, i, x, root);
      }
    }
  }

  lemma MergedParts(codes: Codes, groups: Groups, radius: nat, x: Id, c: nat)
    ensures Merged(codes, groups, radius, x, c)
            == {x} + Near(codes, c, radius) + LabelsOf(groups, Near(codes, c, radius))
  {}

  /** The relabelling makes the labels right again. */
  lemma RelabelGroups(codes: Codes, groups: Groups, radius: nat, x: Id, c: nat, root: Id)
    requires x !in codes && x in groups && Grouped(codes, groups, radius)
    requires Near(codes, c, radius) != {} && IsLeast(root, Merged(codes, groups, radius, x, c))
    ensures Grouped(codes[x := c], Relabelled(groups, root, Near(codes, c, radius), x), radius)
  {
    hide LabelledAt, Near, Adjacent, Merged;
    RelabelShares(codes, groups, radius, x, c, root);
    var more, after := codes[x := c], Relabelled(groups, root, Near(codes, c, radius), x);
    forall i | i in more && after[i].Some? ensures LabelledAt(more, after, radius, i) {
      RelabelledAt(codes, groups, radius, x, c, root, i);
    }
  }

  // ---------------------------------------------------------------- removal

  lemma FewerShare(codes: Codes, groups: Groups, radius: nat, x: Id)
    ensures Shared(codes, groups, radius) ==> Shared(codes - {x}, groups, radius)
  {
    hide Dist;
    assert forall i, j :: Adjacent(codes - {x}, radius, i, j) ==> Adjacent(codes, radius, i, j);
  }

  /** Without image x every other member of its component is still connected to the label, which is
      not x itself, and still has a neighbour. */
  ghost predicate HoldsTogether(codes: Codes, groups: Groups, radius: nat, x: Id)
    requires x in groups && codes.Keys <= groups.Keys
  {
    groups[x].Some? && groups[x].value != x
    && forall i :: i in codes && i != x && groups[i] == groups[x] ==>
         Connected(codes - {x}, radius, i, groups[x].value) && HasNeighbour(codes - {x}, radius, i)
  }

  lemma {:induction false} PathAvoids(codes: Codes, groups: Groups, radius: nat, p: seq<Id>, x: Id)
    requires Shared(codes, groups, radius) && Path(codes, radius, p) && x in groups && groups[p[0]] != groups[x]
    ensures Path(codes - {x}, radius, p)
    decreases |p|
  {
    hide Dist;
    if |p| == 1 {
    } else {
      PathTail(codes, radius, p);
      PathAvoids(codes, groups, radius, p[1..], x);
      var fewer := codes - {x};
      forall k | 0 <= k < |p| - 1
        ensures Adjacent(fewer, radius, p[k], p[k + 1])
      {
        if k == 0 {
          assert Adjacent(codes, radius, p[0], p[1]) && p[0] in fewer && p[1] in fewer;
        } else {
          assert Adjacent(fewer, radius, p[1..][k - 1], p[1..][k - 1 + 1]);
        }
      }
    }
  }

  /** The label of an image in another component than x needs no x. */
  lemma OtherComponent(codes: Codes, groups: Groups, radius: nat, x: Id, i: Id)
    requires Grouped(codes, groups, radius) && x in groups && i in codes && i != x
    requires groups[i].Some? && groups[i] != groups[x]
    ensures LabelledAt(codes - {x}, groups, radius, i)
  {
    hide Dist, Path;
    var fewer := codes - {x};
    assert LabelledAt(codes, groups, radius, i);
    var p :| Joins(codes, radius, p, i, groups[i].value);
    PathStart(codes, radius, p);
    PathAvoids(codes, groups, radius, p, x);
    assert Joins(fewer, radius, p, i, groups[i].value);
    var j :| Adjacent(codes, radius, i, j);
    assert groups[i] == groups[j];
    assert Adjacent(fewer, radius, i, j);
  }

  lemma PathStart(codes: Codes, radius: nat, p: seq<Id>)
    requires Path(codes, radius, p)
    ensures p != [] && p[0] in codes
  {}

  /** Groups are not recomputed when an image goes. The labels are right without it if and only if it
      had no neighbour, or its component holds together without it. */
  lemma RemovalGroups(codes: Codes, groups: Groups, radius: nat, x: Id)
    requires Grouped(codes, groups, radius) && x in codes
    ensures Grouped(codes - {x}, groups, radius)
            <==> !HasNeighbour(codes, radius, x) || HoldsTogether(codes, groups, radius, x)
  {
    var fewer := codes - {x};
    FewerShare(codes, groups, radius, x);
    if !HasNeighbour(codes, radius, x) || HoldsTogether(codes, groups, radius, x) {
      forall i | i in fewer && groups[i].Some?
        ensures LabelledAt(fewer, groups, radius, i)
      {
        assert LabelledAt(codes, groups, radius, i);
        if groups[i] != groups[x] {
          OtherComponent(codes, groups, radius, x, i);
        } else {
          assert LabelledAt(codes, groups, radius, x);
        }
      }
    }
    if Grouped(fewer, groups, radius) && HasNeighbour(codes, radius, x) {
      RemovalHolds(codes, groups, radius, x);
    }
    hide Adjacent, Connected;
  }

  lemma RemovalHolds(codes: Codes, groups: Groups, radius: nat, x: Id)
    requires Grouped(codes, groups, radius) && x in codes && HasNeighbour(codes, radius, x)
    requires Grouped(codes - {x}, groups, radius)
    ensures HoldsTogether(codes, groups, radius, x)
  {
    hide Dist, Path, Labelled;
    var fewer := codes - {x};
    LabelledParts(fewer, groups, radius);
    var j :| Adjacent(codes, radius, x, j);
    assert groups[x].Some? && groups[j] == groups[x] && j in fewer;
    assert LabelledAt(fewer, groups, radius, j);
    ConnectedEnd(fewer, radius, j, groups[j].value);
    forall i | i in codes && i != x && groups[i] == groups[x]
      ensures Connected(fewer, radius, i, groups[x].value) && HasNeighbour(fewer, radius, i)
    {
      assert i in fewer && LabelledAt(fewer, groups, radius, i);
    }
  }

  lemma LabelledParts(codes: Codes, groups: Groups, radius: nat)
    requires Labelled(codes, groups, radius)
    ensures codes.Keys <= groups.Keys && forall i :: i in codes && groups[i].Some? ==>
              LabelledAt(codes, groups, radius, i)
  {}

  lemma ConnectedEnd(codes: Codes, radius: nat, i: Id, j: Id)
    requires Connected(codes, radius, i, j)
    ensures j in codes
  {
    var p :| Joins(codes, radius, p, i, j);
    if |p| > 1 {
      assert Adjacent(codes, radius, p[|p| - 2], p[|p| - 2 + 1]);
    }
  }

  /** A case of it: of three images in a row, the outer two keep one label when the
      middle one is removed, although nothing connects them any more. */
  lemma RemovalMaySplit(codes: Codes, groups: Groups)
    requires codes == map[1 := 0, 2 := 1, 3 := 3] && groups == map[1 := Some(1), 2 := Some(1), 3 := Some(1)]
    ensures Grouped(codes, groups, 1) && Shared(codes - {2}, groups, 1) && !Connected(codes - {2}, 1, 1, 3)
    ensures !Grouped(codes - {2}, groups, 1)
  {
    ThreeCodes();
    hide Dist, Connected;
    assert Adjacent(codes, 1, 1, 2) && Adjacent(codes, 1, 2, 1) && Adjacent(codes, 1, 3, 2);
    ConnectedSelf(codes, 1, 1);
    ConnectedSelf(codes, 1, 2);
    ConnectedSelf(codes, 1, 3);
    ConnectedStep(codes, 1, 2, 2, 1);
    ConnectedStep(codes, 1, 3, 3, 2);
    ConnectedStep(codes, 1, 3, 2, 1);
    var fewer := codes - {2};
    var apart: Groups := map[1 := None, 3 := None];
    assert fewer == map[1 := 0, 3 := 3] && !Adjacent(fewer, 1, 1, 3) && !Adjacent(fewer, 1, 3, 1);
    assert Shared(fewer, apart, 1);
    if Connected(fewer, 1, 1, 3) {
      SharedConnected(fewer, apart, 1, 1, 3);
    }
    assert !HasNeighbour(fewer, 1, 3);
    assert !LabelledAt(fewer, groups, 1, 3);
  }

  lemma ThreeCodes()
    ensures Dist(0, 1) == Dist(1, 0) == 1 && Dist(1, 3) == Dist(3, 1) == 1 && Dist(0, 3) == Dist(3, 0) == 2
  {
    hide Dist;
    DistZero(0, 0);
    DistStep(0, 1);
    DistStep(1, 0);
    DistStep(1, 3);
    DistStep(3, 1);
    DistStep(0, 3);
    DistStep(3, 0);
  }
}
