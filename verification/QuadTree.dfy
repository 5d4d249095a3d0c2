/** A point quadtree whose nodes keep aggregates of the points beneath them. */
module QuadTree {
  import opened Wrappers
  import opened BinaryPolynomials
  import opened Points
  import opened Grid
  import opened Sequences

  const LEAF_CAPACITY: nat := 16
  const MAX_DEPTH: nat := 24

  /** The list has each point of the set once. */
  ghost predicate Lists(l: seq<Item>, s: set<Item>) {
    multiset(l) == multiset(s)
  }

  class QNode {
    const cell: Cell
    const depth: nat
    var count: int
    var sx: real
    var sy: real
    var rep: Option<Rep>
    /** The points of a leaf; none where the node has children. */
    var points: Option<seq<Item>>
    var children: seq<QNode>
    /** All points beneath, and all nodes. */
    ghost var below: set<Item>
    ghost var repr: set<QNode>

    ghost predicate Valid()
      reads this, repr
      decreases repr, 1
    {
      depth <= MAX_DEPTH && cell.size == Side(depth) && AllWithin(cell, below) && Aggregates(count, sx, sy, rep, below)
      && if points.Some? then IsLeaf() && (|points.value| <= LEAF_CAPACITY || depth == MAX_DEPTH)
         else depth < MAX_DEPTH && Family() && forall i: Quarter :: KidAt(i)
    }

    /** The node has no children, and lists its points. */
    ghost predicate IsLeaf()
      reads this
    {
      points.Some? && children == [] && repr == {this} && Lists(points.value, below)
    }

    /** The node has four children, and no node is below two of them. */
    ghost predicate Family()
      reads this, repr
      decreases repr, 0
    {
      this in repr && points.None? && |children| == 4
      && (forall i: Quarter :: children[i] in repr && children[i].repr <= repr - {this})
      && (forall i: Quarter, j: Quarter :: i != j ==> children[i].repr !! children[j].repr)
      && (forall i: Quarter :: children[i].Valid())
    }

    /** The child holds the points of its quarter. */
    ghost predicate KidAt(i: Quarter)
      requires |children| == 4
      reads this, children[i]
    {
      children[i].cell == SubCell(cell, i) && children[i].depth == depth + 1
          && children[i].below == Part(cell, below, i)
    }

    constructor (cell: Cell, depth: nat)
      requires depth <= MAX_DEPTH && cell.size == Side(depth)
      ensures Valid() && fresh(this) && repr == {this} && below == {} && this.cell == cell && this.depth == depth
    {
      this.cell, this.depth := cell, depth;
      count, sx, sy, rep, points, children := 0, 0.0, 0.0, None, Some([]), [];
      below, repr := {}, {this};
    }

    /** Adds a point to the aggregates of this node. */
    method Tally(p: Item)
      requires Aggregates(count, sx, sy, rep, below) && p !in below
      modifies this`count, this`sx, this`sy, this`rep
      ensures Aggregates(count, sx, sy, rep, below + {p})
    {
      AggregatesPlus(count, sx, sy, rep, below, p);
      count, sx, sy, rep := count + 1, sx + p.x, sy + p.y, Taken(rep, p);
    }

    method Insert(p: Item)
      requires Valid() && Within(cell, p) && p !in below
      modifies repr
      ensures Valid() && fresh(repr - old(repr)) && below == old(below) + {p}
      decreases MAX_DEPTH - depth, 1
    {
      hide Aggregates, AllWithin, Side, Lists, Part, QuarterOf, SubCell, Within;
      if points.Some? {
        InsertHere(p);
      } else {
        InsertBelow(p);
      }
    }

    method InsertHere(p: Item)
      requires Valid() && points.Some? && Within(cell, p) && p !in below
      modifies this
      ensures Valid() && fresh(repr - old(repr)) && below == old(below) + {p}
      decreases MAX_DEPTH - depth, 1, 0
    {
      hide Aggregates, AllWithin, Side, Lists, Part, QuarterOf, SubCell, Within;
      WithinPlus(cell, below, p);
      ListsPlus(points.value, below, p);
      Tally(p);
      below := below + {p};
      points := Some(points.value + [p]);
      if |points.value| > LEAF_CAPACITY && depth < MAX_DEPTH {
        Split();
      }
    }

    /** A leaf with too many points hands them to four children. */
    method Split()
      requires depth < MAX_DEPTH && cell.size == Side(depth) && IsLeaf() && AllWithin(cell, below)
               && Aggregates(count, sx, sy, rep, below)
      modifies this
      ensures Valid() && fresh(repr - {this}) && below == old(below)
      decreases MAX_DEPTH - depth, 0, 1
    {
      hide Aggregates, AllWithin, Side, Lists, Part, QuarterOf, SubCell, Within, With;
      var pts := points.value;
      MakeChildren();
      ghost var done: set<Item> := {};
      AllListed(pts, below);
      for j := 0 to |pts|
        invariant Family() && fresh(repr - {this}) && unchanged(this`count, this`sx, this`sy, this`rep, this`below)
        invariant done == Elements(pts[..j]) && forall i: Quarter :: KidOf(i, done)
      {
        var p := pts[j];
        NextListed(pts, below, j);
        ListedWithin(pts, cell, below, j);
        QuarterWithin(cell, p);
        var k := QuarterOf(cell, p.x, p.y);
        ghost var more := done + {p};
        forall i: Quarter ensures Part(cell, more, i) == With(children[i].below, p, i == k) {
          assert KidOf(i, done);
          PartNext(cell, done, p, i);
        }
        assert KidOf(k, done);
        PartIn(cell, done, k);
        label before:
        Descend(k, p);
        forall i: Quarter ensures KidOf(i, more) {
          assert old@before(KidOf(i, done));
        }
        done := more;
      }
      forall i: Quarter ensures KidAt(i) {
        assert KidOf(i, below);
      }
    }

    /** The child holds the points of its quarter among these. */
    ghost predicate KidOf(i: Quarter, s: set<Item>)
      requires |children| == 4
      reads this, children[i]
    {
      children[i].cell == SubCell(cell, i) && children[i].depth == depth + 1 && children[i].below == Part(cell, s, i)
    }

    method MakeChildren()
      requires depth < MAX_DEPTH && cell.size == Side(depth)
      modifies this`points, this`children, this`repr
      ensures Family() && fresh(repr - {this}) && forall i: Quarter :: KidOf(i, {})
    {
      hide *;
      SubSides(cell, depth);
      var c0 := new QNode(SubCell(cell, 0), depth + 1);
      var c1 := new QNode(SubCell(cell, 1), depth + 1);
      var c2 := new QNode(SubCell(cell, 2), depth + 1);
      var c3 := new QNode(SubCell(cell, 3), depth + 1);
      points, children, repr := None, [c0, c1, c2, c3], {this, c0, c1, c2, c3};
      FourAlone();
      NoParts(cell);
      KidsMade();
    }

    lemma KidsMade()
      requires |children| == 4 && forall i: Quarter :: Part(cell, {}, i) == {}
      requires forall i: Quarter ::
                 children[i].cell == SubCell(cell, i) && children[i].depth == depth + 1 && children[i].below == {}
      ensures forall i: Quarter :: KidOf(i, {})
    {
      hide Part, SubCell;
    }

    lemma FourAlone()
      requires points.None? && |children| == 4 && repr == {this, children[0], children[1], children[2], children[3]}
      requires forall i: Quarter :: children[i].Valid() && children[i].repr == {children[i]} && children[i] != this
      requires forall i: Quarter, j: Quarter :: i != j ==> children[i] != children[j]
      ensures Family()
    {
      hide Aggregates, AllWithin, Side, Lists;
    }

    lemma InRepr()
      requires Valid()
      ensures this in repr
    {}

    /** What is known of the children. */
    lemma Kids(p: Item)
      requires Valid() && points.None?
      ensures depth < MAX_DEPTH && Family() && this in repr && |children| == 4
      ensures forall i: Quarter :: children[i].cell == SubCell(cell, i) && children[i].depth == depth + 1
      ensures forall i: Quarter :: children[i].below == Part(cell, below, i) && children[i].below <= below
      ensures forall i: Quarter ::
              Part(cell, below + {p}, i) == With(children[i].below, p, i == QuarterOf(cell, p.x, p.y))
    {
      hide Aggregates, AllWithin, Side, Lists, Part, QuarterOf, SubCell;
      forall i: Quarter ensures children[i].cell == SubCell(cell, i) && children[i].depth == depth + 1
                                && children[i].below == Part(cell, below, i)
                                && Part(cell, below + {p}, i)
                                   == With(children[i].below, p, i == QuarterOf(cell, p.x, p.y)) {
        assert KidAt(i);
        PartPlus(cell, below, p, i);
      }
    }

    method InsertBelow(p: Item)
      requires Valid() && points.None? && Within(cell, p) && p !in below
      modifies repr
      ensures Valid() && fresh(repr - old(repr)) && below == old(below) + {p}
      decreases MAX_DEPTH - depth, 1, 0
    {
      hide Aggregates, AllWithin, Side, Lists, Part, QuarterOf, SubCell, Within, Family, With;
      WithinPlus(cell, below, p);
      Kids(p);
      var k := QuarterOf(cell, p.x, p.y);
      QuarterWithin(cell, p);
      label before:
      Tally(p);
      below := below + {p};
      FamilyKept@before();
      Descend(k, p);
      forall i: Quarter ensures KidAt(i) {}
    }

    /** Hands the point to one child. */
    method Descend(k: Quarter, p: Item)
      requires Family() && Within(children[k].cell, p) && p !in children[k].below && children[k].depth > depth
      modifies this`repr, repr - {this}
      ensures Family() && fresh(repr - old(repr)) && children == old(children)
      ensures forall i: Quarter :: children[i].below == With(old(children[i].below), p, i == k)
      decreases MAX_DEPTH - depth, 0, 0
    {
      hide Aggregates, AllWithin, Side, Lists, Part, QuarterOf, SubCell, Within;
      forall i: Quarter ensures children[i] in children[i].repr {
        children[i].InRepr();
      }
      label before:
      children[k].Insert(p);
      forall i: Quarter | i != k ensures children[i].Valid() && unchanged@before(children[i]) {
        assert old(children[i].repr) !! old(children[k].repr);
      }
      repr := repr + children[k].repr;
    }

    // -------------------------------------------------------------- removing

    /** Drops the point with this id, looked for where it lies, and repairs the aggregates on the way up. */
    method Remove(x: real, y: real, id: Id) returns (found: bool)
      requires Valid() && UniqueIds(below) && LiesAt(below, x, y, id)
      modifies repr
      ensures Valid() && repr == old(repr) && below == Others(old(below), id) && (found <==> HasId(old(below), id))
      decreases MAX_DEPTH - depth, 1
    {
      hide Aggregates, AllWithin, Side, Lists, QuarterOf, Others, LiesAt, HasId, UniqueIds;
      if points.Some? {
        found := RemoveHere(x, y, id);
      } else {
        found := RemoveBelow(x, y, id);
      }
    }

    method RemoveHere(x: real, y: real, id: Id) returns (found: bool)
      requires Valid() && points.Some? && UniqueIds(below) && LiesAt(below, x, y, id)
      modifies this
      ensures Valid() && repr == old(repr) && below == Others(old(below), id) && (found <==> HasId(old(below), id))
      decreases MAX_DEPTH - depth, 1, 0
    {
      hide Aggregates, AllWithin, Side, Lists, QuarterOf, Others, LiesAt, HasId, UniqueIds, IsRep;
      var kept := Kept(points.value, id);
      KeptLists(points.value, below, id);
      NoneToRemove(below, id);
      if |kept| == |points.value| {
        return false;
      }
      OthersWithin(cell, below, id);
      points := Some(kept);
      Untally(x, y, id, old(below));
      below := Others(below, id);
      return true;
    }

    method RemoveBelow(x: real, y: real, id: Id) returns (found: bool)
      requires Valid() && points.None? && UniqueIds(below) && LiesAt(below, x, y, id)
      modifies repr
      ensures Valid() && repr == old(repr) && below == Others(old(below), id) && (found <==> HasId(old(below), id))
      decreases MAX_DEPTH - depth, 1, 0
    {
      hide Aggregates, AllWithin, Side, Lists, QuarterOf, Others, LiesAt, HasId, UniqueIds, IsRep, Family, Part,
      SubCell;
      KidsLess(x, y, id);
      var k := QuarterOf(cell, x, y);
      NoneToRemove(below, id);
      OthersWithin(cell, below, id);
      found := DescendRemove(k, x, y, id);
      forall i: Quarter ensures children[i].below == Part(cell, Others(below, id), i) {}
      label lost:
      if found {
        Untally(x, y, id, below);
      }
      below := Others(below, id);
      FamilyKept@lost();
      forall i: Quarter ensures KidAt(i) {}
    }

    /** The children of a node that lose one point. */
    lemma KidsLess(x: real, y: real, id: Id)
      requires Valid() && points.None? && UniqueIds(below) && LiesAt(below, x, y, id)
      ensures depth < MAX_DEPTH && Family() && this in repr && |children| == 4
      ensures forall i: Quarter :: children[i].cell == SubCell(cell, i) && children[i].depth == depth + 1
      ensures forall i: Quarter ::
                UniqueIds(children[i].below) && LiesAt(children[i].below, x, y, id)
                && Part(cell, Others(below, id), i) == Others(children[i].below, id)
      ensures forall i: Quarter :: i != QuarterOf(cell, x, y) ==> Others(children[i].below, id) == children[i].below
      ensures HasId(children[QuarterOf(cell, x, y)].below, id) <==> HasId(below, id)
    {
      hide Aggregates, AllWithin, Side, Lists, SubCell, QuarterOf;
      forall i: Quarter ensures children[i].cell == SubCell(cell, i) && children[i].depth == depth + 1
                                && children[i].below == Part(cell, below, i) {
        assert KidAt(i);
      }
    }

    method DescendRemove(k: Quarter, x: real, y: real, id: Id) returns (found: bool)
      requires Family() && UniqueIds(children[k].below) && LiesAt(children[k].below, x, y, id)
               && children[k].depth > depth
      modifies repr - {this}
      ensures Family() && forall i: Quarter :: children[i].repr == old(children[i].repr)
      ensures forall i: Quarter :: children[i].below == if i == k then Others(old(children[i].below), id)
              else old(children[i].below)
      ensures found <==> HasId(old(children[k].below), id)
      decreases MAX_DEPTH - depth, 0, 0
    {
      hide Aggregates, AllWithin, Side, Lists, Part, QuarterOf, SubCell, Others, LiesAt, HasId, UniqueIds, IsRep;
      forall i: Quarter ensures children[i] in children[i].repr {
        children[i].InRepr();
      }
      label before:
      found := children[k].Remove(x, y, id);
      forall i: Quarter | i != k ensures children[i].Valid() && unchanged@before(children[i]) {
        assert old(children[i].repr) !! old(children[k].repr);
      }
    }

    /** Takes a point out of the aggregates of a node from whose list or child it is already gone. */
    method Untally(x: real, y: real, id: Id, ghost s: set<Item>)
      requires Aggregates(count, sx, sy, rep, s) && UniqueIds(s) && LiesAt(s, x, y, id) && HasId(s, id)
      requires Holds(Others(s, id))
      modifies this`count, this`sx, this`sy, this`rep
      ensures Aggregates(count, sx, sy, rep, Others(s, id))
    {
      hide Aggregates, AllWithin, Side, Lists, Part, QuarterOf, SubCell, Others, LiesAt, HasId, UniqueIds, IsRep, Holds;
      var gone := TheOne(s, x, y, id);
      CountOf(count, sx, sy, rep, s);
      OneLess(s, gone);
      var after := rep;
      if rep.Some? && rep.value.id == id {
        after := FindRep(count - 1, Others(s, id));
      } else {
        OtherRep(count, sx, sy, rep, s, gone);
      }
      AggregatesMinus(count, sx, sy, rep, s, gone, after);
      count, sx, sy, rep := count - 1, sx - x, sy - y, after;
    }

    /** The list, or the children, have exactly these points. */
    ghost predicate Holds(s: set<Item>)
      reads this, repr
    {
      if points.Some? then Lists(points.value, s)
      else Family() && forall i: Quarter :: children[i].below == Part(cell, s, i)
    }

    /** The point, or the child's representative, with the greatest key. */
    method FindRep(n: int, ghost s: set<Item>) returns (r: Option<Rep>)
      requires Holds(s) && n == |s|
      ensures IsRep(r, s)
    {
      hide Aggregates, AllWithin, Side, QuarterOf, SubCell, IsRep, Part;
      if n == 0 {
        NoRep(s);
        return None;
      }
      if points.Some? {
        ListSize(points.value, s);
        var best := BestOf(points.value);
        ListedRep(points.value, s, best);
        return Some(Rep(best.key, best.id));
      }
      r := None;
      UpToEnds(cell, s);
      NoRep({});
      for i := 0 to 4
        invariant IsRep(r, UpTo(cell, s, i))
      {
        UpToNext(cell, s, i);
        children[i].RepOfBelow();
        var other := if children[i].count != 0 then children[i].rep else None;
        RepUnion(r, UpTo(cell, s, i), other, Part(cell, s, i));
        r := Better(r, other);
      }
    }

    lemma NothingThere(b: Box)
      requires Valid() && (count == 0 || Outside(b, cell))
      ensures forall p :: p in below ==> !InBox(b, p)
    {
      hide IsRep, Total;
      if Outside(b, cell) {
        NothingOutside(b, cell, below);
      }
    }

    lemma Whole(target: nat)
      requires Valid() && count != 0 && target <= depth
      ensures Clustered(Cluster(count, sx, sy, rep), below) && Compact(below, Side(target))
    {
      hide IsRep, Total;
      SideShrinks(target, depth);
      CellCompact(cell, below, Side(target));
    }

    /** A node at the depth of the grid is one of its cells. */
    lemma WholeCell(b: Box)
      requires Valid() && Aligned(cell, depth) && !Outside(b, cell)
      ensures OneCell(below, Pow2(depth)) && AllMeet(b, below, Pow2(depth))
    {
      hide Aggregates, AllWithin, Aligned, Outside, OneCell, AllMeet, Pow2;
      CellIsOne(cell, depth, below);
      CellMeets(b, cell, depth, below);
    }

    lemma RepOfBelow()
      requires Valid()
      ensures IsRep(if count != 0 then rep else None, below)
    {
      hide Total;
    }

    /** The children are none of this node's fields' concern. */
    twostate lemma FamilyKept()
      requires old(Family()) && children == old(children) && repr == old(repr) && points == old(points)
      requires forall o :: o in repr && o != this ==> unchanged(o)
      ensures Family()
    {
    }
  }

  function With(s: set<Item>, p: Item, yes: bool): set<Item> {
    if yes then s + {p} else s
  }

  lemma NextListed(l: seq<Item>, s: set<Item>, j: nat)
    requires Lists(l, s) && j < |l|
    ensures l[j] !in Elements(l[..j]) && Elements(l[..j + 1]) == Elements(l[..j]) + {l[j]}
  {
    assert l == l[..j] + [l[j]] + l[j + 1..];
    assert l[..j + 1] == l[..j] + [l[j]];
    assert multiset(l)[l[j]] <= 1;
    assert multiset(l[..j])[l[j]] == 0;
  }

  lemma ListedWithin(l: seq<Item>, c: Cell, s: set<Item>, j: nat)
    requires Lists(l, s) && AllWithin(c, s) && j < |l|
    ensures l[j] in s && Within(c, l[j])
  {
    hide Within;
    assert l[j] in multiset(l);
  }

  lemma AllListed(l: seq<Item>, s: set<Item>)
    requires Lists(l, s)
    ensures Elements(l[..|l|]) == s
  {
    assert l[..|l|] == l;
    forall p ensures p in l <==> p in s {
      assert p in l <==> p in multiset(l);
      assert p in s <==> p in multiset(s);
    }
  }

  lemma PartNext(c: Cell, s: set<Item>, p: Item, i: Quarter)
    ensures Part(c, s + {p}, i) == With(Part(c, s, i), p, i == QuarterOf(c, p.x, p.y))
  {
    PartPlus(c, s, p, i);
  }

  lemma SubSides(c: Cell, depth: nat)
    requires c.size == Side(depth)
    ensures forall i: Quarter :: SubCell(c, i).size == Side(depth + 1)
  {}

  lemma NoParts(c: Cell)
    ensures forall i: Quarter :: Part(c, {}, i) == {}
  {}

  lemma PartIn(c: Cell, s: set<Item>, i: Quarter)
    ensures Part(c, s, i) <= s
  {}

  lemma WithinPlus(c: Cell, s: set<Item>, p: Item)
    requires AllWithin(c, s) && Within(c, p)
    ensures AllWithin(c, s + {p})
  {
    hide Within;
  }

  lemma ListsPlus(l: seq<Item>, s: set<Item>, p: Item)
    requires Lists(l, s) && p !in s
    ensures Lists(l + [p], s + {p})
  {}

  // ---------------------------------------------------------------- removed points

  function Others(s: set<Item>, id: Id): set<Item> {
    set p | p in s && p.id != id
  }

  /** A point with this id, if there, is where it is looked for. */
  ghost predicate LiesAt(s: set<Item>, x: real, y: real, id: Id) {
    forall p :: p in s && p.id == id ==> p.x == x && p.y == y
  }

  function Kept(l: seq<Item>, id: Id): seq<Item> {
    if l == [] then [] else (if l[0].id != id then [l[0]] else []) + Kept(l[1..], id)
  }

  lemma {:induction false} KeptCounts(l: seq<Item>, id: Id)
    ensures forall p :: multiset(Kept(l, id))[p] == if p.id != id then multiset(l)[p] else 0
    ensures |Kept(l, id)| <= |l| && (|Kept(l, id)| == |l| <==> forall p :: p in l ==> p.id != id)
  {
    if l != [] {
      KeptCounts(l[1..], id);
      assert l == [l[0]] + l[1..];
      if l[0].id == id {
        assert [] + Kept(l[1..], id) == Kept(l[1..], id);
      }
    }
  }

  lemma KeptLists(l: seq<Item>, s: set<Item>, id: Id)
    requires Lists(l, s)
    ensures Lists(Kept(l, id), Others(s, id)) && |Kept(l, id)| <= |l| && (|Kept(l, id)| == |l| <==> !HasId(s, id))
  {
    KeptCounts(l, id);
    forall p: Item ensures multiset(Others(s, id))[p] == if p.id != id then multiset(s)[p] else 0 {}
    AllListed(l, s);
    assert l[..|l|] == l;
  }

  lemma NoneToRemove(s: set<Item>, id: Id)
    ensures !HasId(s, id) ==> Others(s, id) == s
  {
    assert !HasId(s, id) ==> forall p :: p in s ==> p.id != id;
  }

  lemma OthersWithin(c: Cell, s: set<Item>, id: Id)
    requires AllWithin(c, s)
    ensures AllWithin(c, Others(s, id))
  {
    hide Within;
  }

  lemma TheOne(s: set<Item>, x: real, y: real, id: Id) returns (p: Item)
    requires UniqueIds(s) && LiesAt(s, x, y, id) && HasId(s, id)
    ensures p in s && p.id == id && p.x == x && p.y == y && Others(s, id) == s - {p}
  {
    p :| p in s && p.id == id;
  }

  lemma CountOf(count: int, sx: real, sy: real, rep: Option<Rep>, s: set<Item>)
    requires Aggregates(count, sx, sy, rep, s)
    ensures count == |s|
  {}

  lemma OneLess(s: set<Item>, p: Item)
    requires p in s
    ensures |s - {p}| == |s| - 1
  {}

  lemma OtherRep(count: int, sx: real, sy: real, rep: Option<Rep>, s: set<Item>, p: Item)
    requires Aggregates(count, sx, sy, rep, s) && UniqueIds(s) && p in s && (rep.Some? ==> rep.value.id != p.id)
    ensures IsRep(rep, s - {p})
  {
    hide Total;
    RepStays(rep, s, p);
  }

  // ---------------------------------------------------------------- representatives

  /** The first of the points with the greatest key. */
  function BestOf(l: seq<Item>): (p: Item)
    requires l != []
    ensures p in l && forall q :: q in l ==> q.key <= p.key
  {
    if |l| == 1 then l[0]
    else
      var best := BestOf(l[..|l| - 1]);
      assert l == l[..|l| - 1] + [l[|l| - 1]];
      if l[|l| - 1].key > best.key then l[|l| - 1] else best
  }

  /** The greater of two, by key and then by id. */
  function Better(a: Option<Rep>, b: Option<Rep>): Option<Rep> {
    if a.None? then b
    else if b.None? then a
    else if b.value.key > a.value.key || (b.value.key == a.value.key && b.value.id > a.value.id) then b
    else a
  }

  lemma NoRep(s: set<Item>)
    requires |s| == 0
    ensures IsRep(None, s)
  {}

  lemma ListSize(l: seq<Item>, s: set<Item>)
    requires Lists(l, s)
    ensures |l| == |s|
  {
    assert |multiset(l)| == |l| && |multiset(s)| == |s|;
  }

  lemma ListedRep(l: seq<Item>, s: set<Item>, p: Item)
    requires Lists(l, s) && p in l && forall q :: q in l ==> q.key <= p.key
    ensures IsRep(Some(Rep(p.key, p.id)), s)
  {
    AllListed(l, s);
    assert l[..|l|] == l;
    assert p in s;
  }

  lemma RepUnion(a: Option<Rep>, s: set<Item>, b: Option<Rep>, t: set<Item>)
    requires IsRep(a, s) && IsRep(b, t)
    ensures IsRep(Better(a, b), s + t)
  {
    if s == {} {
      assert s + t == t;
    } else if t == {} {
      assert s + t == s;
    } else {
      var p :| p in s && p.id == a.value.id && p.key == a.value.key;
      var q :| q in t && q.id == b.value.id && q.key == b.value.key;
      assert p in s + t && q in s + t;
    }
  }

  /** The points of the first quarters. */
  ghost function UpTo(c: Cell, s: set<Item>, j: nat): set<Item> {
    set p | p in s && QuarterOf(c, p.x, p.y) < j
  }

  lemma UpToEnds(c: Cell, s: set<Item>)
    ensures UpTo(c, s, 0) == {} && UpTo(c, s, 4) == s
  {
    hide QuarterOf;
  }

  lemma UpToNext(c: Cell, s: set<Item>, j: Quarter)
    ensures UpTo(c, s, j + 1) == UpTo(c, s, j) + Part(c, s, j)
  {
    hide QuarterOf;
  }

  // ---------------------------------------------------------------- clusters

  datatype Cluster = Cluster(count: int, sx: real, sy: real, rep: Option<Rep>)
  lemma NothingOutside(b: Box, c: Cell, s: set<Item>)
    requires AllWithin(c, s) && Outside(b, c)
    ensures forall p :: p in s ==> !InBox(b, p)
  {}

  ghost predicate Clustered(c: Cluster, s: set<Item>) {
    s != {} && Aggregates(c.count, c.sx, c.sy, c.rep, s)
  }

  function SumCounts(out: seq<Cluster>): int {
    if out == [] then 0 else SumCounts(out[..|out| - 1]) + out[|out| - 1].count
  }

  /** The parts are disjoint and make up the covered points. */
  ghost predicate Partition(parts: seq<set<Item>>, covered: set<Item>) {
    (forall i :: 0 <= i < |parts| ==> parts[i] <= covered)
    && (forall i, j :: 0 <= i < j < |parts| ==> parts[i] !! parts[j])
    && (forall p :: p in covered ==> InSome(parts, p))
  }

  ghost predicate AllClustered(out: seq<Cluster>, parts: seq<set<Item>>) {
    |out| == |parts| && forall i :: 0 <= i < |out| ==> Clustered(out[i], parts[i])
  }

  /** Each cluster aggregates its own part of the covered points, and the counts add up. */
  ghost predicate Parted(out: seq<Cluster>, parts: seq<set<Item>>, covered: set<Item>) {
    AllClustered(out, parts) && Partition(parts, covered) && SumCounts(out) == |covered|
  }

  ghost predicate AllCompact(parts: seq<set<Item>>, side: real) {
    forall i :: 0 <= i < |parts| ==> Compact(parts[i], side)
  }

  lemma CompactMore(parts: seq<set<Item>>, s: set<Item>, side: real)
    requires AllCompact(parts, side) && Compact(s, side)
    ensures AllCompact(parts + [s], side)
  {
    hide Compact;
  }

  ghost predicate InSome(parts: seq<set<Item>>, p: Item) {
    exists i :: 0 <= i < |parts| && p in parts[i]
  }

  lemma InSomeMore(parts: seq<set<Item>>, s: set<Item>, p: Item)
    requires InSome(parts, p) || p in s
    ensures InSome(parts + [s], p)
  {
    if p in s {
      assert p in (parts + [s])[|parts|];
    } else {
      var i :| 0 <= i < |parts| && p in parts[i];
      assert p in (parts + [s])[i];
    }
  }

  lemma PartitionMore(parts: seq<set<Item>>, covered: set<Item>, s: set<Item>)
    requires Partition(parts, covered) && s !! covered
    ensures Partition(parts + [s], covered + s)
  {
    forall p | p in covered + s ensures InSome(parts + [s], p) {
      InSomeMore(parts, s, p);
    }
    hide InSome;
    forall i | 0 <= i < |parts| ensures parts[i] !! s && parts[i] <= covered + s {
      assert parts[i] <= covered;
    }
  }

  lemma PartedMore(out: seq<Cluster>, parts: seq<set<Item>>, covered: set<Item>, c: Cluster, s: set<Item>)
    requires Parted(out, parts, covered) && Clustered(c, s) && s !! covered
    ensures Parted(out + [c], parts + [s], covered + s)
  {
    hide AllClustered, Partition, SumCounts, Clustered;
    ClusterSize(c, s);
    PartitionMore(parts, covered, s);
    ClusteredMore(out, parts, c, s);
    SumMore(out, c);
    Disjoint(covered, s);
  }

  lemma ClusteredMore(out: seq<Cluster>, parts: seq<set<Item>>, c: Cluster, s: set<Item>)
    requires AllClustered(out, parts) && Clustered(c, s)
    ensures AllClustered(out + [c], parts + [s])
  {
    hide Clustered;
  }

  lemma SumMore(out: seq<Cluster>, c: Cluster)
    ensures SumCounts(out + [c]) == SumCounts(out) + c.count
  {
    assert (out + [c])[..|out|] == out;
  }

  lemma Disjoint(s: set<Item>, t: set<Item>)
    requires s !! t
    ensures |s + t| == |s| + |t|
  {}

  lemma ClusterSize(c: Cluster, s: set<Item>)
    requires Clustered(c, s)
    ensures c.count == |s|
  {}

  /** The cells aggregate their shares of these points. */
  ghost predicate Bucketed(cells: map<GridCell, Cluster>, scale: nat, s: set<Item>) {
    (forall g :: g in cells ==> Clustered(cells[g], InCell(s, scale, g)))
    && forall p :: p in s ==> GridOf(p, scale) in cells
  }

  function Tallied(cells: map<GridCell, Cluster>, g: GridCell, p: Item): map<GridCell, Cluster> {
    var c := if g in cells then cells[g] else Cluster(0, 0.0, 0.0, None);
    cells[g := Cluster(c.count + 1, c.sx + p.x, c.sy + p.y, Taken(c.rep, p))]
  }

  lemma BucketedMore(cells: map<GridCell, Cluster>, scale: nat, s: set<Item>, p: Item)
    requires Bucketed(cells, scale, s) && p !in s
    ensures Bucketed(Tallied(cells, GridOf(p, scale), p), scale, s + {p})
  {
    hide Aggregates, GridOf, Taken;
    var g := GridOf(p, scale);
    var c := if g in cells then cells[g] else Cluster(0, 0.0, 0.0, None);
    if g !in cells {
      assert InCell(s, scale, g) == {};
      NothingTallied();
    }
    AggregatesPlus(c.count, c.sx, c.sy, c.rep, InCell(s, scale, g), p);
    assert InCell(s + {p}, scale, g) == InCell(s, scale, g) + {p};
    forall h | h != g ensures InCell(s + {p}, scale, h) == InCell(s, scale, h) {}
  }

  lemma NothingTallied()
    ensures Aggregates(0, 0.0, 0.0, None, {})
  {}

  // ---------------------------------------------------------------- the nodes still to be visited

  /** The nodes of the stack are valid and apart, no deeper than target and on the grid, and no two of them share a
      cell of the target grid; pending are their points and todo their nodes. */
  ghost predicate Stacked(stack: seq<QNode>, pending: set<Item>, todo: set<QNode>, target: nat)
    reads todo
    decreases |stack|
  {
    if stack == [] then pending == {} && todo == {}
    else
      var n := stack[|stack| - 1];
      n in todo && n.repr <= todo && n.Valid() && n.below <= pending && n.depth <= target && Aligned(n.cell, n.depth)
      && Unlike(n.below, pending - n.below, Pow2(target))
      && Stacked(stack[..|stack| - 1], pending - n.below, todo - n.repr, target)
  }

  lemma Pushed(stack: seq<QNode>, pending: set<Item>, todo: set<QNode>, target: nat, n: QNode)
    requires Stacked(stack, pending, todo, target) && n.Valid() && n.below !! pending && n.repr !! todo
    requires n.depth <= target && Aligned(n.cell, n.depth) && Unlike(n.below, pending, Pow2(target))
    ensures Stacked(stack + [n], pending + n.below, todo + n.repr, target)
  {
    hide Aggregates, AllWithin, Lists, Unlike, Aligned, Pow2;
    n.InRepr();
    assert (stack + [n])[..|stack|] == stack;
    assert pending + n.below - n.below == pending && todo + n.repr - n.repr == todo;
  }

  /** A child of a node above the target depth: it shares no cell with the children before it. */
  lemma KidApart(n: QNode, target: nat, i: Quarter)
    requires n.Valid() && n.points.None? && n.depth < target && Aligned(n.cell, n.depth) && |n.children| == 4
    ensures n.children[i].Valid() && n.children[i].depth <= target
            && Aligned(n.children[i].cell, n.children[i].depth)
    ensures n.children[i].below == Part(n.cell, n.below, i) && n.children[i].repr <= n.repr - {n}
    ensures Unlike(n.children[i].below, UpTo(n.cell, n.below, i), Pow2(target))
    ensures forall j: Quarter :: j != i ==> n.children[j].repr !! n.children[i].repr
  {
    hide Aggregates, AllWithin, Lists, SubCell, Aligned, Pow2;
    assert n.KidAt(i);
    SubAligned(n.cell, n.depth, i);
    hide QuarterOf, GridOf;
    forall p, q | p in Part(n.cell, n.below, i) && q in UpTo(n.cell, n.below, i)
      ensures GridOf(p, Pow2(target)) != GridOf(q, Pow2(target))
    {
      QuartersUnlike(n.cell, n.depth, n.below, i, QuarterOf(n.cell, q.x, q.y), target);
      assert q in Part(n.cell, n.below, QuarterOf(n.cell, q.x, q.y));
    }
  }

  /** The first children on top of the stack. */
  lemma {:induction false} PushedFirst(stack: seq<QNode>, pending: set<Item>, todo: set<QNode>, target: nat, n: QNode,
                                       i: nat)
    returns (more: set<QNode>)
    requires Stacked(stack, pending, todo, target) && n.Valid() && n.points.None? && n.below !! pending
             && n.repr !! todo && i <= 4
    requires n.depth < target && Aligned(n.cell, n.depth) && Unlike(n.below, pending, Pow2(target))
    ensures |n.children| == 4
    ensures Stacked(stack + n.children[..i], pending + UpTo(n.cell, n.below, i), more, target)
    ensures more <= todo + n.repr - {n} && forall j: Quarter :: j >= i ==> n.children[j].repr !! more
  {
    KidsOf(n);
    hide *;
    if i == 0 {
      more := todo;
      UpToEnds(n.cell, n.below);
      assert stack + n.children[..0] == stack && pending + {} == pending;
    } else {
      more := PushedFirst(stack, pending, todo, target, n, i - 1);
      PushedNext(stack, pending, more, target, n, i - 1);
      more := more + n.children[i - 1].repr;
    }
  }

  lemma PushedNext(stack: seq<QNode>, pending: set<Item>, more: set<QNode>, target: nat, n: QNode, i: Quarter)
    requires n.Valid() && n.points.None? && n.below !! pending && |n.children| == 4
    requires n.depth < target && Aligned(n.cell, n.depth) && Unlike(n.below, pending, Pow2(target))
    requires Stacked(stack + n.children[..i], pending + UpTo(n.cell, n.below, i), more, target)
    requires n.children[i].repr !! more
    ensures Stacked(stack + n.children[..i + 1], pending + UpTo(n.cell, n.below, i + 1), more + n.children[i].repr,
                    target)
  {
    hide *;
    var c, before := n.children[i], UpTo(n.cell, n.below, i);
    KidApart(n, target, i);
    UpToNext(n.cell, n.below, i);
    PartBefore(n.cell, n.below, i);
    UnlikeJoin(n.below, c.below, pending, before, Pow2(target));
    assert c.below !! pending + before;
    Pushed(stack + n.children[..i], pending + before, more, target, c);
    assert stack + n.children[..i] + [c] == stack + n.children[..i + 1];
    assert pending + before + c.below == pending + UpTo(n.cell, n.below, i + 1);
  }

  lemma KidsOf(n: QNode)
    requires n.Valid() && n.points.None?
    ensures |n.children| == 4 && n in n.repr
    ensures forall i: Quarter :: n.children[i].repr <= n.repr - {n}
    ensures forall i: Quarter, j: Quarter :: i != j ==> n.children[i].repr !! n.children[j].repr
  {
    hide Aggregates, AllWithin, Lists;
  }

  lemma PartBefore(c: Cell, s: set<Item>, i: Quarter)
    ensures Part(c, s, i) <= s && Part(c, s, i) !! UpTo(c, s, i)
    ensures UpTo(c, s, i) <= s
  {
    hide QuarterOf;
  }

  lemma PushedAll(stack: seq<QNode>, pending: set<Item>, todo: set<QNode>, target: nat, n: QNode)
    requires Stacked(stack, pending, todo, target) && n.Valid() && n.points.None? && n.below !! pending
             && n.repr !! todo
    requires n.depth < target && Aligned(n.cell, n.depth) && Unlike(n.below, pending, Pow2(target))
    ensures exists more :: Stacked(stack + n.children, pending + n.below, more, target) && more <= todo + n.repr - {n}
  {
    hide *;
    var more := PushedFirst(stack, pending, todo, target, n, 4);
    UpToEnds(n.cell, n.below);
    assert n.children[..4] == n.children;
  }

  // ---------------------------------------------------------------- the tree

  const UNIT: Cell := Cell(0.0, 0.0, 1.0)

  function Target(zoom: int): nat {
    var z := if zoom < 0 then 2 else zoom + 2;
    if z < MAX_DEPTH then z else MAX_DEPTH
  }

  lemma {:induction false} Squared(d: nat)
    ensures Pow2(d) * Pow2(d) == Pow2(2 * d)
  {
    if d > 0 {
      Squared(d - 1);
      assert Pow2(2 * d) == 2 * Pow2(2 * d - 1) == 4 * Pow2(2 * (d - 1));
      FourTimes(Pow2(d - 1));
    }
  }

  lemma FourTimes(a: nat)
    ensures (2 * a) * (2 * a) == 4 * (a * a)
  {}

  /** On a map of tiles of 256 pixels, of which a side of the world has 2^zoom, a cell is 64 pixels wide; the world
      as a whole is treated as four cells wide, and below the last depth of the tree cells do not shrink any more. */
  lemma CellPixels(zoom: int)
    ensures 0 <= zoom <= 22 ==> Side(Target(zoom)) * Pow2(zoom) as real * 256.0 == 64.0
    ensures zoom < 0 ==> Target(zoom) == Target(0)
    ensures zoom > 22 ==> Target(zoom) == Target(22) == MAX_DEPTH
  {
    if 0 <= zoom <= 22 {
      ScaleSide(zoom);
      QuarterSide(zoom);
      hide Side, Pow2, Tiles;
      Pixels(Pow2(zoom), Side(zoom));
    }
  }

  lemma QuarterSide(d: nat)
    ensures Side(d + 2) == Side(d) / 4.0
  {
    assert Side(d + 2) == Side(d + 1) / 2.0;
  }

  lemma Pixels(scale: nat, side: real)
    requires Tiles(scale, side)
    ensures side / 4.0 * scale as real * 256.0 == 64.0
  {
    assert side / 4.0 * scale as real == (scale as real * side) / 4.0;
  }

  /** What a walk over the nodes has covered, and what is still to come, account for every point of the box. */
  ghost predicate Walking(all: set<Item>, b: Box, covered: set<Item>, bucketed: set<Item>, pending: set<Item>) {
    covered !! bucketed && covered !! pending && bucketed !! pending && covered + bucketed + pending <= all
    && forall p :: p in all && InBox(b, p) ==> p in covered + bucketed + pending
  }

  lemma WalkOn(all: set<Item>, b: Box, covered: set<Item>, bucketed: set<Item>, pending: set<Item>, s: set<Item>,
               t: set<Item>)
    requires Walking(all, b, covered, bucketed, pending) && s <= pending && t <= s
    ensures s !! covered && s !! bucketed
    ensures (forall p :: p in s - t ==> !InBox(b, p)) ==>
              Walking(all, b, covered + t, bucketed, pending - s) && Walking(all, b, covered, bucketed + t, pending - s)
  {
    hide InBox;
  }

  /** A walk over the nodes: what it has put out and what it has bucketed. */
  ghost predicate Underway(all: set<Item>, b: Box, target: nat, out: seq<Cluster>, parts: seq<set<Item>>,
                           covered: set<Item>, cells: map<GridCell, Cluster>, bucketed: set<Item>, pending: set<Item>)
  {
    Walking(all, b, covered, bucketed, pending) && Parted(out, parts, covered)
    && Bucketed(cells, Pow2(target), bucketed) && AllCompact(parts, Side(target)) && ByCell(parts, Pow2(target))
    && Gridded(covered, bucketed, pending, Pow2(target)) && AllMeet(b, covered + bucketed, Pow2(target))
  }

  lemma UnderwayParts(all: set<Item>, b: Box, target: nat, out: seq<Cluster>, parts: seq<set<Item>>, covered: set<Item>,
                      cells: map<GridCell, Cluster>, bucketed: set<Item>, pending: set<Item>)
    requires Underway(all, b, target, out, parts, covered, cells, bucketed, pending)
    ensures Walking(all, b, covered, bucketed, pending) && Parted(out, parts, covered)
    ensures Bucketed(cells, Pow2(target), bucketed) && AllCompact(parts, Side(target)) && ByCell(parts, Pow2(target))
    ensures Unlike(covered, bucketed, Pow2(target)) && AllMeet(b, covered + bucketed, Pow2(target))
  {
    hide Walking, Parted, Bucketed, AllCompact, ByCell, AllMeet, Unlike, Pow2, Side;
  }

  lemma BucketedApart(all: set<Item>, b: Box, covered: set<Item>, bucketed: set<Item>, pending: set<Item>, s: set<Item>)
    requires Walking(all, b, covered, bucketed, pending) && s <= pending
    ensures s !! bucketed
  {
    hide InBox;
  }

  lemma Skipped(all: set<Item>, b: Box, target: nat, out: seq<Cluster>, parts: seq<set<Item>>, covered: set<Item>,
                cells: map<GridCell, Cluster>, bucketed: set<Item>, pending: set<Item>, s: set<Item>)
    requires Underway(all, b, target, out, parts, covered, cells, bucketed, pending)
    requires s <= pending && Unlike(s, pending - s, Pow2(target)) && forall p :: p in s ==> !InBox(b, p)
    ensures Underway(all, b, target, out, parts, covered, cells, bucketed, pending - s)
  {
    hide Walking, Parted, Bucketed, AllCompact, ByCell, Gridded, AllMeet, Unlike, Pow2, Side, InBox;
    WalkOn(all, b, covered, bucketed, pending, s, {});
    GridOn(covered, bucketed, pending, s, {}, Pow2(target));
    assert covered + {} == covered;
  }

  lemma Emitted(all: set<Item>, b: Box, target: nat, out: seq<Cluster>, parts: seq<set<Item>>, covered: set<Item>,
                cells: map<GridCell, Cluster>, bucketed: set<Item>, pending: set<Item>, s: set<Item>, c: Cluster)
    requires Underway(all, b, target, out, parts, covered, cells, bucketed, pending)
    requires s <= pending && Unlike(s, pending - s, Pow2(target)) && Clustered(c, s) && Compact(s, Side(target))
    requires OneCell(s, Pow2(target)) && AllMeet(b, s, Pow2(target))
    ensures Underway(all, b, target, out + [c], parts + [s], covered + s, cells, bucketed, pending - s)
  {
    hide Walking, Parted, Bucketed, AllCompact, ByCell, Gridded, AllMeet, Unlike, Pow2, Side, InBox, Clustered,
    Compact, OneCell;
    WalkOn(all, b, covered, bucketed, pending, s, s);
    GridOn(covered, bucketed, pending, s, s, Pow2(target));
    PartedParts(out, parts, covered);
    ByCellMore(parts, covered, s, Pow2(target));
    MeetMore(b, covered + bucketed, s, Pow2(target));
    assert covered + bucketed + s == covered + s + bucketed;
    CompactMore(parts, s, Side(target));
    PartedMore(out, parts, covered, c, s);
  }

  lemma Sorted(all: set<Item>, b: Box, target: nat, out: seq<Cluster>, parts: seq<set<Item>>, covered: set<Item>,
               cells: map<GridCell, Cluster>, bucketed: set<Item>, pending: set<Item>, s: set<Item>,
               after: map<GridCell, Cluster>, more: set<Item>)
    requires Underway(all, b, target, out, parts, covered, cells, bucketed, pending)
    requires s <= pending && Unlike(s, pending - s, Pow2(target)) && more <= s
    requires Bucketed(after, Pow2(target), bucketed + more) && AllMeet(b, more, Pow2(target))
    requires forall p :: p in s - more ==> !InBox(b, p)
    ensures Underway(all, b, target, out, parts, covered, after, bucketed + more, pending - s)
  {
    hide Walking, Parted, Bucketed, AllCompact, ByCell, Gridded, AllMeet, Unlike, Pow2, Side, InBox;
    WalkOn(all, b, covered, bucketed, pending, s, more);
    GridOn(covered, bucketed, pending, s, more, Pow2(target));
    MeetMore(b, covered + bucketed, more, Pow2(target));
    assert covered + bucketed + more == covered + (bucketed + more);
  }

  lemma StartWalk(root: QNode, b: Box, target: nat)
    requires root.Valid() && root.cell == UNIT
    ensures Stacked([root], root.below, root.repr, target)
    ensures Underway(root.below, b, target, [], [], {}, map[], {}, root.below)
  {
    RootAligned(root);
    hide Aggregates, AllWithin, Lists, Aligned, Pow2, Side;
    assert Stacked([], {}, {}, target);
    Pushed([], {}, {}, target, root);
    assert [] + [root] == [root] && {} + root.below == root.below && {} + root.repr == root.repr;
  }

  lemma RootAligned(root: QNode)
    requires root.Valid() && root.cell == UNIT
    ensures root.depth == 0 && Aligned(root.cell, root.depth)
  {
    hide Aggregates, AllWithin, Lists, Aligned;
    UnitAligned(root.cell, root.depth);
  }

  /** No cell of the grid has points of two of these. */
  ghost predicate Gridded(covered: set<Item>, bucketed: set<Item>, pending: set<Item>, scale: nat) {
    Unlike(covered, bucketed, scale) && Unlike(covered, pending, scale) && Unlike(bucketed, pending, scale)
  }

  /** Of the points of a node on top of the stack, some are covered or bucketed. */
  lemma GridOn(covered: set<Item>, bucketed: set<Item>, pending: set<Item>, s: set<Item>, t: set<Item>, scale: nat)
    requires Gridded(covered, bucketed, pending, scale) && t <= s <= pending && Unlike(s, pending - s, scale)
    ensures Gridded(covered + t, bucketed, pending - s, scale) && Gridded(covered, bucketed + t, pending - s, scale)
    ensures Gridded(covered, bucketed, pending - s, scale) && Unlike(s, covered, scale)
    ensures Unlike(t, pending - s, scale)
  {
    hide GridOf;
  }

  lemma NothingParted(side: real, b: Box, scale: nat)
    ensures Parted([], [], {}) && AllCompact([], side) && ByCell([], scale) && AllMeet(b, {}, scale)
  {}

  lemma StackTop(stack: seq<QNode>, pending: set<Item>, todo: set<QNode>, target: nat)
    requires Stacked(stack, pending, todo, target) && stack != []
    ensures var n := stack[|stack| - 1];
            n in todo && n.repr <= todo && n.Valid() && n in n.repr && n.below <= pending
            && n.depth <= target && Aligned(n.cell, n.depth) && Unlike(n.below, pending - n.below, Pow2(target))
            && Stacked(stack[..|stack| - 1], pending - n.below, todo - n.repr, target)
  {
    hide Aggregates, AllWithin, Lists, Aligned, Unlike, Pow2;
    stack[|stack| - 1].InRepr();
  }

  lemma StackDone(stack: seq<QNode>, pending: set<Item>, todo: set<QNode>, target: nat)
    requires Stacked(stack, pending, todo, target) && stack == []
    ensures pending == {}
  {}

  lemma WalkDone(all: set<Item>, b: Box, covered: set<Item>, bucketed: set<Item>)
    requires Walking(all, b, covered, bucketed, {})
    ensures covered !! bucketed && covered + bucketed <= all
    ensures forall p :: p in all && InBox(b, p) ==> p in covered + bucketed
    ensures (forall p :: p in all ==> InBox(b, p)) ==> covered + bucketed == all
  {
    hide InBox;
  }

  lemma PartedSum(out: seq<Cluster>, parts: seq<set<Item>>, covered: set<Item>)
    requires Parted(out, parts, covered)
    ensures SumCounts(out) == |covered|
  {}

  lemma PartedParts(out: seq<Cluster>, parts: seq<set<Item>>, covered: set<Item>)
    requires Parted(out, parts, covered)
    ensures |out| == |parts| && forall i :: 0 <= i < |parts| ==> parts[i] <= covered && parts[i] != {}
  {
    hide Aggregates, InSome;
    assert forall i :: 0 <= i < |out| ==> Clustered(out[i], parts[i]);
  }

  /** The points of a shallow leaf that lie in the viewport, by grid cell. */
  method Bucket(n: QNode, b: Box, scale: nat, cells0: map<GridCell, Cluster>, ghost bucketed: set<Item>)
    returns (cells: map<GridCell, Cluster>, ghost more: set<Item>)
    requires n.Valid() && n.points.Some? && n.below !! bucketed && Bucketed(cells0, scale, bucketed)
    ensures more <= n.below && Bucketed(cells, scale, bucketed + more) && AllMeet(b, more, scale)
    ensures forall p :: p in n.below - more ==> !InBox(b, p)
  {
    hide Aggregates, AllWithin, Lists, InBox, Bucketed, GridOf, Tallied, Meets;
    var l := n.points.value;
    cells, more := cells0, {};
    assert bucketed + more == bucketed;
    AllListed(l, n.below);
    for j := 0 to |l|
      invariant more <= Elements(l[..j]) <= n.below && Bucketed(cells, scale, bucketed + more)
      invariant forall p :: p in Elements(l[..j]) - more ==> !InBox(b, p)
      invariant AllMeet(b, more, scale)
    {
      NextListed(l, n.below, j);
      ListedIn(l, n.below, j);
      if InBox(b, l[j]) {
        InBoxMeets(b, l[j], scale);
        BucketedMore(cells, scale, bucketed + more, l[j]);
        assert bucketed + more + {l[j]} == bucketed + (more + {l[j]});
        cells, more := Tallied(cells, GridOf(l[j], scale), l[j]), more + {l[j]};
      }
    }
  }

  lemma ListedIn(l: seq<Item>, s: set<Item>, j: nat)
    requires Lists(l, s) && j < |l|
    ensures l[j] in s
  {
    assert l[j] in multiset(l);
  }

  /** The points of the given cells. */
  ghost function InCells(s: set<Item>, scale: nat, keys: set<GridCell>): set<Item> {
    set p | p in s && GridOf(p, scale) in keys
  }

  method EmitCells(cells: map<GridCell, Cluster>, depth: nat, ghost bucketed: set<Item>, out0: seq<Cluster>,
                   ghost parts0: seq<set<Item>>, ghost covered: set<Item>)
    returns (out: seq<Cluster>, ghost parts: seq<set<Item>>)
    requires Bucketed(cells, Pow2(depth), bucketed) && Parted(out0, parts0, covered) && covered !! bucketed
    requires AllCompact(parts0, Side(depth)) && ByCell(parts0, Pow2(depth)) && Unlike(covered, bucketed, Pow2(depth))
    ensures Parted(out, parts, covered + bucketed) && AllCompact(parts, Side(depth)) && ByCell(parts, Pow2(depth))
  {
    hide Clustered, Parted, GridOf, AllCompact, Compact, Side, Pow2, ByCell;
    ghost var scale := Pow2(depth);
    var left := cells.Keys;
    out, parts := out0, parts0;
    ghost var done: set<Item> := {};
    assert covered + done == covered;
    while left != {}
      invariant left <= cells.Keys && done == InCells(bucketed, scale, cells.Keys - left)
      invariant Parted(out, parts, covered + done) && AllCompact(parts, Side(depth)) && ByCell(parts, scale)
      decreases |left|
    {
      var g :| g in left;
      ghost var s := InCell(bucketed, scale, g);
      PartedMore(out, parts, covered + done, cells[g], s);
      GridCompact(bucketed, depth, g);
      PartedParts(out, parts, covered + done);
      ByCellMore(parts, covered + done, s, scale);
      CompactMore(parts, s, Side(depth));
      assert covered + done + s == covered + (done + s);
      out, parts, done, left := out + [cells[g]], parts + [s], done + s, left - {g};
    }
    assert done == bucketed;
  }

  class QuadTree {
    var root: QNode
    var size: int

    ghost predicate Valid()
      reads this, root, root.repr
    {
      root.Valid() && root.cell == UNIT && UniqueIds(root.below) && size == |root.below|
    }

    constructor ()
      ensures Valid() && fresh(root) && fresh(root.repr) && root.below == {}
    {
      root := new QNode(UNIT, 0);
      size := 0;
    }

    method Insert(p: Item)
      requires Valid() && Within(UNIT, p) && !HasId(root.below, p.id)
      modifies this, root.repr
      ensures Valid() && root == old(root) && fresh(root.repr - old(root.repr)) && root.below == old(root.below) + {p}
    {
      hide Within;
      root.Insert(p);
      size := size + 1;
    }

    method Remove(x: real, y: real, id: Id) returns (found: bool)
      requires Valid() && LiesAt(root.below, x, y, id)
      modifies this, root.repr
      ensures Valid() && root == old(root) && root.repr == old(root.repr)
      ensures root.below == Others(old(root.below), id) && (found <==> HasId(old(root.below), id))
    {
      ghost var before := root.below;
      found := root.Remove(x, y, id);
      NoneToRemove(before, id);
      if found {
        var gone := TheOne(before, x, y, id);
        OneLess(before, gone);
        size := size - 1;
      }
    }

    /** The clusters of a viewport: they aggregate disjoint parts of the points, no point of the viewport is left out,
        and where all points lie in the viewport the counts add up to the size of the tree. */
    method Clusters(b: Box, zoom: int)
      returns (out: seq<Cluster>, ghost parts: seq<set<Item>>, ghost covered: set<Item>)
      requires Valid()
      ensures Parted(out, parts, covered) && covered <= root.below
      ensures forall p :: p in root.below && InBox(b, p) ==> p in covered
      ensures (forall p :: p in root.below ==> InBox(b, p)) ==> SumCounts(out) == size
      ensures AllCompact(parts, Side(Target(zoom))) && ByCell(parts, Pow2(Target(zoom)))
      ensures AllMeet(b, covered, Pow2(Target(zoom))) && |out| <= Pow2(2 * Target(zoom))
    {
      hide *;
      RootParts();
      var target := Target(zoom);
      var stack, cells: map<GridCell, Cluster> := [root], map[];
      ghost var bucketed: set<Item>, pending, todo := {}, root.below, root.repr;
      out, parts, covered := [], [], {};
      StartWalk(root, b, target);
      while stack != []
        invariant Stacked(stack, pending, todo, target)
        invariant Underway(root.below, b, target, out, parts, covered, cells, bucketed, pending)
        decreases todo
      {
        StackTop(stack, pending, todo, target);
        var n := stack[|stack| - 1];
        stack := stack[..|stack| - 1];
        ghost var rest := todo - n.repr;
        if n.count == 0 || Outside(b, n.cell) {
          n.NothingThere(b);
          Skipped(root.below, b, target, out, parts, covered, cells, bucketed, pending, n.below);
          pending, todo := pending - n.below, rest;
        } else if n.depth >= target {
          n.Whole(target);
          n.WholeCell(b);
          Emitted(root.below, b, target, out, parts, covered, cells, bucketed, pending, n.below,
                  Cluster(n.count, n.sx, n.sy, n.rep));
          out, parts, covered := out + [Cluster(n.count, n.sx, n.sy, n.rep)], parts + [n.below], covered + n.below;
          pending, todo := pending - n.below, rest;
        } else if n.points.None? {
          PushedAll(stack, pending - n.below, rest, target, n);
          stack := stack + n.children;
          assert pending - n.below + n.below == pending;
          todo :| Stacked(stack, pending, todo, target) && todo <= rest + n.repr - {n};
        } else {
          ghost var before := cells;
          ghost var more;
          UnderwayParts(root.below, b, target, out, parts, covered, cells, bucketed, pending);
          BucketedApart(root.below, b, covered, bucketed, pending, n.below);
          cells, more := Bucket(n, b, Pow2(target), cells, bucketed);
          Sorted(root.below, b, target, out, parts, covered, before, bucketed, pending, n.below, cells, more);
          bucketed, pending, todo := bucketed + more, pending - n.below, rest;
        }
      }
      StackDone(stack, pending, todo, target);
      UnderwayParts(root.below, b, target, out, parts, covered, cells, bucketed, pending);
      WalkDone(root.below, b, covered, bucketed);
      out, parts := EmitCells(cells, target, bucketed, out, parts, covered);
      covered := covered + bucketed;
      PartedSum(out, parts, covered);
      PartedParts(out, parts, covered);
      FewClusters(parts, covered, target);
    }

    lemma RootParts()
      requires Valid()
      ensures root.Valid() && root.cell == UNIT && size == |root.below|
    {
      hide Aggregates, AllWithin, Lists;
    }

    /** At most one cluster for each cell of the grid. */
    lemma FewClusters(parts: seq<set<Item>>, covered: set<Item>, depth: nat)
      requires Valid() && covered <= root.below && ByCell(parts, Pow2(depth))
      requires forall i :: 0 <= i < |parts| ==> parts[i] <= covered && parts[i] != {}
      ensures |parts| <= Pow2(2 * depth)
    {
      hide Aggregates, Lists, ByCell, Pow2;
      forall i, p | 0 <= i < |parts| && p in parts[i]
        ensures Within(UNIT, p)
      {
        assert p in root.below;
      }
      FewParts(parts, Pow2(depth));
      Squared(depth);
    }

    lemma PointsBelowOne()
      requires Valid()
      ensures forall p :: p in root.below ==> 0.0 <= p.x < 1.0
    {
      hide Aggregates, Lists;
    }

    /** The clusters of a viewport that may cross the antimeridian: then those of its two sides, one after the other. */
    method Viewport(b: Box, zoom: int)
      returns (out: seq<Cluster>, ghost west: seq<Cluster>, ghost parts: seq<set<Item>>, ghost covered: set<Item>,
               ghost others: seq<set<Item>>, ghost coveredToo: set<Item>)
      requires Valid()
      ensures west <= out && Parted(west, parts, covered) && Parted(out[|west|..], others, coveredToo)
      ensures covered <= root.below && coveredToo <= root.below
      ensures forall p :: p in root.below && InView(b, p) ==> p in covered + coveredToo
      ensures b.x0 <= b.x1 ==> west == out
      ensures AllCompact(parts, Side(Target(zoom))) && AllCompact(others, Side(Target(zoom)))
      ensures ByCell(parts, Pow2(Target(zoom))) && ByCell(others, Pow2(Target(zoom)))
      ensures |west| <= Pow2(2 * Target(zoom)) && |out| - |west| <= Pow2(2 * Target(zoom))
      ensures b.x0 <= b.x1 ==> AllMeet(b, covered, Pow2(Target(zoom)))
      ensures b.x0 > b.x1 ==> AllMeet(b.(x1 := 1.0), covered, Pow2(Target(zoom)))
                              && AllMeet(b.(x0 := 0.0), coveredToo, Pow2(Target(zoom)))
    {
      hide Aggregates, AllWithin, Lists, Parted, AllCompact, Side, Pow2, ByCell, AllMeet, Target;
      if b.x0 <= b.x1 {
        out, parts, covered := Clusters(b, zoom);
        west, others, coveredToo := out, [], {};
        NothingParted(Side(Target(zoom)), b, Pow2(Target(zoom)));
        assert out[|west|..] == [];
        return;
      }
      PointsBelowOne();
      out, parts, covered := Clusters(b.(x1 := 1.0), zoom);
      west := out;
      ghost var n := |west|;
      var more;
      more, others, coveredToo := Clusters(b.(x0 := 0.0), zoom);
      out := out + more;
      assert out[n..] == more;
    }
  }
}
