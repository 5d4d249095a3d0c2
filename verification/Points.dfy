/** Points on the unit square, their totals, and the quarters of a cell. */
module Points {
  import opened Wrappers

  type Id = int

  datatype Item = Item(x: real, y: real, id: Id, key: real)
  datatype Rep = Rep(key: real, id: Id)
  datatype Cell = Cell(x0: real, y0: real, size: real)

  // ---------------------------------------------------------------- totals

  function Coordinate(p: Item, horizontal: bool): real {
    if horizontal then p.x else p.y
  }

  ghost function Total(s: set<Item>, horizontal: bool): real {
    if s == {} then 0.0
    else
      var p :| p in s;
      Coordinate(p, horizontal) + Total(s - {p}, horizontal)
  }

  lemma {:induction false} TotalPlus(s: set<Item>, p: Item, horizontal: bool)
    requires p !in s
    ensures Total(s + {p}, horizontal) == Total(s, horizontal) + Coordinate(p, horizontal)
    decreases |s|
  {
    hide Coordinate;
    var t := s + {p};
    var q :| q in t && Total(t, horizontal) == Coordinate(q, horizontal) + Total(t - {q}, horizontal);
    if q == p {
      assert t - {q} == s;
    } else {
      assert t - {q} == s - {q} + {p};
      TotalPlus(s - {q}, p, horizontal);
      assert s == s - {q} + {q};
      TotalPlus(s - {q}, q, horizontal);
    }
  }

  // ---------------------------------------------------------------- aggregates

  predicate HasId(s: set<Item>, id: Id) {
    exists p :: p in s && p.id == id
  }

  ghost predicate UniqueIds(s: set<Item>) {
    forall p, q :: p in s && q in s && p.id == q.id ==> p == q
  }

  /** The representative is one of the points, and none has a greater key. */
  ghost predicate IsRep(rep: Option<Rep>, s: set<Item>) {
    if s == {} then rep.None?
    else
      rep.Some? && (exists p :: p in s && p.id == rep.value.id && p.key == rep.value.key)
      && forall p :: p in s ==> p.key <= rep.value.key
  }

  ghost predicate Aggregates(count: int, sx: real, sy: real, rep: Option<Rep>, s: set<Item>) {
    count == |s| && sx == Total(s, true) && sy == Total(s, false) && IsRep(rep, s)
  }

  function Taken(rep: Option<Rep>, p: Item): Option<Rep> {
    if rep.None? || p.key >= rep.value.key then Some(Rep(p.key, p.id)) else rep
  }

  lemma AggregatesPlus(count: int, sx: real, sy: real, rep: Option<Rep>, s: set<Item>, p: Item)
    requires Aggregates(count, sx, sy, rep, s) && p !in s
    ensures Aggregates(count + 1, sx + p.x, sy + p.y, Taken(rep, p), s + {p})
  {
    hide Total;
    TotalPlus(s, p, true);
    TotalPlus(s, p, false);
    assert p in s + {p};
    if s != {} && p.key < rep.value.key {
      var q :| q in s && q.id == rep.value.id && q.key == rep.value.key;
      assert q in s + {p};
    }
  }

  lemma AggregatesMinus(count: int, sx: real, sy: real, rep: Option<Rep>, s: set<Item>, p: Item, after: Option<Rep>)
    requires Aggregates(count, sx, sy, rep, s) && p in s && IsRep(after, s - {p})
    ensures Aggregates(count - 1, sx - p.x, sy - p.y, after, s - {p})
  {
    hide Total, IsRep;
    TotalPlus(s - {p}, p, true);
    TotalPlus(s - {p}, p, false);
    assert s == s - {p} + {p};
  }

  /** A representative other than the removed point stays one. */
  lemma RepStays(rep: Option<Rep>, s: set<Item>, p: Item)
    requires IsRep(rep, s) && UniqueIds(s) && p in s && rep.Some? && rep.value.id != p.id
    ensures IsRep(rep, s - {p})
  {
    var q :| q in s && q.id == rep.value.id && q.key == rep.value.key;
    assert q in s - {p};
  }

  // ---------------------------------------------------------------- cells

  predicate Within(c: Cell, p: Item) {
    c.x0 <= p.x < c.x0 + c.size && c.y0 <= p.y < c.y0 + c.size
  }

  ghost predicate AllWithin(c: Cell, s: set<Item>) {
    forall p :: p in s ==> Within(c, p)
  }

  type Quarter = i: nat | i < 4

  /** The quarter that a point belongs to: by comparing with the middle of the cell. */
  function QuarterOf(c: Cell, x: real, y: real): Quarter {
    var half := c.size / 2.0;
    (if x >= c.x0 + half then 1 else 0) + (if y >= c.y0 + half then 2 else 0)
  }

  function SubCell(c: Cell, i: Quarter): Cell {
    var half := c.size / 2.0;
    Cell(if i % 2 == 1 then c.x0 + half else c.x0, if i >= 2 then c.y0 + half else c.y0, half)
  }

  lemma QuarterWithin(c: Cell, p: Item)
    requires Within(c, p)
    ensures Within(SubCell(c, QuarterOf(c, p.x, p.y)), p)
  {}

  /** The points of a quarter. */
  ghost function Part(c: Cell, s: set<Item>, i: Quarter): (r: set<Item>)
    ensures r <= s
  {
    set p | p in s && QuarterOf(c, p.x, p.y) == i
  }

  lemma PartPlus(c: Cell, s: set<Item>, p: Item, i: Quarter)
    ensures Part(c, s + {p}, i) == if i == QuarterOf(c, p.x, p.y) then Part(c, s, i) + {p} else Part(c, s, i)
  {
    hide QuarterOf;
  }

  // ---------------------------------------------------------------- sides

  /** The side of a cell at a depth. */
  function Side(depth: nat): (r: real)
    ensures r > 0.0
  {
    if depth == 0 then 1.0 else Side(depth - 1) / 2.0
  }

  lemma {:induction false} SideShrinks(d: nat, e: nat)
    requires d <= e
    ensures Side(e) <= Side(d)
  {
    if d < e {
      SideShrinks(d, e - 1);
    }
  }

  /** No two points are a side or more apart in either direction. */
  ghost predicate Compact(s: set<Item>, side: real) {
    forall p, q :: p in s && q in s ==> p.x - q.x < side && p.y - q.y < side
  }

  lemma CellCompact(c: Cell, s: set<Item>, side: real)
    requires AllWithin(c, s) && c.size <= side
    ensures Compact(s, side)
  {}
}
