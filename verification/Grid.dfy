/** Square grids over the unit square, viewports, and which points share a cell. */
module Grid {
  import opened BinaryPolynomials
  import opened Points

  // ---------------------------------------------------------------- viewports

  datatype Box = Box(x0: real, x1: real, y0: real, y1: real)
  datatype GridCell = GridCell(column: int, row: int)

  predicate InBox(b: Box, p: Item) {
    b.x0 <= p.x <= b.x1 && b.y0 <= p.y <= b.y1
  }

  /** A box whose west end is east of its east end goes round the back. */
  predicate InView(b: Box, p: Item) {
    b.y0 <= p.y <= b.y1 && if b.x0 <= b.x1 then b.x0 <= p.x <= b.x1 else (b.x0 <= p.x || p.x <= b.x1)
  }

  /** A cell that does not meet the box has no point in it. */
  predicate Outside(b: Box, c: Cell) {
    c.x0 > b.x1 || c.x0 + c.size < b.x0 || c.y0 > b.y1 || c.y0 + c.size < b.y0
  }

  // ---------------------------------------------------------------- grid cells

  /** A coordinate in units of the grid. */
  function Scaled(x: real, scale: nat): real {
    x * scale as real
  }

  /** This many sides make one. */
  predicate Tiles(scale: nat, side: real) {
    scale as real * side == 1.0
  }

  function GridIndex(x: real, scale: nat): int {
    Scaled(x, scale).Floor
  }

  /** The cell of a grid with this many columns and rows. */
  function GridOf(p: Item, scale: nat): GridCell {
    GridCell(GridIndex(p.x, scale), GridIndex(p.y, scale))
  }

  /** Points in one cell of the grid of a depth are less than a cell's side apart. */
  lemma GridCompact(s: set<Item>, depth: nat, g: GridCell)
    ensures Compact(InCell(s, Pow2(depth), g), Side(depth))
  {
    hide Pow2, Side, GridOf, Tiles;
    ScaleSide(depth);
    forall p, q | p in InCell(s, Pow2(depth), g) && q in InCell(s, Pow2(depth), g)
      ensures p.x - q.x < Side(depth) && p.y - q.y < Side(depth)
    {
      SameCell(p, q, Pow2(depth), Side(depth));
    }
  }

  lemma SameCell(p: Item, q: Item, scale: nat, side: real)
    requires GridOf(p, scale) == GridOf(q, scale) && Tiles(scale, side) && side > 0.0
    ensures p.x - q.x < side && p.y - q.y < side
  {
    hide GridIndex;
    SameIndex(p.x, q.x, scale, side);
    SameIndex(p.y, q.y, scale, side);
  }

  lemma SameIndex(a: real, b: real, scale: nat, side: real)
    requires GridIndex(a, scale) == GridIndex(b, scale) && Tiles(scale, side) && side > 0.0
    ensures a - b < side
  {
    var u, v := Scaled(a, scale), Scaled(b, scale);
    assert u.Floor == v.Floor;
    assert u - v < 1.0;
    Times(a - b, u - v, side, scale as real);
  }

  lemma {:induction false} ScaleSide(depth: nat)
    ensures Tiles(Pow2(depth), Side(depth))
  {
    if depth > 0 {
      ScaleSide(depth - 1);
      TwiceHalf(Pow2(depth - 1) as real, Side(depth - 1));
    }
  }

  lemma TwiceHalf(a: real, b: real)
    ensures 2.0 * a * (b / 2.0) == a * b
  {}

  lemma Times(d: real, w: real, side: real, scale: real)
    requires w == d * scale && scale * side == 1.0 && side > 0.0 && w < 1.0
    ensures d < side
  {
    assert scale > 0.0;
    assert d >= side ==> (d - side) * scale >= 0.0;
  }

  ghost function InCell(s: set<Item>, scale: nat, g: GridCell): set<Item> {
    set p | p in s && GridOf(p, scale) == g
  }

  // ---------------------------------------------------------------- sets of points and cells

  /** No point of one shares a cell with a point of the other. */
  ghost predicate Unlike(s: set<Item>, t: set<Item>, scale: nat) {
    forall p, q :: p in s && q in t ==> GridOf(p, scale) != GridOf(q, scale)
  }

  /** What shares no cell with more shares none with less. */
  lemma UnlikeJoin(more: set<Item>, s: set<Item>, t: set<Item>, u: set<Item>, scale: nat)
    requires Unlike(more, t, scale) && s <= more && Unlike(s, u, scale)
    ensures Unlike(s, t + u, scale) && (u == {} ==> Unlike(s, t, scale))
  {
    hide GridOf;
  }

  ghost predicate OneCell(s: set<Item>, scale: nat) {
    forall p, q :: p in s && q in s ==> GridOf(p, scale) == GridOf(q, scale)
  }

  /** Two points are in the same part if and only if they are in the same cell. */
  ghost predicate ByCell(parts: seq<set<Item>>, scale: nat) {
    forall i, j, p, q :: 0 <= i < |parts| && 0 <= j < |parts| && p in parts[i] && q in parts[j] ==>
      (GridOf(p, scale) == GridOf(q, scale) <==> i == j)
  }

  lemma ByCellMore(parts: seq<set<Item>>, covered: set<Item>, s: set<Item>, scale: nat)
    requires ByCell(parts, scale) && OneCell(s, scale) && Unlike(s, covered, scale)
    requires forall i :: 0 <= i < |parts| ==> parts[i] <= covered
    ensures ByCell(parts + [s], scale)
  {
    hide GridOf;
    var all := parts + [s];
    forall i, j, p, q | 0 <= i < |all| && 0 <= j < |all| && p in all[i] && q in all[j]
      ensures GridOf(p, scale) == GridOf(q, scale) <==> i == j
    {
      if i == |parts| && j < i {
        assert q in covered;
      } else if j == |parts| && i < j {
        assert p in covered;
      }
    }
  }

  /** The cell meets the box: one of its corners or edges is in it, or the box lies inside the cell. */
  predicate Meets(b: Box, g: GridCell, scale: nat) {
    g.column as real <= Scaled(b.x1, scale) && Scaled(b.x0, scale) <= (g.column + 1) as real
    && g.row as real <= Scaled(b.y1, scale) && Scaled(b.y0, scale) <= (g.row + 1) as real
  }

  ghost predicate AllMeet(b: Box, s: set<Item>, scale: nat) {
    forall p :: p in s ==> Meets(b, GridOf(p, scale), scale)
  }

  lemma MeetMore(b: Box, s: set<Item>, t: set<Item>, scale: nat)
    requires AllMeet(b, s, scale) && AllMeet(b, t, scale)
    ensures AllMeet(b, s + t, scale)
  {
    hide Meets, GridOf;
  }

  lemma InBoxMeets(b: Box, p: Item, scale: nat)
    requires InBox(b, p)
    ensures Meets(b, GridOf(p, scale), scale)
  {
    Ordered(b.x0, p.x, scale);
    Ordered(p.x, b.x1, scale);
    Ordered(b.y0, p.y, scale);
    Ordered(p.y, b.y1, scale);
    hide Scaled;
  }

  lemma Ordered(x: real, y: real, scale: nat)
    requires x <= y
    ensures Scaled(x, scale) <= Scaled(y, scale)
  {}

  // ---------------------------------------------------------------- cells of a tree on a grid

  /** The coordinate is one of the lines of the grid. */
  predicate OnLine(x: real, scale: nat) {
    Scaled(x, scale).Floor as real == Scaled(x, scale)
  }

  /** The cell is one of the cells of the grid of its depth. */
  predicate Aligned(c: Cell, depth: nat) {
    c.size == Side(depth) && OnLine(c.x0, Pow2(depth)) && OnLine(c.y0, Pow2(depth))
  }

  lemma UnitAligned(c: Cell, depth: nat)
    requires c == Cell(0.0, 0.0, 1.0) && Side(depth) == 1.0
    ensures depth == 0 && Aligned(c, depth)
  {
    if depth > 0 {
      SideShrinks(1, depth);
    }
  }

  lemma {:induction false} OnFinerLine(x: real, d: nat, e: nat)
    requires OnLine(x, Pow2(d)) && d <= e
    ensures OnLine(x, Pow2(e))
  {
    if d < e {
      OnFinerLine(x, d, e - 1);
      TwiceOnLine(x, Pow2(e - 1));
    }
  }

  lemma TwiceOnLine(x: real, scale: nat)
    requires OnLine(x, scale)
    ensures OnLine(x, 2 * scale)
  {
    ScaledTwice(x, scale);
    WholeTwice(Scaled(x, scale));
    hide Scaled;
  }

  lemma ScaledTwice(x: real, scale: nat)
    ensures Scaled(x, 2 * scale) == 2.0 * Scaled(x, scale)
  {}

  lemma WholeTwice(u: real)
    requires u.Floor as real == u
    ensures (2.0 * u).Floor as real == 2.0 * u
  {
    assert 2.0 * u == (2 * u.Floor) as real;
  }

  lemma WholePlus(u: real)
    requires u.Floor as real == u
    ensures (u + 1.0).Floor as real == u + 1.0 && (u + 1.0).Floor == u.Floor + 1
  {
    assert u + 1.0 == (u.Floor + 1) as real;
  }

  /** The middle of a cell is a line of the grid that is twice as fine. */
  lemma MiddleOnLine(x: real, depth: nat)
    requires OnLine(x, Pow2(depth))
    ensures OnLine(x + Side(depth) / 2.0, Pow2(depth + 1))
  {
    TwiceOnLine(x, Pow2(depth));
    ScaleSide(depth + 1);
    PlusLine(x, Pow2(depth + 1), Side(depth) / 2.0);
  }

  lemma PlusLine(x: real, scale: nat, side: real)
    requires OnLine(x, scale) && Tiles(scale, side)
    ensures OnLine(x + side, scale)
  {
    OneMore(x, scale, side);
    WholePlus(Scaled(x, scale));
    hide Scaled, Tiles;
  }

  lemma SubAligned(c: Cell, depth: nat, i: Quarter)
    requires Aligned(c, depth)
    ensures Aligned(SubCell(c, i), depth + 1)
  {
    hide OnLine, Pow2;
    MiddleOnLine(c.x0, depth);
    MiddleOnLine(c.y0, depth);
    OnFinerLine(c.x0, depth, depth + 1);
    OnFinerLine(c.y0, depth, depth + 1);
  }

  /** A grid line separates the cells on its two sides. */
  lemma LineSeparates(x: real, y: real, line: real, scale: nat)
    requires x < line <= y && OnLine(line, scale) && scale > 0
    ensures GridIndex(x, scale) < GridIndex(y, scale)
  {
    Ordered(line, y, scale);
    Below(x, line, scale);
    hide Scaled;
    var at := Scaled(line, scale).Floor;
    assert Scaled(x, scale) < at as real <= Scaled(y, scale);
  }

  lemma Below(x: real, y: real, scale: nat)
    requires x < y && scale > 0
    ensures Scaled(x, scale) < Scaled(y, scale)
  {}

  lemma OneMore(x: real, scale: nat, side: real)
    requires Tiles(scale, side)
    ensures Scaled(x + side, scale) == Scaled(x, scale) + 1.0
  {}

  /** Points of different quarters of a cell that is coarser than the grid are in different cells. */
  lemma QuartersUnlike(c: Cell, depth: nat, s: set<Item>, i: Quarter, j: Quarter, target: nat)
    requires Aligned(c, depth) && depth < target && i != j
    ensures Unlike(Part(c, s, i), Part(c, s, j), Pow2(target))
  {
    hide OnLine, Pow2, GridIndex;
    MiddleOnLine(c.x0, depth);
    MiddleOnLine(c.y0, depth);
    OnFinerLine(c.x0 + Side(depth) / 2.0, depth + 1, target);
    OnFinerLine(c.y0 + Side(depth) / 2.0, depth + 1, target);
    forall p, q | p in Part(c, s, i) && q in Part(c, s, j)
      ensures GridOf(p, Pow2(target)) != GridOf(q, Pow2(target))
    {
      var half := c.size / 2.0;
      if p.x < c.x0 + half <= q.x {
        LineSeparates(p.x, q.x, c.x0 + half, Pow2(target));
      } else if q.x < c.x0 + half <= p.x {
        LineSeparates(q.x, p.x, c.x0 + half, Pow2(target));
      } else if p.y < c.y0 + half <= q.y {
        LineSeparates(p.y, q.y, c.y0 + half, Pow2(target));
      } else if q.y < c.y0 + half <= p.y {
        LineSeparates(q.y, p.y, c.y0 + half, Pow2(target));
      }
    }
  }

  /** The index of the points between a line and the next. */
  lemma IndexBetween(x: real, line: real, scale: nat, side: real)
    requires line <= x < line + side && OnLine(line, scale) && Tiles(scale, side)
    ensures GridIndex(x, scale) == GridIndex(line, scale)
  {
    Ordered(line, x, scale);
    Below(x, line + side, scale);
    OneMore(line, scale, side);
    hide Scaled, Tiles;
  }

  /** The cell of the grid whose corner this is. */
  function CellAt(c: Cell, scale: nat): GridCell {
    GridCell(GridIndex(c.x0, scale), GridIndex(c.y0, scale))
  }

  /** A cell of the grid's own depth is one cell of it. */
  lemma CellIsOne(c: Cell, depth: nat, s: set<Item>)
    requires Aligned(c, depth) && AllWithin(c, s)
    ensures forall p :: p in s ==> GridOf(p, Pow2(depth)) == CellAt(c, Pow2(depth))
    ensures OneCell(s, Pow2(depth))
  {
    ScaleSide(depth);
    hide Pow2, Side, GridIndex, OnLine, Tiles;
    forall p | p in s
      ensures GridOf(p, Pow2(depth)) == CellAt(c, Pow2(depth))
    {
      assert Within(c, p);
      IndexBetween(p.x, c.x0, Pow2(depth), Side(depth));
      IndexBetween(p.y, c.y0, Pow2(depth), Side(depth));
    }
    hide GridOf, CellAt;
  }

  /** A cell of the grid that is not outside the box meets it. */
  lemma CellMeets(b: Box, c: Cell, depth: nat, s: set<Item>)
    requires Aligned(c, depth) && AllWithin(c, s) && !Outside(b, c)
    ensures AllMeet(b, s, Pow2(depth))
  {
    hide *;
    CornerMeets(b, c, depth);
    CellIsOne(c, depth, s);
    SameMeets(b, s, CellAt(c, Pow2(depth)), Pow2(depth));
  }

  lemma SameMeets(b: Box, s: set<Item>, g: GridCell, scale: nat)
    requires Meets(b, g, scale) && forall p :: p in s ==> GridOf(p, scale) == g
    ensures AllMeet(b, s, scale)
  {
    hide Meets, GridOf;
  }

  lemma CornerMeets(b: Box, c: Cell, depth: nat)
    requires Aligned(c, depth) && !Outside(b, c)
    ensures Meets(b, CellAt(c, Pow2(depth)), Pow2(depth))
  {
    hide OnLine, Pow2, Side, GridIndex, Scaled, Tiles;
    ScaleSide(depth);
    LineMeets(c.x0, b.x0, b.x1, Pow2(depth), c.size);
    LineMeets(c.y0, b.y0, b.y1, Pow2(depth), c.size);
  }

  lemma LineMeets(x: real, low: real, high: real, scale: nat, side: real)
    requires x <= high && low <= x + side && OnLine(x, scale) && Tiles(scale, side)
    ensures GridIndex(x, scale) as real <= Scaled(high, scale)
    ensures Scaled(low, scale) <= (GridIndex(x, scale) + 1) as real
  {
    Ordered(x, high, scale);
    Ordered(low, x + side, scale);
    OneMore(x, scale, side);
    hide Scaled, Tiles;
  }

  // ---------------------------------------------------------------- how many parts there can be

  ghost function Row(scale: nat, r: int): set<GridCell> {
    set c: int | 0 <= c < scale :: GridCell(c, r)
  }

  lemma {:induction false} RowSize(scale: nat, r: int)
    ensures |Row(scale, r)| == scale
  {
    if scale == 0 {
      assert Row(scale, r) == {};
    } else {
      RowSize(scale - 1, r);
      assert Row(scale, r) == Row(scale - 1, r) + {GridCell(scale - 1, r)};
    }
  }

  /** The cells of the first n rows of a grid over the unit square. */
  ghost function Rows(scale: nat, n: nat): set<GridCell> {
    set c: int, r: int | 0 <= c < scale && 0 <= r < n :: GridCell(c, r)
  }

  lemma {:induction false} RowsSize(scale: nat, n: nat)
    ensures |Rows(scale, n)| == scale * n
    decreases n
  {
    if n == 0 {
      assert Rows(scale, n) == {};
    } else {
      RowsSize(scale, n - 1);
      RowSize(scale, n - 1);
      Product(scale, n);
      assert Rows(scale, n) == Rows(scale, n - 1) + Row(scale, n - 1);
    }
  }

  lemma Product(a: nat, n: nat)
    requires n > 0
    ensures a * n == a * (n - 1) + a
  {}

  ghost function CellsOf(parts: seq<set<Item>>, scale: nat): set<GridCell> {
    set i, p | 0 <= i < |parts| && p in parts[i] :: GridOf(p, scale)
  }

  lemma {:induction false} PartsAreCells(parts: seq<set<Item>>, scale: nat)
    requires ByCell(parts, scale) && forall i :: 0 <= i < |parts| ==> parts[i] != {}
    ensures |CellsOf(parts, scale)| == |parts|
    decreases |parts|
  {
    if parts == [] {
      assert CellsOf(parts, scale) == {};
    } else {
      var n := |parts| - 1;
      PartsAreCells(parts[..n], scale);
      assert parts[n] != {};
      var p := SomePoint(parts[n]);
      LastCell(parts, scale, p);
    }
  }

  lemma SomePoint(s: set<Item>) returns (p: Item)
    requires s != {}
    ensures p in s
  {
    p :| p in s;
  }

  lemma LastCell(parts: seq<set<Item>>, scale: nat, p: Item)
    requires parts != [] && ByCell(parts, scale) && p in parts[|parts| - 1]
    ensures CellsOf(parts, scale) == CellsOf(parts[..|parts| - 1], scale) + {GridOf(p, scale)}
    ensures GridOf(p, scale) !in CellsOf(parts[..|parts| - 1], scale)
  {
    hide GridOf;
    var n := |parts| - 1;
    forall q | q in parts[n]
      ensures GridOf(q, scale) == GridOf(p, scale)
    {}
    forall g
      ensures g in CellsOf(parts, scale) <==> g in CellsOf(parts[..n], scale) || g == GridOf(p, scale)
    {
      if g in CellsOf(parts, scale) {
        var i, q :| 0 <= i < |parts| && q in parts[i] && g == GridOf(q, scale);
        assert i < n ==> q in parts[..n][i];
      }
      if g in CellsOf(parts[..n], scale) {
        var i, q :| 0 <= i < n && q in parts[..n][i] && g == GridOf(q, scale);
        assert q in parts[i];
      }
    }
    forall i, q | 0 <= i < n && q in parts[..n][i]
      ensures GridOf(q, scale) != GridOf(p, scale)
    {
      assert q in parts[i];
    }
  }

  /** There are at most as many parts as cells. */
  lemma FewParts(parts: seq<set<Item>>, scale: nat)
    requires ByCell(parts, scale) && forall i :: 0 <= i < |parts| ==> parts[i] != {}
    requires forall i, p :: 0 <= i < |parts| && p in parts[i] ==> Within(Cell(0.0, 0.0, 1.0), p)
    requires scale > 0
    ensures |parts| <= scale * scale
  {
    hide *;
    PartsAreCells(parts, scale);
    RowsSize(scale, scale);
    CellsInRows(parts, scale);
    FewerCells(CellsOf(parts, scale), Rows(scale, scale));
  }

  lemma CellsInRows(parts: seq<set<Item>>, scale: nat)
    requires scale > 0
    requires forall i, p :: 0 <= i < |parts| && p in parts[i] ==> Within(Cell(0.0, 0.0, 1.0), p)
    ensures CellsOf(parts, scale) <= Rows(scale, scale)
  {
    hide GridIndex;
    forall g | g in CellsOf(parts, scale)
      ensures g in Rows(scale, scale)
    {
      var i, p :| 0 <= i < |parts| && p in parts[i] && g == GridOf(p, scale);
      assert Within(Cell(0.0, 0.0, 1.0), p);
      IndexInUnit(p.x, scale);
      IndexInUnit(p.y, scale);
    }
  }

  lemma FewerCells(a: set<GridCell>, b: set<GridCell>)
    requires a <= b
    ensures |a| <= |b|
  {
    assert b == a + (b - a);
  }

  lemma IndexInUnit(x: real, scale: nat)
    requires 0.0 <= x < 1.0 && scale > 0
    ensures 0 <= GridIndex(x, scale) < scale
  {
    Below(x, 1.0, scale);
    Ordered(0.0, x, scale);
    Ends(scale);
    hide Scaled;
  }

  lemma Ends(scale: nat)
    ensures Scaled(0.0, scale) == 0.0 && Scaled(1.0, scale) == scale as real
  {}
}
