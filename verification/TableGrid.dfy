/** The row and column span grid of an XML table (src/molly/documents/parsers/_xml_common.py:222-279)
    and the coordinate check behind it (src/molly/documents/canonical.py:288-290). */
module TableGrid {
  import opened RunEvents

  const MAX_SPAN: int := 10000

  /** A span attribute, as far as `parse_positive_int` distinguishes it. */
  datatype Attribute = Absent | NotANumber | Number(n: int)

  /** One `th` or `td` element of a row; its text is within the limit or not. */
  datatype Element = Element(rowSpan: Attribute, columnSpan: Attribute, isHeader: bool, textFits: bool)

  datatype Cell = Cell(row: nat, column: nat, rowSpan: nat, columnSpan: nat, isHeader: bool)

  datatype TableError = SpanNotANumber | SpanOutOfRange | SpansOverlap | TextTooLong | TooManyCells

  type Position = (nat, nat)

  function ParseSpan(a: Attribute): (r: Result<nat, TableError>)
    ensures r.Ok? ==> 1 <= r.value <= MAX_SPAN
  {
    match a
    case Absent => Ok(1)
    case NotANumber => Err(SpanNotANumber)
    case Number(n) => if 1 <= n <= MAX_SPAN then Ok(n) else Err(SpanOutOfRange)
  }

  function Rectangle(row: nat, column: nat, height: nat, width: nat): set<Position> {
    set r, c | row <= r < row + height && column <= c < column + width :: (r, c)
  }

  function Area(c: Cell): set<Position> { Rectangle(c.row, c.column, c.rowSpan, c.columnSpan) }

  // ---- Specification: one cell after the other

  function FromColumn(occupied: set<Position>, row: nat, column: nat): set<Position> {
    set p | p in occupied && p.0 == row && p.1 >= column
  }

  lemma FromColumnShrinks(occupied: set<Position>, row: nat, column: nat)
    requires (row, column) in occupied
    ensures |FromColumn(occupied, row, column + 1)| < |FromColumn(occupied, row, column)|
  {
    var (a, b) := (FromColumn(occupied, row, column + 1), FromColumn(occupied, row, column));
    assert (row, column) in b;
    assert a == b - {(row, column)};
  }

  /** The leftmost free column of a row, from some column on. */
  function FreeColumn(occupied: set<Position>, row: nat, column: nat): (free: nat)
    ensures free >= column && (row, free) !in occupied && forall c :: column <= c < free ==> (row, c) in occupied
    decreases |FromColumn(occupied, row, column)|
  {
    if (row, column) in occupied then
      FromColumnShrinks(occupied, row, column);
      FreeColumn(occupied, row, column + 1)
    else column
  }

  datatype Grid = Grid(cells: seq<Cell>, occupied: set<Position>, column: nat)

  const EMPTY := Grid([], {}, 0)

  function PlaceCell(limit: nat, g: Grid, row: nat, e: Element): Result<Grid, TableError> {
    var column := FreeColumn(g.occupied, row, g.column);
    var (height, width) := (ParseSpan(e.rowSpan), ParseSpan(e.columnSpan));
    if height.Err? then Err(height.error)
    else if width.Err? then Err(width.error)
    else
      var cell := Cell(row, column, height.value, width.value, e.isHeader);
      if Area(cell) * g.occupied != {} then Err(SpansOverlap)
      else if !e.textFits then Err(TextTooLong)
      else if |g.cells| + 1 > limit then Err(TooManyCells)
      else Ok(Grid(g.cells + [cell], g.occupied + Area(cell), column + width.value))
  }

  function PlaceRow(limit: nat, g: Grid, row: nat, elements: seq<Element>): Result<Grid, TableError> {
    if elements == [] then Ok(g)
    else
      var before := PlaceRow(limit, g, row, Front(elements));
      if before.Err? then before else PlaceCell(limit, before.value, row, Last(elements))
  }

  function PlaceRows(limit: nat, rows: seq<seq<Element>>): Result<Grid, TableError> {
    if rows == [] then Ok(EMPTY)
    else
      var before := PlaceRows(limit, Front(rows));
      if before.Err? then before else PlaceRow(limit, before.value.(column := 0), |rows| - 1, Last(rows))
  }

  /** `CanonicalTable.__post_init__` on the coordinates. */
  predicate UniqueCoordinates(cells: seq<Cell>) {
    forall i, j :: 0 <= i < j < |cells| ==> (cells[i].row, cells[i].column) != (cells[j].row, cells[j].column)
  }

  // ---- The loops of the source

  lemma RectangleRow(row: nat, column: nat, height: nat, width: nat)
    ensures Rectangle(row, column, height, width) + Rectangle(row + height, column, 1, width) ==
              Rectangle(row, column, height + 1, width)
    ensures Rectangle(row, column, 0, width) == {}
  {}

  lemma RectangleColumn(row: nat, column: nat, width: nat)
    ensures Rectangle(row, column, 1, width) + {(row, column + width)} == Rectangle(row, column, 1, width + 1)
    ensures Rectangle(row, column, 1, 0) == {}
    ensures (row, column + width) !in Rectangle(row, column, 1, width)
  {}

  lemma RectanglesApart(row: nat, column: nat, height: nat, width: nat, k: nat)
    requires k < width
    ensures (row + height, column + k) !in Rectangle(row, column, height, width)
  {}

  lemma RectangleInside(row: nat, column: nat, height: nat, width: nat, i: nat, k: nat)
    requires i < height && k < width
    ensures (row + i, column + k) in Rectangle(row, column, height, width)
  {}

  /** The two inner loops: every position of the span must be free. */
  method Occupy(occupied: set<Position>, row: nat, column: nat, height: nat, width: nat)
    returns (overlap: bool, after: set<Position>)
    ensures overlap <==> Rectangle(row, column, height, width) * occupied != {}
    ensures !overlap ==> after == occupied + Rectangle(row, column, height, width)
  {
    hide Rectangle;
    after := occupied;
    RectangleRow(row, column, 0, width);
    for i := 0 to height
      invariant after == occupied + Rectangle(row, column, i, width)
      invariant Rectangle(row, column, i, width) * occupied == {}
    {
      RectangleColumn(row + i, column, 0);
      for k := 0 to width
        invariant after == occupied + Rectangle(row, column, i, width) + Rectangle(row + i, column, 1, k)
        invariant Rectangle(row + i, column, 1, k) * occupied == {}
      {
        var position := (row + i, column + k);
        RectanglesApart(row, column, i, width, k);
        RectangleColumn(row + i, column, k);
        if position in after {
          RectangleInside(row, column, height, width, i, k);
          assert position in Rectangle(row, column, height, width) * occupied;
          return true, after;
        }
        after := after + {position};
      }
      RectangleRow(row, column, i, width);
    }
    overlap := false;
  }

  method SkipOccupied(occupied: set<Position>, row: nat, start: nat) returns (column: nat)
    ensures column == FreeColumn(occupied, row, start)
  {
    column := start;
    while (row, column) in occupied
      invariant FreeColumn(occupied, row, column) == FreeColumn(occupied, row, start)
      decreases |FromColumn(occupied, row, column)|
    {
      FromColumnShrinks(occupied, row, column);
      column := column + 1;
    }
  }

  method MakeRow(limit: nat, g: Grid, row: nat, elements: seq<Element>) returns (r: Result<Grid, TableError>)
    ensures r == PlaceRow(limit, g, row, elements)
  {
    hide Area, FreeColumn;
    var cells, occupied, column := g.cells, g.occupied, g.column;
    var i := 0;
    while i < |elements|
      invariant 0 <= i <= |elements|
      invariant PlaceRow(limit, g, row, elements[..i]) == Ok(Grid(cells, occupied, column))
    {
      var e := elements[i];
      TakeNext(elements, i);
      ghost var next := PlaceCell(limit, Grid(cells, occupied, column), row, e);
      if next.Err? { RowStops(limit, g, row, elements, i + 1); }
      column := SkipOccupied(occupied, row, column);
      var height := ParseSpan(e.rowSpan);
      if height.Err? { return Err(height.error); }
      var width := ParseSpan(e.columnSpan);
      if width.Err? { return Err(width.error); }
      var cell := Cell(row, column, height.value, width.value, e.isHeader);
      AreaOf(cell);
      var overlap, after := Occupy(occupied, row, column, height.value, width.value);
      if overlap { return Err(SpansOverlap); }
      if !e.textFits { return Err(TextTooLong); }
      cells, occupied, column := cells + [cell], after, column + width.value;
      if |cells| > limit { return Err(TooManyCells); }
      i := i + 1;
    }
    assert elements[..i] == elements;
    r := Ok(Grid(cells, occupied, column));
  }

  lemma AreaOf(c: Cell)
    ensures Area(c) == Rectangle(c.row, c.column, c.rowSpan, c.columnSpan)
  {}

  lemma {:induction false} RowStops(limit: nat, g: Grid, row: nat, elements: seq<Element>, n: nat)
    requires n <= |elements| && PlaceRow(limit, g, row, elements[..n]).Err?
    ensures PlaceRow(limit, g, row, elements) == PlaceRow(limit, g, row, elements[..n])
  {
    if n < |elements| {
      assert Front(elements)[..n] == elements[..n];
      RowStops(limit, g, row, Front(elements), n);
    } else {
      assert elements[..n] == elements;
    }
  }

  lemma {:induction false} RowsStop(limit: nat, rows: seq<seq<Element>>, n: nat)
    requires n <= |rows| && PlaceRows(limit, rows[..n]).Err?
    ensures PlaceRows(limit, rows) == PlaceRows(limit, rows[..n])
  {
    if n < |rows| {
      assert Front(rows)[..n] == rows[..n];
      RowsStop(limit, Front(rows), n);
    } else {
      assert rows[..n] == rows;
    }
  }

  /** `_make_table`, down to the check of `CanonicalTable`, which never fires. */
  method MakeTable(limit: nat, rows: seq<seq<Element>>) returns (r: Result<seq<Cell>, TableError>)
    ensures r.Err? <==> PlaceRows(limit, rows).Err?
    ensures r.Err? ==> r.error == PlaceRows(limit, rows).error
    ensures r.Ok? ==> r.value == PlaceRows(limit, rows).value.cells && UniqueCoordinates(r.value)
  {
    hide PlaceRow;
    var g := EMPTY;
    var i := 0;
    while i < |rows|
      invariant 0 <= i <= |rows| && PlaceRows(limit, rows[..i]) == Ok(g)
    {
      TakeNext(rows, i);
      var after := MakeRow(limit, g.(column := 0), i, rows[i]);
      if after.Err? {
        RowsStop(limit, rows, i + 1);
        return Err(after.error);
      }
      g := after.value;
      i := i + 1;
    }
    assert rows[..i] == rows;
    GridOfRows(limit, rows);
    IncreasingIsUnique(g.cells);
    r := Ok(g.cells);
  }

  // ---- What every grid satisfies

  predicate Covered(cells: seq<Cell>, p: Position) { exists i :: 0 <= i < |cells| && p in Area(cells[i]) }

  predicate Disjoint(cells: seq<Cell>) { forall i, j :: 0 <= i < j < |cells| ==> Area(cells[i]) * Area(cells[j]) == {} }

  predicate Increasing(cells: seq<Cell>) {
    forall i, j :: 0 <= i < j < |cells| ==>
      cells[i].row < cells[j].row || (cells[i].row == cells[j].row
          && cells[i].column + cells[i].columnSpan <= cells[j].column)
  }

  /** Where the search for the next cell of a row begins: after the last cell of that row, if any. */
  function SearchFrom(cells: seq<Cell>, row: nat): nat {
    if cells != [] && Last(cells).row == row then Last(cells).column + Last(cells).columnSpan else 0
  }

  /** Cell `i` stands at the leftmost column that the cells before it leave free. */
  predicate Leftmost(cells: seq<Cell>, i: nat)
    requires i < |cells|
  {
    var (before, c) := (cells[..i], cells[i]);
    && c.rowSpan >= 1 && c.columnSpan >= 1
    && SearchFrom(before, c.row) <= c.column && !Covered(before, (c.row, c.column))
    && forall k :: SearchFrom(before, c.row) <= k < c.column ==> Covered(before, (c.row, k))
  }

  /** The grid invariant; `row` is the row being filled. */
  ghost predicate GridOk(g: Grid, row: nat) {
    && (forall p :: p in g.occupied <==> Covered(g.cells, p))
    && Disjoint(g.cells) && Increasing(g.cells)
    && (forall i :: 0 <= i < |g.cells| ==> Leftmost(g.cells, i) && g.cells[i].row <= row)
    && g.column == SearchFrom(g.cells, row)
  }

  lemma CoveredSnoc(cells: seq<Cell>, c: Cell)
    ensures forall p :: Covered(cells + [c], p) <==> Covered(cells, p) || p in Area(c)
  {
    var all := cells + [c];
    hide Area;
    forall p ensures Covered(all, p) <==> Covered(cells, p) || p in Area(c) {
      if Covered(cells, p) {
        var i :| 0 <= i < |cells| && p in Area(cells[i]);
        assert all[i] == cells[i];
      }
      assert all[|cells|] == c;
    }
  }

  lemma DisjointSnoc(cells: seq<Cell>, occupied: set<Position>, c: Cell)
    requires Disjoint(cells) && Area(c) * occupied == {} && forall p :: p in occupied <==> Covered(cells, p)
    ensures Disjoint(cells + [c])
  {
    hide Area;
    var all := cells + [c];
    forall i | 0 <= i < |cells| ensures Area(cells[i]) * Area(c) == {} {
      forall p | p in Area(cells[i]) ensures p !in Area(c) {
        assert Covered(cells, p);
        assert p in occupied && p !in Area(c) * occupied;
      }
    }
  }

  lemma IncreasingSnoc(cells: seq<Cell>, c: Cell)
    requires Increasing(cells) && SearchFrom(cells, c.row) <= c.column
    requires forall i :: 0 <= i < |cells| ==> cells[i].row <= c.row
    ensures Increasing(cells + [c])
  {
    forall i | 0 <= i < |cells| ensures cells[i].row < c.row
        || (cells[i].row == c.row && cells[i].column + cells[i].columnSpan <= c.column) {
      assert Last(cells).row <= c.row;
    }
  }

  lemma LeftmostSnoc(cells: seq<Cell>, c: Cell)
    requires forall i :: 0 <= i < |cells| ==> Leftmost(cells, i)
    requires c.rowSpan >= 1 && c.columnSpan >= 1 && SearchFrom(cells, c.row) <= c.column
               && !Covered(cells, (c.row, c.column))
    requires forall k :: SearchFrom(cells, c.row) <= k < c.column ==> Covered(cells, (c.row, k))
    ensures forall i :: 0 <= i < |cells + [c]| ==> Leftmost(cells + [c], i)
  {
    hide Covered;
    var all := cells + [c];
    forall i | 0 <= i < |all| ensures Leftmost(all, i) {
      if i < |cells| { assert Leftmost(cells, i) && all[..i] == cells[..i]; } else { assert all[..i] == cells; }
    }
  }

  lemma CellKeepsGrid(limit: nat, g: Grid, row: nat, e: Element)
    requires GridOk(g, row) && PlaceCell(limit, g, row, e).Ok?
    ensures GridOk(PlaceCell(limit, g, row, e).value, row)
  {
    hide Area, Covered, Disjoint, Increasing, Leftmost;
    var h := PlaceCell(limit, g, row, e).value;
    var c := Last(h.cells);
    CoveredSnoc(g.cells, c);
    DisjointSnoc(g.cells, g.occupied, c);
    IncreasingSnoc(g.cells, c);
    LeftmostSnoc(g.cells, c);
  }

  lemma {:induction false} RowKeepsGrid(limit: nat, g: Grid, row: nat, elements: seq<Element>)
    requires GridOk(g, row) && PlaceRow(limit, g, row, elements).Ok?
    ensures GridOk(PlaceRow(limit, g, row, elements).value, row)
  {
    hide GridOk, PlaceCell;
    if elements == [] { return; }
    RowKeepsGrid(limit, g, row, Front(elements));
    CellKeepsGrid(limit, PlaceRow(limit, g, row, Front(elements)).value, row, Last(elements));
  }

  lemma NewRow(g: Grid, row: nat)
    requires GridOk(g, row)
    ensures GridOk(g.(column := 0), row + 1)
  {
    hide Covered, Disjoint, Increasing;
    forall i | 0 <= i < |g.cells| ensures g.cells[i].row <= row + 1 { assert Leftmost(g.cells, i); }
  }

  lemma {:induction false} GridOfRows(limit: nat, rows: seq<seq<Element>>)
    requires PlaceRows(limit, rows).Ok?
    ensures GridOk(PlaceRows(limit, rows).value, if rows == [] then 0 else |rows| - 1)
  {
    hide PlaceRow;
    if rows == [] { return; }
    hide GridOk;
    var before := PlaceRows(limit, Front(rows)).value;
    GridOfRows(limit, Front(rows));
    if |rows| == 1 {
      assert Front(rows) == [];
      assert before.(column := 0) == before;
    } else {
      NewRow(before, |rows| - 2);
    }
    RowKeepsGrid(limit, before.(column := 0), |rows| - 1, Last(rows));
  }

  lemma IncreasingIsUnique(cells: seq<Cell>)
    requires Increasing(cells) && forall i :: 0 <= i < |cells| ==> Leftmost(cells, i)
    ensures UniqueCoordinates(cells)
  {
    forall i, j | 0 <= i < j < |cells| ensures (cells[i].row, cells[i].column) != (cells[j].row, cells[j].column) {
      assert Leftmost(cells, i);
    }
  }

  /** When a table is built: its spans are pairwise disjoint and cover exactly the occupied positions, the cells
      are strictly increasing, each is as far left as the earlier ones allow, and no coordinate repeats. */
  lemma TableIsGrid(limit: nat, rows: seq<seq<Element>>)
    requires PlaceRows(limit, rows).Ok?
    ensures var g := PlaceRows(limit, rows).value;
            && Disjoint(g.cells) && (forall p :: p in g.occupied <==> Covered(g.cells, p))
            && Increasing(g.cells) && (forall i :: 0 <= i < |g.cells| ==> Leftmost(g.cells, i))
            && UniqueCoordinates(g.cells)
  {
    GridOfRows(limit, rows);
    IncreasingIsUnique(PlaceRows(limit, rows).value.cells);
  }

  /** Two placements of the same spans in the same rows, each as far left as possible, are the same. */
  lemma {:induction false} LeftmostIsUnique(a: seq<Cell>, b: seq<Cell>)
    requires |a| == |b|
    requires forall i :: 0 <= i < |a| ==>
               a[i].row == b[i].row && a[i].rowSpan == b[i].rowSpan && a[i].columnSpan == b[i].columnSpan
                   && a[i].isHeader == b[i].isHeader
    requires forall i :: 0 <= i < |a| ==> Leftmost(a, i) && Leftmost(b, i)
    ensures a == b
  {
    hide Covered;
    if a == [] { return; }
    var n := |a| - 1;
    forall i | 0 <= i < n ensures Leftmost(Front(a), i) && Leftmost(Front(b), i) {
      assert Leftmost(a, i) && Leftmost(b, i) && Front(a)[..i] == a[..i] && Front(b)[..i] == b[..i];
    }
    LeftmostIsUnique(Front(a), Front(b));
    assert Leftmost(a, n) && Leftmost(b, n);
    assert a[..n] == b[..n];
    assert a[n].column == b[n].column;
    assert a == Front(a) + [a[n]] && b == Front(b) + [b[n]];
  }

  // ---- The cells are those of the rows

  datatype Shape = Shape(row: nat, rowSpan: nat, columnSpan: nat, isHeader: bool)

  predicate SpansParse(e: Element) { ParseSpan(e.rowSpan).Ok? && ParseSpan(e.columnSpan).Ok? }

  function ShapeOf(row: nat, e: Element): Shape {
    if SpansParse(e) then Shape(row, ParseSpan(e.rowSpan).value, ParseSpan(e.columnSpan).value, e.isHeader)
    else Shape(row, 0, 0, e.isHeader)
  }

  function RowShapes(row: nat, elements: seq<Element>): seq<Shape> {
    if elements == [] then [] else RowShapes(row, Front(elements)) + [ShapeOf(row, Last(elements))]
  }

  function TableShapes(rows: seq<seq<Element>>): seq<Shape> {
    if rows == [] then [] else TableShapes(Front(rows)) + RowShapes(|rows| - 1, Last(rows))
  }

  function CellShapes(cells: seq<Cell>): (s: seq<Shape>)
    ensures |s| == |cells|
    ensures forall i :: 0 <= i < |s| ==>
              s[i] == Shape(cells[i].row, cells[i].rowSpan, cells[i].columnSpan, cells[i].isHeader)
  { seq(|cells|, i requires 0 <= i < |cells| => Shape(cells[i].row, cells[i].rowSpan, cells[i].columnSpan,
      cells[i].isHeader)) }

  lemma {:induction false} RowHasShapes(limit: nat, g: Grid, row: nat, elements: seq<Element>)
    requires PlaceRow(limit, g, row, elements).Ok?
    ensures CellShapes(PlaceRow(limit, g, row, elements).value.cells) == CellShapes(g.cells) + RowShapes(row, elements)
  {
    hide FreeColumn, Area;
    if elements != [] { RowHasShapes(limit, g, row, Front(elements)); }
  }

  lemma {:induction false} TableHasShapes(limit: nat, rows: seq<seq<Element>>)
    requires PlaceRows(limit, rows).Ok?
    ensures CellShapes(PlaceRows(limit, rows).value.cells) == TableShapes(rows)
  {
    hide PlaceRow;
    if rows != [] {
      TableHasShapes(limit, Front(rows));
      RowHasShapes(limit, PlaceRows(limit, Front(rows)).value.(column := 0), |rows| - 1, Last(rows));
    }
  }

  /** So the table is determined by its rows: any cells with their spans, each as far left as possible,
      are its cells. */
  lemma TableIsDetermined(limit: nat, rows: seq<seq<Element>>, cells: seq<Cell>)
    requires PlaceRows(limit, rows).Ok?
    requires CellShapes(cells) == TableShapes(rows) && forall i :: 0 <= i < |cells| ==> Leftmost(cells, i)
    ensures cells == PlaceRows(limit, rows).value.cells
  {
    hide PlaceRows, TableShapes, Leftmost;
    TableIsGrid(limit, rows);
    TableHasShapes(limit, rows);
    var built := PlaceRows(limit, rows).value.cells;
    forall i | 0 <= i < |cells|
      ensures cells[i].row == built[i].row && cells[i].rowSpan == built[i].rowSpan
              && cells[i].columnSpan == built[i].columnSpan && cells[i].isHeader == built[i].isHeader
    {
      assert CellShapes(cells)[i] == CellShapes(built)[i];
    }
    LeftmostIsUnique(cells, built);
  }

  // ---- Which tables are accepted, element by element

  /** What a span attribute stands for: one if it is absent, and a number from 1 to 10000. */
  predicate Stands(a: Attribute, n: int) {
    match a
    case Absent => n == 1
    case NotANumber => false
    case Number(k) => n == k && 1 <= k <= 10000
  }

  predicate LegalSpan(a: Attribute) { a.Absent? || (a.Number? && 1 <= a.n <= 10000) }

  predicate Legal(e: Element) { LegalSpan(e.rowSpan) && LegalSpan(e.columnSpan) && e.textFits }

  /** The cell of this element. */
  predicate CellOf(row: nat, e: Element, c: Cell) {
    c.row == row && Stands(e.rowSpan, c.rowSpan) && Stands(e.columnSpan, c.columnSpan) && c.isHeader == e.isHeader
    && e.textFits
  }

  lemma SpanMeans(a: Attribute)
    ensures ParseSpan(a).Ok? ==> Stands(a, ParseSpan(a).value)
    ensures ParseSpan(a).Ok? <==> LegalSpan(a)
  {}

  /** All elements with their rows, in document order. */
  function Elements(rows: seq<seq<Element>>): seq<(nat, Element)> {
    if rows == [] then [] else Elements(Front(rows)) + InRow(|rows| - 1, Last(rows))
  }

  function InRow(row: nat, elements: seq<Element>): (s: seq<(nat, Element)>)
    ensures |s| == |elements|
  {
    if elements == [] then [] else InRow(row, Front(elements)) + [(row, Last(elements))]
  }

  /** Number k of the cells is that of element number k. */
  predicate Represents(all: seq<(nat, Element)>, cells: seq<Cell>) {
    |all| == |cells| && forall k :: 0 <= k < |all| ==> CellOf(all[k].0, all[k].1, cells[k])
  }

  predicate AllLegal(all: seq<(nat, Element)>) { forall k :: 0 <= k < |all| ==> Legal(all[k].1) }

  lemma CellMeans(limit: nat, g: Grid, row: nat, e: Element, all: seq<(nat, Element)>)
    requires Represents(all, g.cells) && |g.cells| <= limit
    ensures var r := PlaceCell(limit, g, row, e);
            && (r.Ok? ==> Represents(all + [(row, e)], r.value.cells) && |r.value.cells| <= limit && Legal(e))
            && (Legal(e) && |all| < limit ==> r.Ok? || r == Err(SpansOverlap))
  {
    hide FreeColumn, Area, Stands, LegalSpan;
    SpanMeans(e.rowSpan);
    SpanMeans(e.columnSpan);
    hide ParseSpan;
  }

  lemma LegalSnoc(all: seq<(nat, Element)>, x: (nat, Element))
    ensures AllLegal(all + [x]) <==> AllLegal(all) && Legal(x.1)
  {
    hide Legal;
    var more := all + [x];
    assert more[|all|] == x && forall k :: 0 <= k < |all| ==> more[k] == all[k];
  }

  lemma {:induction false} RowMeans(limit: nat, g: Grid, row: nat, elements: seq<Element>, all: seq<(nat, Element)>)
    requires Represents(all, g.cells) && |g.cells| <= limit && AllLegal(all)
    ensures var (r, more) := (PlaceRow(limit, g, row, elements), all + InRow(row, elements));
            && (r.Ok? ==> Represents(more, r.value.cells) && |r.value.cells| <= limit && AllLegal(more))
            && (AllLegal(more) && |more| <= limit ==> r.Ok? || r == Err(SpansOverlap))
  {
    hide PlaceCell, Represents, AllLegal;
    if elements == [] {
      assert all + InRow(row, elements) == all;
    } else {
      var (front, e) := (Front(elements), Last(elements));
      RowMeans(limit, g, row, front, all);
      var before := all + InRow(row, front);
      assert all + InRow(row, elements) == before + [(row, e)];
      LegalSnoc(before, (row, e));
      var r := PlaceRow(limit, g, row, front);
      if r.Ok? {
        RepresentsLength(before, r.value.cells);
        CellMeans(limit, r.value, row, e, before);
      }
    }
  }

  lemma RepresentsLength(all: seq<(nat, Element)>, cells: seq<Cell>)
    requires Represents(all, cells)
    ensures |all| == |cells|
  {}

  lemma LegalPrefix(all: seq<(nat, Element)>, more: seq<(nat, Element)>)
    requires AllLegal(all + more)
    ensures AllLegal(all)
  {
    hide Legal;
    assert forall k :: 0 <= k < |all| ==> (all + more)[k] == all[k];
  }

  /** A table that is made has one cell for each element, with the row, the spans and the kind of that element; every
      element is legal and there are no more than the limit.  And if all that holds, only an overlap can refuse it. */
  lemma {:induction false} TableRepresents(limit: nat, rows: seq<seq<Element>>)
    ensures var (r, all) := (PlaceRows(limit, rows), Elements(rows));
            && (r.Ok? ==> Represents(all, r.value.cells) && |all| <= limit && AllLegal(all))
            && (AllLegal(all) && |all| <= limit ==> r.Ok? || r == Err(SpansOverlap))
  {
    hide PlaceRow, Represents, AllLegal;
    if rows == [] {
      NothingRepresented();
    } else {
      var before := Elements(Front(rows));
      TableRepresents(limit, Front(rows));
      var r := PlaceRows(limit, Front(rows));
      if r.Ok? {
        RepresentsLength(before, r.value.cells);
        RowMeans(limit, r.value.(column := 0), |rows| - 1, Last(rows), before);
        if PlaceRows(limit, rows).Ok? { RepresentsLength(Elements(rows), PlaceRows(limit, rows).value.cells); }
      }
      if AllLegal(Elements(rows)) { LegalPrefix(before, InRow(|rows| - 1, Last(rows))); }
    }
  }

  lemma NothingRepresented() ensures Represents([], []) && AllLegal([]) {}
}
