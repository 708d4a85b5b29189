/** The area of a breath or wave: a cone that opens away from the caster. */
module ConeArea {
  import opened Arithmetic
  import opened AreaMatrix
  import opened AreaCombat

  /** How many columns the cone loses on either side over n rows. */
  function Narrowing(n: int, spread: nat): int {
    if spread == 0 then 0 else n / spread
  }

  function Columns(length: nat, spread: nat): int {
    2 * Narrowing(length, spread) + 1
  }

  /** Row y (from 0, the far end) is marked between equal margins; the caster stands in the middle of the
      last row. */
  function Cell(length: nat, spread: nat, y: int, x: int): nat {
    var half := Narrowing(length, spread);
    if y == length - 1 && x == half then 3
    else if Narrowing(y, spread) <= x <= 2 * half - Narrowing(y, spread) then 1
    else 0
  }

  /** The cone as offsets: a row at distance n from the caster is as wide as n rows let it grow, and the
      half width is floor(length / spread) - floor((length - 1 - n) / spread). */
  predicate InCone(length: nat, spread: nat, dx: int, dy: int) {
    0 <= -dy < length
    && var half := Narrowing(length, spread) - Narrowing(length - 1 + dy, spread);
       -half <= dx <= half
  }

  lemma NarrowingSteps(y: nat, length: nat, spread: nat)
    requires y < length
    ensures 0 <= Narrowing(y, spread) <= Narrowing(length, spread)
    ensures spread > 0 ==> Narrowing(y + 1, spread) == Narrowing(y, spread) + if (y + 1) % spread == 0 then 1 else 0
  {
    if spread > 0 {
      Quotient(y, spread);
      Quotient(length, spread);
      Order(spread, length / spread, y / spread);
      var q := y / spread;
      assert (y + 1) == spread * ((y + 1) / spread) + (y + 1) % spread;
      if (y + 1) % spread == 0 {
        Distribute(spread, 1, (y + 1) / spread);
        QuotientIs(y, spread, (y + 1) / spread - 1);
      } else {
        Distribute(spread, 1, (y + 1) / spread);
        QuotientIs(y, spread, (y + 1) / spread);
      }
    }
  }

  /** The list shows the first cells of the cone. */
  ghost predicate Shows(list: seq<nat>, length: nat, spread: nat, cols: int) {
    cols > 0 && forall j :: 0 <= j < |list| ==> list[j] == Cell(length, spread, j / cols, j % cols)
  }

  lemma ShowsOneMore(list: seq<nat>, length: nat, spread: nat, cols: int, y: nat, x: nat)
    requires Shows(list, length, spread, cols) && x < cols && |list| == y * cols + x
    ensures Shows(list + [Cell(length, spread, y, x)], length, spread, cols)
  {
    hide Cell;
    RowAndColumn(|list|, cols, y, x);
  }

  lemma ShowsAll(list: seq<nat>, length: nat, spread: nat, cols: int)
    requires Shows(list, length, spread, cols) && |list| == length * cols
    ensures forall y, x :: 0 <= y < length && 0 <= x < cols ==> Value(list, cols, y, x) == Cell(length, spread, y, x)
  {
    hide Cell;
    forall y, x | 0 <= y < length && 0 <= x < cols ensures Value(list, cols, y, x) == Cell(length, spread, y, x) {
      RowAndColumn(y * cols + x, cols, y, x);
      Product(y, cols);
      Order(cols, y, length);
    }
  }

  /** Division and remainder round towards zero. */
  function TruncDiv(a: nat, b: int): int
    requires b != 0
  {
    if b < 0 then 0 - a / (0 - b) else a / b
  }

  function TruncRem(a: nat, b: int): int
    requires b != 0
  {
    a - b * TruncDiv(a, b)
  }

  /** A negative spread that the length reaches gives a negative number of columns. */
  predicate NoColumns(length: nat, spread: int) {
    spread < 0 && length >= 0 - spread
  }

  /** Any other negative spread narrows nothing. */
  function Opening(spread: int): nat {
    if spread < 0 then 0 else spread
  }

  lemma ColumnsOf(length: nat, spread: int)
    requires spread != 0
    ensures length - TruncRem(length, spread) == spread * TruncDiv(length, spread) >= 0
    ensures var cols := TruncDiv(length - TruncRem(length, spread), spread) * 2 + 1;
            if NoColumns(length, spread) then cols < 0 else cols == Columns(length, Opening(spread))
  {
    if spread < 0 {
      var d, q := 0 - spread, length / (0 - spread);
      assert spread * TruncDiv(length, spread) == d * q;
      Quotient(length, d);
      Product(d, q);
      QuotientIs(d * q, d, q);
      if NoColumns(length, spread) {
        Order(d, q, 1);
      } else {
        Order(d, 0, q);
        QuotientIs(length, d, 0);
      }
    } else {
      Quotient(length, spread);
      Product(spread, length / spread);
      QuotientIs(spread * (length / spread), spread, length / spread);
    }
  }

  /** The list of setupArea(length, spread), row by row. */
  method ConeList(length: nat, spread: int) returns (list: seq<nat>)
    ensures NoColumns(length, spread) ==> list == []
    ensures !NoColumns(length, spread) ==>
              var cols := Columns(length, Opening(spread));
              |list| == length * cols
              && forall y, x :: 0 <= y < length && 0 <= x < cols ==>
                   Value(list, cols, y, x) == Cell(length, Opening(spread), y, x)
  {
    hide Cell, Narrowing, Shows, Value, Columns, TruncDiv, TruncRem;
    list := [];
    var rows := length;
    var cols := 1;
    if spread != 0 {
      ColumnsOf(length, spread);
      cols := TruncDiv(length - TruncRem(length, spread), spread) * 2 + 1;
    }
    ghost var opening := Opening(spread);
    ColumnsAre(length, opening);
    var colSpread := cols;
    var y := 1;
    if cols > 0 {
      ShowsNothing(length, opening, cols);
    }
    while y <= rows
      invariant 1 <= y <= rows + 1
      invariant NoColumns(length, spread) ==> list == []
      invariant !NoColumns(length, spread) ==>
                  |list| == (y - 1) * cols && colSpread == cols - Narrowing(y - 1, opening) && Shows(list, length, opening, cols)
    {
      var mincol, maxcol := cols - colSpread + 1, cols - (cols - colSpread);
      list := ConeRow(list, length, opening, cols, y, mincol, maxcol);
      NarrowingSteps(y - 1, length, opening);
      NoNarrowing(y, opening);
      if spread > 0 && y % spread == 0 {
        colSpread := colSpread - 1;
      }
      AddProducts(y - 1, 1, cols);
      y := y + 1;
    }
    if !NoColumns(length, spread) {
      ShowsAll(list, length, opening, cols);
    }
  }

  /** The inner loop: row y (from 1). */
  method ConeRow(list0: seq<nat>, length: nat, ghost spread: nat, cols: int, y: int, mincol: int, maxcol: int) returns (list: seq<nat>)
    requires cols > 0 ==>
               1 <= y <= length && cols == Columns(length, spread) == 2 * Narrowing(length, spread) + 1
               && mincol == Narrowing(y - 1, spread) + 1 && maxcol == cols - Narrowing(y - 1, spread)
               && |list0| == (y - 1) * cols && Shows(list0, length, spread, cols)
    ensures if cols > 0 then |list| == (y - 1) * cols + cols && Shows(list, length, spread, cols) else list == list0
  {
    hide Narrowing, Shows;
    list := list0;
    var x := 1;
    while x <= cols
      invariant if cols > 0 then 1 <= x <= cols + 1 else x == 1
      invariant cols > 0 ==> |list| == (y - 1) * cols + (x - 1)
      invariant cols > 0 ==> Shows(list, length, spread, cols)
      invariant cols <= 0 ==> list == list0
    {
      ShowsOneMore(list, length, spread, cols, y - 1, x - 1);
      if y == length && x == ((cols - (cols % 2)) / 2) + 1 {
        list := list + [3];
      } else if x >= mincol && x <= maxcol {
        list := list + [1];
      } else {
        list := list + [0];
      }
      x := x + 1;
    }
  }

  lemma ShowsNothing(length: nat, spread: nat, cols: int)
    requires cols > 0
    ensures Shows([], length, spread, cols) && Narrowing(0, spread) == 0
  {
  }

  lemma ColumnsAre(length: nat, spread: nat)
    ensures spread > 0 ==> ((length - (length % spread)) / spread) * 2 + 1 == Columns(length, spread)
    ensures spread == 0 ==> Columns(length, spread) == 1
    ensures Columns(length, spread) == 2 * Narrowing(length, spread) + 1
    ensures Columns(length, spread) >= 1
  {
    if spread > 0 {
      Quotient(length, spread);
      assert length - length % spread == spread * (length / spread);
      QuotientIs(length - length % spread, spread, length / spread);
    }
  }

  lemma NoNarrowing(y: int, spread: nat)
    ensures spread == 0 ==> Narrowing(y, spread) == Narrowing(y - 1, spread)
  {
  }

  lemma RowAndColumn(k: int, cols: int, y: nat, x: nat)
    requires cols > 0 && x < cols && k == y * cols + x
    ensures k / cols == y && k % cols == x
  {
    QuotientIs(k, cols, y);
  }

  /** setupArea(length, spread): the area to the north is the cone, and the other directions turn it. It
      is empty for a spread without columns. */
  method SetupCone(combat: AreaCombat, length: nat, spread: int) returns (north: MatrixArea)
    modifies combat
    ensures combat.Straight(north)
    ensures forall p :: p in north.Offsets() <==> !NoColumns(length, spread) && InCone(length, Opening(spread), p.0, p.1)
    ensures length > 0 && !NoColumns(length, spread) ==>
              north.centerY == length - 1 && north.centerX == Narrowing(length, Opening(spread))
    ensures north.data.Length0 == length
    ensures north.data.Length1 == if length == 0 || NoColumns(length, spread) then 0 else Columns(length, Opening(spread))
  {
    hide Drawn, Image, Columns, Cell, InCone, Narrowing, Fits, RowLength;
    var list := ConeList(length, spread);
    if length == 0 || NoColumns(length, spread) {
      EmptyFits(list, length);
    } else {
      ColumnsAre(length, Opening(spread));
      FillsRows(list, length, Columns(length, Opening(spread)));
    }
    north := combat.SetupArea(list, length);
    if length == 0 || NoColumns(length, spread) {
      NothingInCone(north, length, Opening(spread), list);
    } else {
      ConeDrawn(north, list, length, Opening(spread));
    }
  }

  lemma EmptyFits(list: seq<nat>, rows: nat)
    requires list == []
    ensures Fits(list, rows) && RowLength(list, rows) == 0
  {
  }

  lemma NothingInCone(area: MatrixArea, length: nat, spread: nat, list: seq<nat>)
    requires area.data.Length1 == 0 && Drawn(area, list, length)
    ensures area.Offsets() == {} && area.data.Length0 == length
    ensures length == 0 ==> forall dx, dy :: !InCone(length, spread, dx, dy)
  {
    hide Narrowing;
  }

  lemma FillsRows(list: seq<nat>, rows: nat, cols: nat)
    requires rows > 0 && |list| == rows * cols
    ensures Fits(list, rows) && RowLength(list, rows) == cols
  {
    QuotientIs(|list|, rows, cols);
  }

  lemma ConeDrawn(area: MatrixArea, list: seq<nat>, length: nat, spread: nat)
    requires length > 0 && Drawn(area, list, length) && area.CentreInside() && area.data.Length1 == Columns(length, spread)
    requires forall y, x :: 0 <= y < length && 0 <= x < Columns(length, spread) ==>
               Value(list, Columns(length, spread), y, x) == Cell(length, spread, y, x)
    ensures area.data.Length0 == length
    ensures area.centerY == length - 1 && area.centerX == Narrowing(length, spread)
    ensures forall p :: p in area.Offsets() <==> InCone(length, spread, p.0, p.1)
  {
    hide Value, Narrowing;
    var half := Narrowing(length, spread);
    NarrowingSteps(length - 1, length, spread);
    assert MarksCentre(Cell(length, spread, length - 1, half));
    assert area.Inside(length - 1, half);
    assert area.centerY == length - 1 && area.centerX == half;
    forall p ensures p in area.Offsets() <==> InCone(length, spread, p.0, p.1) {
      area.OffsetsIn(p);
      if 0 <= -p.1 < length {
        NarrowingSteps(length - 1 + p.1, length, spread);
      }
    }
  }

  /** The whole numbers from lo to hi. */
  function Span(lo: int, hi: int): (s: set<int>)
    ensures forall v :: v in s <==> lo <= v <= hi
    decreases hi - lo
  {
    if lo > hi then {} else Span(lo, hi - 1) + {hi}
  }

  lemma {:induction false} SpanSize(lo: int, hi: int)
    requires lo <= hi + 1
    ensures |Span(lo, hi)| == hi - lo + 1
    decreases hi - lo
  {
    if lo <= hi {
      SpanSize(lo, hi - 1);
    }
  }

  /** Every row of the cone is a run of 2 * (floor(length / spread) - floor(y / spread)) + 1 cells around
      the middle column, so none is empty. */
  lemma RowIsRun(length: nat, spread: nat, y: nat, dy: int)
    requires y < length && dy == y - (length - 1)
    ensures var half := Narrowing(length, spread) - Narrowing(y, spread);
            half >= 0 && |Span(-half, half)| == 2 * half + 1
            && forall dx :: InCone(length, spread, dx, dy) <==> dx in Span(-half, half)
  {
    hide Narrowing, Span, InCone;
    NarrowingSteps(y, length, spread);
    var half := Narrowing(length, spread) - Narrowing(y, spread);
    SpanSize(-half, half);
    assert -dy == length - 1 - y && length - 1 + dy == y;
    forall dx ensures InCone(length, spread, dx, dy) <==> dx in Span(-half, half) {
      InRow(length, spread, y, dx, dy);
    }
  }

  lemma InRow(length: nat, spread: nat, y: nat, dx: int, dy: int)
    requires y < length && dy == y - (length - 1)
    ensures InCone(length, spread, dx, dy) <==>
            Narrowing(y, spread) - Narrowing(length, spread) <= dx <= Narrowing(length, spread) - Narrowing(y, spread)
  {
    hide Narrowing;
  }
}
