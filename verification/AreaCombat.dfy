/** AreaCombat: the areas of a spell in every direction, and the tiles one cast covers. */
module AreaCombat {
  import opened Arithmetic
  import opened AreaMatrix

  datatype Direction = North | East | South | West | SouthWest | SouthEast | NorthWest | NorthEast

  datatype Position = Position(x: int, y: int, z: int)

  function Wrap16(v: int): int {
    v % 0x1_0000
  }

  // ---------- areas from lists ----------

  /** The entry for a cell of a list written row by row. */
  function Value(list: seq<nat>, cols: int, y: int, x: int): nat {
    if 0 <= y * cols + x < |list| then list[y * cols + x] else 0
  }

  predicate Marked(value: nat) {
    value == 1 || value == 3
  }

  predicate MarksCentre(value: nat) {
    value == 2 || value == 3
  }

  function RowLength(list: seq<nat>, rows: nat): nat {
    if rows == 0 then 0 else |list| / rows
  }

  /** What does not fill a row marks nothing: the loop would write it past the end of the matrix. */
  predicate Fits(list: seq<nat>, rows: nat) {
    forall k :: rows * RowLength(list, rows) <= k < |list| ==> !Marked(list[k]) && !MarksCentre(list[k])
  }

  /** The area shows the list: marked cells, and as the centre the last cell that asks for it. */
  ghost predicate Drawn(area: MatrixArea, list: seq<nat>, rows: nat)
    reads area, area.data
  {
    var cols := area.data.Length1;
    area.data.Length0 == rows && rows * cols <= |list|
    && (forall y, x :: area.Inside(y, x) ==> area.data[y, x] == Marked(Value(list, cols, y, x)))
    && (forall y, x :: area.Inside(y, x) && MarksCentre(Value(list, cols, y, x)) ==>
          MarksCentre(Value(list, cols, area.centerY, area.centerX)) && (y < area.centerY || (y == area.centerY && x <= area.centerX)))
    && ((forall y, x :: area.Inside(y, x) ==> !MarksCentre(Value(list, cols, y, x))) ==> area.centerY == area.centerX == 0)
  }

  /** createArea. */
  method CreateArea(list: seq<nat>, rows: nat) returns (area: MatrixArea)
    requires Fits(list, rows)
    ensures fresh(area) && fresh(area.data)
    ensures Drawn(area, list, rows) && area.CentreInside()
    ensures area.data.Length1 == RowLength(list, rows)
  {
    var cols := if rows == 0 then 0 else |list| / rows;
    if rows > 0 {
      Quotient(|list|, rows);
    }
    area := new MatrixArea(rows, cols);
    var x, y := 0, 0;
    var k := 0;
    while k < |list|
      invariant 0 <= k <= |list| && k == y * cols + x && 0 <= y && 0 <= x && (cols > 0 ==> x < cols)
      invariant fresh(area) && fresh(area.data) && area.data.Length0 == rows && area.data.Length1 == cols
      invariant forall y', x' :: area.Inside(y', x') ==>
                  area.data[y', x'] == ((y' < y || (y' == y && x' < x)) && Marked(Value(list, cols, y', x')))
      invariant rows > 0 && cols > 0 ==> area.Inside(area.centerY, area.centerX)
      invariant forall y', x' :: area.Inside(y', x') && (y' < y || (y' == y && x' < x)) && MarksCentre(Value(list, cols, y', x')) ==>
                  MarksCentre(Value(list, cols, area.centerY, area.centerX))
                  && (y' < area.centerY || (y' == area.centerY && x' <= area.centerX))
      invariant (forall y', x' :: area.Inside(y', x') && (y' < y || (y' == y && x' < x)) ==> !MarksCentre(Value(list, cols, y', x'))) ==>
                  area.centerY == area.centerX == 0
    {
      StillInside(rows, cols, y, x);
      var value := list[k];
      assert Value(list, cols, y, x) == value;
      assert Marked(value) || MarksCentre(value) ==> k < rows * cols;
      if value == 1 || value == 3 {
        area.SetValue(y, x, true);
      }
      if value == 2 || value == 3 {
        area.SetCenter(y, x);
      }
      x := x + 1;
      AddProducts(y, 1, cols);
      if cols == x {
        x := 0;
        y := y + 1;
      }
      k := k + 1;
    }
    AllDone(rows, cols, y, x);
  }

  lemma StillInside(rows: nat, cols: nat, y: nat, x: nat)
    requires cols > 0 ==> x < cols
    ensures y * cols + x < rows * cols ==> cols > 0 && y < rows
  {
    if cols > 0 {
      Order(cols, y, rows);
    }
  }

  lemma AllDone(rows: nat, cols: nat, y: nat, x: nat)
    requires y * cols + x >= rows * cols && (cols > 0 ==> x < cols)
    ensures cols > 0 ==> y >= rows
  {
    if cols > 0 {
      Order(cols, y, rows);
    }
  }

  /** The areas of the diagonals, from the one to the north-west; surplus is how many more columns than
      rows it has. */
  ghost predicate Diagonal(nw: set<Offset>, ne: set<Offset>, sw: set<Offset>, se: set<Offset>, surplus: int) {
    ne == Copied(Mirror, nw, surplus) && sw == Copied(Flip, nw, surplus) && se == Copied(Mirror, sw, 0)
  }

  /** The copies for the other three diagonals. */
  method Diagonals(area: MatrixArea, maxOutput: nat) returns (neArea: MatrixArea, swArea: MatrixArea, seArea: MatrixArea)
    requires maxOutput == 2 * Max(area.data.Length1, area.data.Length0)
    ensures fresh(neArea) && fresh(swArea) && fresh(seArea)
    ensures Diagonal(area.Offsets(), neArea.Offsets(), swArea.Offsets(), seArea.Offsets(), area.data.Length1 - area.data.Length0)
  {
    hide Copied;
    neArea := NewCopy(area, maxOutput, Mirror);
    swArea := NewCopy(area, maxOutput, Flip);
    seArea := NewCopy(swArea, maxOutput, Mirror);
  }

  method CreateDiagonals(list: seq<nat>, rows: nat) returns (area: MatrixArea, neArea: MatrixArea, swArea: MatrixArea, seArea: MatrixArea)
    requires Fits(list, rows)
    ensures fresh(area) && fresh(area.data) && Drawn(area, list, rows)
    ensures area.data.Length1 == RowLength(list, rows) && area.CentreInside()
    ensures Diagonal(area.Offsets(), neArea.Offsets(), swArea.Offsets(), seArea.Offsets(), area.data.Length1 - area.data.Length0)
  {
    hide Diagonal, Drawn, Fits, RowLength;
    area := CreateArea(list, rows);
    var maxOutput := 2 * Max(area.data.Length1, area.data.Length0);
    neArea, swArea, seArea := Diagonals(area, maxOutput);
  }

  /** The copies for the other three straight directions. */
  method Rotations(area: MatrixArea, maxOutput: nat) returns (southArea: MatrixArea, eastArea: MatrixArea, westArea: MatrixArea)
    requires area.CentreInside() && maxOutput == 2 * Max(area.data.Length1, area.data.Length0)
    ensures fresh(southArea) && fresh(eastArea) && fresh(westArea)
    ensures southArea.Offsets() == Image(Rotate180, area.Offsets())
    ensures eastArea.Offsets() == Image(Rotate90, area.Offsets())
    ensures westArea.Offsets() == Image(Rotate270, area.Offsets())
  {
    hide Image;
    southArea := NewCopy(area, maxOutput, Rotate180);
    eastArea := NewCopy(area, maxOutput, Rotate90);
    westArea := NewCopy(area, maxOutput, Rotate270);
  }

  // ---------- all directions ----------

  class AreaCombat {
    var areas: map<Direction, MatrixArea>
    var hasExtArea: bool

    constructor ()
      ensures areas == map[] && !hasExtArea
    {
      areas, hasExtArea := map[], false;
    }

    /** One area per direction of a straight spell, each the one to the north turned about the centre. */
    ghost predicate Straight(north: MatrixArea)
      reads this, areas.Values, set a | a in areas.Values :: a.data
    {
      North in areas && areas[North] == north && East in areas && South in areas && West in areas
      && areas[East].Offsets() == Image(Rotate90, north.Offsets())
      && areas[South].Offsets() == Image(Rotate180, north.Offsets())
      && areas[West].Offsets() == Image(Rotate270, north.Offsets())
    }

    /** setupArea for a list. */
    method SetupArea(list: seq<nat>, rows: nat) returns (north: MatrixArea)
      requires Fits(list, rows)
      modifies this
      ensures hasExtArea == old(hasExtArea)
      ensures fresh(north) && Drawn(north, list, rows) && north.CentreInside()
      ensures Straight(north)
      ensures forall d :: d in old(areas) && d != North && d != East && d != South && d != West ==>
                d in areas && areas[d] == old(areas[d])
      ensures north.data.Length1 == RowLength(list, rows)
    {
      hide Image, Drawn;
      north := CreateArea(list, rows);
      var maxOutput := 2 * Max(north.data.Length1, north.data.Length0);
      var southArea, eastArea, westArea := Rotations(north, maxOutput);
      areas := areas[North := north][South := southArea][East := eastArea][West := westArea];
    }

    /** One area per diagonal, from the one to the north-west. */
    ghost predicate Slanted(northWest: MatrixArea)
      reads this, areas.Values, set a | a in areas.Values :: a.data
    {
      NorthWest in areas && areas[NorthWest] == northWest && NorthEast in areas && SouthWest in areas && SouthEast in areas
      && Diagonal(northWest.Offsets(), areas[NorthEast].Offsets(), areas[SouthWest].Offsets(), areas[SouthEast].Offsets(),
                  northWest.data.Length1 - northWest.data.Length0)
    }

    /** setupExtArea: the diagonal areas, from the one to the north-west. The one to the south-east is
        mirrored from the enlarged one to the south-west, which is square. */
    method SetupExtArea(list: seq<nat>, rows: nat) returns (northWest: MatrixArea?)
      requires Fits(list, rows)
      modifies this
      ensures (northWest == null) == (list == [])
      ensures list == [] ==> areas == old(areas) && hasExtArea == old(hasExtArea)
      ensures list != [] ==>
                hasExtArea && fresh(northWest) && Drawn(northWest, list, rows) && Slanted(northWest)
                && northWest.data.Length1 == RowLength(list, rows) && northWest.CentreInside()
      ensures forall d :: d in old(areas) && d != NorthWest && d != NorthEast && d != SouthWest && d != SouthEast ==>
                d in areas && areas[d] == old(areas[d])
    {
      if list == [] {
        return null;
      }
      hide Diagonal, Drawn, Fits, RowLength;
      var area, neArea, swArea, seArea := CreateDiagonals(list, rows);
      hasExtArea := true;
      ghost var nw, ne, sw, se := area.Offsets(), neArea.Offsets(), swArea.Offsets(), seArea.Offsets();
      areas := areas[NorthWest := area][NorthEast := neArea][SouthWest := swArea][SouthEast := seArea];
      assert nw == area.Offsets() && ne == neArea.Offsets() && sw == swArea.Offsets() && se == seArea.Offsets();
      return area;
    }

    /** getArea: the direction of the target, seen from the caster; straight unless there are diagonal
        areas. */
    function Facing(center: Position, target: Position): Direction
      reads this
    {
      var dx, dy := target.x - center.x, target.y - center.y;
      if hasExtArea && dx < 0 && dy < 0 then NorthWest
      else if hasExtArea && dx > 0 && dy < 0 then NorthEast
      else if hasExtArea && dx < 0 && dy > 0 then SouthWest
      else if hasExtArea && dx > 0 && dy > 0 then SouthEast
      else if dx < 0 then West
      else if dx > 0 then East
      else if dy < 0 then North
      else South
    }

    /** getList: the tiles in sight of the target that the area covers around it. Coordinates are 16 bits
        wide. */
    method GetList(center: Position, target: Position, sightClear: (Position, Position) -> bool) returns (tiles: seq<Position>)
      ensures Facing(center, target) !in areas ==> tiles == []
      ensures Facing(center, target) in areas ==> forall p ::
                p in tiles <==> sightClear(target, p) && exists o :: o in areas[Facing(center, target)].Offsets() && p == TileAt(target, o)
    {
      hide Listed, TileAt, Wrap16;
      tiles := [];
      var dir := Facing(center, target);
      if dir !in areas {
        return;
      }
      var area := areas[dir];
      var rows, cols := area.data.Length0, area.data.Length1;
      var tmpX, tmpY := Wrap16(target.x - area.centerX), Wrap16(target.y - area.centerY);
      NothingListed(area, target, sightClear);
      var y := 0;
      while y < rows
        invariant 0 <= y <= rows
        invariant tmpX == Wrap16(target.x - area.centerX) && tmpY == Wrap16(target.y - area.centerY + y)
        invariant forall p :: p in tiles <==> Listed(area, target, sightClear, y, 0, p)
      {
        var x := 0;
        while x < cols
          invariant 0 <= x <= cols
          invariant tmpX == Wrap16(target.x - area.centerX + x) && tmpY == Wrap16(target.y - area.centerY + y)
          invariant forall p :: p in tiles <==> Listed(area, target, sightClear, y, x, p)
        {
          var tmp := Position(tmpX, tmpY, target.z);
          ghost var before := tiles;
          assert tmp == TileAt(target, (x - area.centerX, y - area.centerY)) by { TileAtIs(target, x - area.centerX, y - area.centerY); }
          if area.data[y, x] {
            if sightClear(target, tmp) {
              tiles := [tmp] + tiles;
            }
          }
          ListedNext(area, target, sightClear, y, x);
          WrapAgain(target.x - area.centerX + x, 1);
          tmpX := Wrap16(tmpX + 1);
          x := x + 1;
        }
        WrapAgain(target.x - area.centerX + x, 0 - cols);
        tmpX := Wrap16(tmpX - cols);
        ListedRow(area, target, sightClear, y);
        WrapAgain(target.y - area.centerY + y, 1);
        tmpY := Wrap16(tmpY + 1);
        y := y + 1;
      }
      AllListed(area, target, sightClear);
    }
  }

  function TileAt(target: Position, o: Offset): Position {
    Position(Wrap16(target.x + o.0), Wrap16(target.y + o.1), target.z)
  }

  /** p stands for a marked cell before (y, x). */
  ghost predicate Listed(area: MatrixArea, target: Position, sightClear: (Position, Position) -> bool, y: int, x: int, p: Position)
    reads area, area.data
  {
    sightClear(target, p)
    && exists y', x' :: area.Inside(y', x') && (y' < y || (y' == y && x' < x)) && area.data[y', x']
                        && p == TileAt(target, (x' - area.centerX, y' - area.centerY))
  }

  lemma WrapAgain(a: int, b: int)
    ensures Wrap16(Wrap16(a) + b) == Wrap16(a + b)
  {
  }

  lemma TileAtIs(target: Position, dx: int, dy: int)
    ensures TileAt(target, (dx, dy)) == Position(Wrap16(target.x + dx), Wrap16(target.y + dy), target.z)
  {
  }

  lemma NothingListed(area: MatrixArea, target: Position, sightClear: (Position, Position) -> bool)
    ensures forall p :: !Listed(area, target, sightClear, 0, 0, p)
  {
  }

  lemma AllListed(area: MatrixArea, target: Position, sightClear: (Position, Position) -> bool)
    ensures forall p :: Listed(area, target, sightClear, area.data.Length0, 0, p) <==>
              sightClear(target, p) && exists o :: o in area.Offsets() && p == TileAt(target, o)
  {
    forall p ensures Listed(area, target, sightClear, area.data.Length0, 0, p) <==>
                       sightClear(target, p) && exists o :: o in area.Offsets() && p == TileAt(target, o)
    {
      if Listed(area, target, sightClear, area.data.Length0, 0, p) {
        var y', x' :| area.Inside(y', x') && area.data[y', x'] && p == TileAt(target, (x' - area.centerX, y' - area.centerY));
        area.OffsetsIn((x' - area.centerX, y' - area.centerY));
      }
      if o :| sightClear(target, p) && o in area.Offsets() && p == TileAt(target, o) {
        area.OffsetsIn(o);
        assert ((area.centerX + o.0) - area.centerX, (area.centerY + o.1) - area.centerY) == o;
      }
    }
  }

  lemma ListedNext(area: MatrixArea, target: Position, sightClear: (Position, Position) -> bool, y: int, x: int)
    requires area.Inside(y, x)
    ensures forall p :: Listed(area, target, sightClear, y, x + 1, p) <==>
              Listed(area, target, sightClear, y, x, p)
              || (area.data[y, x] && sightClear(target, p) && p == TileAt(target, (x - area.centerX, y - area.centerY)))
  {
    forall p | Listed(area, target, sightClear, y, x, p) ensures Listed(area, target, sightClear, y, x + 1, p) {
    }
  }

  lemma ListedRow(area: MatrixArea, target: Position, sightClear: (Position, Position) -> bool, y: int)
    ensures forall p :: Listed(area, target, sightClear, y, area.data.Length1, p) <==> Listed(area, target, sightClear, y + 1, 0, p)
  {
    forall p | Listed(area, target, sightClear, y + 1, 0, p) ensures Listed(area, target, sightClear, y, area.data.Length1, p) {
    }
  }

  // ---------- what the directions have to do with each other ----------

  /** Quarter turns: south is east turned once more, west is south turned once more, and north comes back
      after west; all four areas have the same number of cells. */
  lemma QuarterTurns(combat: AreaCombat, north: MatrixArea)
    requires combat.Straight(north)
    ensures combat.areas[South].Offsets() == Image(Rotate90, combat.areas[East].Offsets())
    ensures combat.areas[West].Offsets() == Image(Rotate90, combat.areas[South].Offsets())
    ensures north.Offsets() == Image(Rotate90, combat.areas[West].Offsets())
    ensures |combat.areas[East].Offsets()| == |combat.areas[South].Offsets()| == |combat.areas[West].Offsets()| == |north.Offsets()|
  {
    var s := north.Offsets();
    ImageThen(Rotate90, Rotate90, s);
    ImageThen(Rotate180, Rotate90, s);
    ImageThen(Rotate270, Rotate90, s);
    assert Image(Copy, s) == s;
    ImageSize(Rotate90, s);
    ImageSize(Rotate180, s);
    ImageSize(Rotate270, s);
  }

  /** The diagonal areas are the one to the north-west mirrored, flipped and both, exactly when the list is
      square or marks no cell. */
  lemma DiagonalsTurn(nw: set<Offset>, ne: set<Offset>, sw: set<Offset>, se: set<Offset>, surplus: int)
    requires Diagonal(nw, ne, sw, se, surplus)
    ensures ne == Image(Mirror, nw) <==> nw == {} || surplus == 0
    ensures sw == Image(Flip, nw) <==> nw == {} || surplus == 0
    ensures se == Image(Rotate180, nw) <==> nw == {} || surplus == 0
  {
    hide Image, Shift;
    ShiftMoves(Image(Mirror, nw), surplus, 0);
    ShiftMoves(Image(Flip, nw), 0, -surplus);
    ShiftMoves(Image(Mirror, sw), 0, 0);
    ImageSize(Mirror, nw);
    ImageSize(Flip, nw);
    ImageThen(Flip, Mirror, nw);
    MirrorInjective(sw, Image(Flip, nw));
    assert nw == {} <==> |nw| == 0;
  }

  /** A list of one row and two columns that marks its first cell, as the centre: the copies to the
      north-east and south-west are one tile off the mirrored and the flipped area. */
  method OneRowIsOff() returns (combat: AreaCombat, northWest: MatrixArea)
    ensures combat.Slanted(northWest) && northWest.Offsets() == {(0, 0)}
    ensures Image(Mirror, northWest.Offsets()) == {(0, 0)} && combat.areas[NorthEast].Offsets() == {(1, 0)}
    ensures Image(Flip, northWest.Offsets()) == {(0, 0)} && combat.areas[SouthWest].Offsets() == {(0, -1)}
  {
    hide Image, Shift, Drawn;
    combat := new AreaCombat();
    northWest := combat.SetupExtArea([3, 0], 1);
    OneCell(northWest);
    ImagesOfOneCell(northWest.Offsets(), combat.areas[NorthEast].Offsets(), combat.areas[SouthWest].Offsets(),
                    combat.areas[SouthEast].Offsets());
  }

  lemma OneCell(area: MatrixArea)
    requires Drawn(area, [3, 0], 1) && area.data.Length1 == RowLength([3, 0], 1) && area.CentreInside()
    ensures area.data.Length0 == 1 && area.data.Length1 == 2 && area.Offsets() == {(0, 0)}
  {
    assert Value([3, 0], 2, 0, 0) == 3 && Value([3, 0], 2, 0, 1) == 0;
    assert area.Inside(0, 0) && area.Inside(0, 1);
    forall p ensures p in area.Offsets() <==> p == (0, 0) {
      area.OffsetsIn(p);
    }
  }

  lemma ImagesOfOneCell(nw: set<Offset>, ne: set<Offset>, sw: set<Offset>, se: set<Offset>)
    requires Diagonal(nw, ne, sw, se, 1) && nw == {(0, 0)}
    ensures Image(Mirror, nw) == {(0, 0)} && ne == {(1, 0)}
    ensures Image(Flip, nw) == {(0, 0)} && sw == {(0, -1)}
  {
    hide Image, Shift;
    OneTurned(Mirror, (0, 0));
    OneTurned(Flip, (0, 0));
    OneShifted((0, 0), 1, 0);
    OneShifted((0, 0), 0, -1);
  }

  lemma OneTurned(op: MatrixOperation, p: Offset)
    ensures Image(op, {p}) == {Turn(op, p)}
  {
    forall q ensures q in Image(op, {p}) <==> q == Turn(op, p) {
    }
  }

  lemma OneShifted(p: Offset, dx: int, dy: int)
    ensures Shift({p}, dx, dy) == {(p.0 + dx, p.1 + dy)}
  {
    forall q ensures q in Shift({p}, dx, dy) <==> q == (p.0 + dx, p.1 + dy) {
      ShiftIn({p}, dx, dy, q);
    }
  }

  lemma MirrorInjective(s: set<Offset>, t: set<Offset>)
    ensures Image(Mirror, s) == Image(Mirror, t) <==> s == t
  {
    if Image(Mirror, s) == Image(Mirror, t) {
      forall p ensures p in s <==> p in t {
        ImageIn(Mirror, s, Turn(Mirror, p));
        ImageIn(Mirror, t, Turn(Mirror, p));
      }
    }
  }
}
