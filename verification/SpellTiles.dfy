/** Which tiles a spell covers, seen from the coordinates of caster and target: from the lists a spell is set
    up with to the tiles of one cast. */
module SpellTiles {
  import opened AreaMatrix
  import opened AreaCombat

  /** Caster and target differ in both coordinates. */
  predicate Diagonally(center: Position, target: Position) {
    target.x != center.x && target.y != center.y
  }

  /** The tile that the offset (x, y) of an area drawn to the north stands for: the area points away from the
      caster. */
  function StraightTile(center: Position, target: Position, x: int, y: int): Position {
    if target.x < center.x then Position((target.x + y) % 0x1_0000, (target.y - x) % 0x1_0000, target.z)
    else if target.x > center.x then Position((target.x - y) % 0x1_0000, (target.y + x) % 0x1_0000, target.z)
    else if target.y < center.y then Position((target.x + x) % 0x1_0000, (target.y + y) % 0x1_0000, target.z)
    else Position((target.x - x) % 0x1_0000, (target.y - y) % 0x1_0000, target.z)
  }

  /** The same for an area drawn to the north-west; surplus is how many more columns than rows it has. */
  function SlantedTile(center: Position, target: Position, x: int, y: int, surplus: int): Position {
    if target.x < center.x && target.y < center.y then
      Position((target.x + x) % 0x1_0000, (target.y + y) % 0x1_0000, target.z)
    else if target.y < center.y then
      Position((target.x - x + surplus) % 0x1_0000, (target.y + y) % 0x1_0000, target.z)
    else if target.x < center.x then
      Position((target.x + x) % 0x1_0000, (target.y - y - surplus) % 0x1_0000, target.z)
    else
      Position((target.x - x) % 0x1_0000, (target.y - y - surplus) % 0x1_0000, target.z)
  }

  /** A spell with an area drawn to the north, and perhaps one drawn to the north-west, is set up and cast. */
  method Cast(list: seq<nat>, rows: nat, extList: seq<nat>, extRows: nat, center: Position, target: Position,
              sightClear: (Position, Position) -> bool)
    returns (north: MatrixArea, northWest: MatrixArea?, tiles: seq<Position>)
    requires Fits(list, rows) && Fits(extList, extRows)
    ensures Drawn(north, list, rows) && north.CentreInside() && north.data.Length1 == RowLength(list, rows) && (northWest == null <==> extList == [])
    ensures northWest != null ==> Drawn(northWest, extList, extRows)
    ensures !(northWest != null && Diagonally(center, target)) ==>
              forall p :: p in tiles <==>
                sightClear(target, p) && exists o :: o in north.Offsets() && p == StraightTile(center, target, o.0, o.1)
    ensures northWest != null && Diagonally(center, target) ==>
              forall p :: p in tiles <==>
                sightClear(target, p)
                && exists o :: (o in northWest.Offsets()
                                && p == SlantedTile(center, target, o.0, o.1, northWest.data.Length1 - northWest.data.Length0))
  {
    hide Drawn, Fits, Image, Diagonal, TileAt, StraightTile, SlantedTile;
    var combat := new AreaCombat();
    north := combat.SetupArea(list, rows);
    ghost var areas := combat.areas;
    northWest := combat.SetupExtArea(extList, extRows);
    tiles := combat.GetList(center, target, sightClear);
    if northWest != null && Diagonally(center, target) {
      Slants(combat, northWest, center, target, sightClear, tiles);
    } else {
      Straightens(combat, north, center, target, sightClear, tiles);
    }
  }

  /** What GetList promises. */
  ghost predicate Listing(combat: AreaCombat, center: Position, target: Position, sightClear: (Position, Position) -> bool, tiles: seq<Position>)
    reads combat, combat.areas.Values, set a | a in combat.areas.Values :: a.data
  {
    var dir := combat.Facing(center, target);
    dir in combat.areas && forall p ::
      p in tiles <==> sightClear(target, p) && Hit(combat.areas[dir].Offsets(), target, p)
  }

  /** The area around the target covers p. */
  ghost predicate Hit(area: set<Offset>, target: Position, p: Position) {
    exists o :: o in area && p == TileAt(target, o)
  }

  lemma Straightens(combat: AreaCombat, north: MatrixArea, center: Position, target: Position,
                    sightClear: (Position, Position) -> bool, tiles: seq<Position>)
    requires combat.Straight(north) && (combat.hasExtArea ==> !Diagonally(center, target))
    requires Listing(combat, center, target, sightClear, tiles)
    ensures forall p :: p in tiles <==>
              sightClear(target, p) && exists o :: o in north.Offsets() && p == StraightTile(center, target, o.0, o.1)
  {
    var op := if target.x < center.x then Rotate270 else if target.x > center.x then Rotate90
              else if target.y < center.y then Copy else Rotate180;
    var dir := combat.Facing(center, target);
    CopiesItself(north.Offsets());
    assert combat.areas[dir].Offsets() == Image(op, north.Offsets());
    forall p
      ensures p in tiles <==>
                sightClear(target, p) && exists o :: o in north.Offsets() && p == StraightTile(center, target, o.0, o.1)
    {
      TurnedTiles(op, north.Offsets(), center, target, p);
    }
  }

  lemma CopiesItself(s: set<Offset>)
    ensures Image(Copy, s) == s
  {
  }

  lemma TurnedTiles(op: MatrixOperation, s: set<Offset>, center: Position, target: Position, p: Position)
    requires op == if target.x < center.x then Rotate270 else if target.x > center.x then Rotate90
                   else if target.y < center.y then Copy else Rotate180
    ensures Hit(Image(op, s), target, p) <==>
            exists o :: o in s && p == StraightTile(center, target, o.0, o.1)
  {
    if o :| o in Image(op, s) && p == TileAt(target, o) {
      var q :| q in s && Turn(op, q) == o;
      assert p == StraightTile(center, target, q.0, q.1);
    }
    if o :| o in s && p == StraightTile(center, target, o.0, o.1) {
      assert Turn(op, o) in Image(op, s) && p == TileAt(target, Turn(op, o));
    }
  }

  lemma Slants(combat: AreaCombat, northWest: MatrixArea, center: Position, target: Position,
               sightClear: (Position, Position) -> bool, tiles: seq<Position>)
    requires combat.Slanted(northWest) && combat.hasExtArea && Diagonally(center, target)
    requires Listing(combat, center, target, sightClear, tiles)
    ensures forall p :: p in tiles <==>
              sightClear(target, p)
              && exists o :: (o in northWest.Offsets()
                              && p == SlantedTile(center, target, o.0, o.1, northWest.data.Length1 - northWest.data.Length0))
  {
    var surplus := northWest.data.Length1 - northWest.data.Length0;
    var nw, ne, sw, se := northWest.Offsets(), combat.areas[NorthEast].Offsets(), combat.areas[SouthWest].Offsets(),
                          combat.areas[SouthEast].Offsets();
    var area := combat.areas[combat.Facing(center, target)].Offsets();
    assert area == if target.x < center.x && target.y < center.y then nw else if target.y < center.y then ne
                   else if target.x < center.x then sw else se;
    hide SlantedTile, TileAt, Diagonal;
    forall p
      ensures p in tiles <==>
                sightClear(target, p) && exists o :: o in nw && p == SlantedTile(center, target, o.0, o.1, surplus)
    {
      if target.x < center.x && target.y < center.y {
        NorthWestTiles(nw, center, target, p, surplus);
      } else {
        SlantedTiles(nw, ne, sw, se, center, target, p, surplus);
      }
    }
  }

  lemma NorthWestTiles(nw: set<Offset>, center: Position, target: Position, p: Position, surplus: int)
    requires target.x < center.x && target.y < center.y
    ensures Hit(nw, target, p) <==>
            exists o :: o in nw && p == SlantedTile(center, target, o.0, o.1, surplus)
  {
    forall o | o in nw
      ensures TileAt(target, o) == SlantedTile(center, target, o.0, o.1, surplus)
    {
    }
  }

  lemma SlantedTiles(nw: set<Offset>, ne: set<Offset>, sw: set<Offset>, se: set<Offset>, center: Position, target: Position,
                     p: Position, surplus: int)
    requires Diagonal(nw, ne, sw, se, surplus) && Diagonally(center, target) && (target.x > center.x || target.y > center.y)
    ensures var area := if target.y < center.y then ne else if target.x < center.x then sw else se;
            Hit(area, target, p) <==>
            exists o :: o in nw && p == SlantedTile(center, target, o.0, o.1, surplus)
  {
    var area := if target.y < center.y then ne else if target.x < center.x then sw else se;
    forall o
      ensures o in area <==> From(center, target, o, surplus) in nw
    {
      FromIs(nw, ne, sw, se, center, target, o, surplus);
    }
    forall o
      ensures TileAt(target, o) == SlantedTile(center, target, From(center, target, o, surplus).0, From(center, target, o, surplus).1, surplus)
    {
    }
    if o :| o in nw && p == SlantedTile(center, target, o.0, o.1, surplus) {
      var moved := if target.y < center.y then (-o.0 + surplus, o.1)
                   else if target.x < center.x then (o.0, -o.1 - surplus) else (-o.0, -o.1 - surplus);
      assert From(center, target, moved, surplus) == o;
      assert moved in area && p == TileAt(target, moved);
    }
  }

  /** The offset to the north-west that an offset in another direction comes from. */
  function From(center: Position, target: Position, o: Offset, surplus: int): Offset {
    if target.y < center.y then (surplus - o.0, o.1)
    else if target.x < center.x then (o.0, -o.1 - surplus)
    else (-o.0, -o.1 - surplus)
  }

  lemma FromIs(nw: set<Offset>, ne: set<Offset>, sw: set<Offset>, se: set<Offset>, center: Position, target: Position, o: Offset, surplus: int)
    requires Diagonal(nw, ne, sw, se, surplus)
    ensures var area := if target.y < center.y then ne else if target.x < center.x then sw else se;
            o in area <==> From(center, target, o, surplus) in nw
  {
    hide Image, Shift;
    ShiftIn(Image(Mirror, nw), surplus, 0, o);
    ImageIn(Mirror, nw, (o.0 - surplus, o.1));
    FlippedIs(nw, sw, o, surplus);
    ShiftIn(Image(Mirror, sw), 0, 0, o);
    ImageIn(Mirror, sw, o);
    FlippedIs(nw, sw, (-o.0, o.1), surplus);
  }

  lemma FlippedIs(nw: set<Offset>, sw: set<Offset>, o: Offset, surplus: int)
    requires sw == Copied(Flip, nw, surplus)
    ensures o in sw <==> (o.0, -o.1 - surplus) in nw
  {
    hide Image, Shift;
    ShiftIn(Image(Flip, nw), 0, -surplus, o);
    ImageIn(Flip, nw, (o.0, o.1 + surplus));
  }

  /** A wave of three tiles cast at the tile west of the caster covers the three tiles to the west. */
  method WaveToTheWest(sightClear: (Position, Position) -> bool) returns (tiles: seq<Position>)
    ensures forall p :: p in tiles <==> sightClear(Position(99, 100, 7), p) && 97 <= p.x <= 99 && p.y == 100 && p.z == 7
  {
    var north, _, covered := Cast([1, 1, 3], 3, [], 0, Position(100, 100, 7), Position(99, 100, 7), sightClear);
    hide Drawn, StraightTile, MatrixArea.Offsets;
    tiles := covered;
    WaveOffsets(north);
    forall p
      ensures p in tiles <==> sightClear(Position(99, 100, 7), p) && 97 <= p.x <= 99 && p.y == 100 && p.z == 7
    {
      WaveTiles(north.Offsets(), p);
    }
  }

  lemma WaveTiles(s: set<Offset>, p: Position)
    requires forall o :: o in s <==> o.0 == 0 && -2 <= o.1 <= 0
    ensures (exists o :: o in s && p == StraightTile(Position(100, 100, 7), Position(99, 100, 7), o.0, o.1)) <==>
            97 <= p.x <= 99 && p.y == 100 && p.z == 7
  {
    if p.y == 100 && p.z == 7 && 97 <= p.x <= 99 {
      var o := (0, p.x - 99);
      assert o in s && p == StraightTile(Position(100, 100, 7), Position(99, 100, 7), o.0, o.1);
    }
  }

  lemma WaveOffsets(area: MatrixArea)
    requires Drawn(area, [1, 1, 3], 3) && area.CentreInside() && area.data.Length1 == RowLength([1, 1, 3], 3)
    ensures forall o :: o in area.Offsets() <==> o.0 == 0 && -2 <= o.1 <= 0
  {
    var list: seq<nat> := [1, 1, 3];
    assert Value(list, 1, 0, 0) == 1 && Value(list, 1, 1, 0) == 1 && Value(list, 1, 2, 0) == 3;
    assert area.Inside(0, 0) && area.Inside(1, 0) && area.Inside(2, 0);
    assert area.centerY == 2 && area.centerX == 0;
    forall o ensures o in area.Offsets() <==> o.0 == 0 && -2 <= o.1 <= 0 {
      area.OffsetsIn(o);
    }
  }

  /** A list draws one area only: the same cells around the same centre. */
  lemma DrawnOnce(a: MatrixArea, b: MatrixArea, list: seq<nat>, rows: nat)
    requires Drawn(a, list, rows) && a.CentreInside() && a.data.Length1 == RowLength(list, rows)
    requires Drawn(b, list, rows) && b.CentreInside() && b.data.Length1 == RowLength(list, rows)
    ensures a.centerY == b.centerY && a.centerX == b.centerX
    ensures forall y, x :: a.Inside(y, x) ==> a.data[y, x] == b.data[y, x]
  {
    hide Value, MarksCentre, RowLength;
    assert forall y, x :: a.Inside(y, x) <==> b.Inside(y, x);
    if y, x :| a.Inside(y, x) && MarksCentre(Value(list, a.data.Length1, y, x)) {
      assert b.Inside(a.centerY, a.centerX) && a.Inside(b.centerY, b.centerX);
    }
  }

  /** A centre that is not covered itself: in the list 1, 2 of one row only the tile beside it is. */
  lemma BesideCentre(area: MatrixArea)
    requires Drawn(area, [1, 2], 1) && area.CentreInside() && area.data.Length1 == RowLength([1, 2], 1)
    ensures forall o :: o in area.Offsets() <==> o == (-1, 0)
  {
    var list: seq<nat> := [1, 2];
    assert Value(list, 2, 0, 0) == 1 && Value(list, 2, 0, 1) == 2;
    assert area.Inside(0, 0) && area.Inside(0, 1);
    assert area.centerY == 0 && area.centerX == 1;
    forall o ensures o in area.Offsets() <==> o == (-1, 0) {
      area.OffsetsIn(o);
    }
  }
}
