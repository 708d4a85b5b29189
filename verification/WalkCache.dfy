/** The walk cache of a creature: a window of walkability bits around it, shifted in place on every
    step instead of being read anew. */
module WalkCache {

  datatype Position = Position(x: int, y: int, z: int)

  /** Which tiles the creature may walk on right now: tile && tile->queryAdd(...) == NOERROR. */
  type World = Position -> bool

  function Wrap16(v: int): int {
    v % 0x1_0000
  }

  predicate OnMap(p: Position) {
    0 <= p.x < 0x1_0000 && 0 <= p.y < 0x1_0000
  }

  function Abs(v: int): nat {
    if v < 0 then -v else v
  }

  /** The position that cell (row, col) of the window around `at` stands for. */
  function CellPosition(at: Position, height: nat, width: nat, row: int, col: int): Position {
    Position(at.x + col - width, at.y + row - height, at.z)
  }

  /** The tile the refresh loops look up for it: coordinates are 16 bits wide. */
  function Looked(p: Position): Position {
    Position(Wrap16(p.x), Wrap16(p.y), p.z)
  }

  /** Where the bit of a cell comes from after a step. */
  datatype Source = FromWorld(row: int, col: int) | FromCell(row: int, col: int)

  /** After the vertical part: rows move against the step and the row that comes into view is read. */
  function VerticalSource(rows: nat, dy: int, row: int, col: int): Source {
    if dy < 0 then (if row == 0 then FromWorld(row, col) else FromCell(row - 1, col))
    else if dy > 0 then (if row == rows - 1 then FromWorld(row, col) else FromCell(row + 1, col))
    else FromCell(row, col)
  }

  /** In the horizontal part, columns move against the step and the column that comes into view is read.
      The rows above the vertical distance are not shifted: the distance is a magnitude, so this is the
      same for steps up and steps down. */
  function HorizontalSource(cols: nat, dx: int, dy: int, row: int, col: int): Source {
    if dx > 0 then (if col == cols - 1 then FromWorld(row, col) else FromCell(row, if row >= Abs(dy) then col + 1 else col))
    else if dx < 0 then (if col == 0 then FromWorld(row, col) else FromCell(row, if row >= Abs(dy) then col - 1 else col))
    else FromCell(row, col)
  }

  /** After both parts. */
  function StepSource(rows: nat, cols: nat, dx: int, dy: int, row: int, col: int): Source {
    match HorizontalSource(cols, dx, dy, row, col)
    case FromWorld(r, c) => FromWorld(r, c)
    case FromCell(r, c) => VerticalSource(rows, dy, r, c)
  }

  /** The source stands for the same tile as the cell it ends up in. */
  predicate Faithful(s: Source, dx: int, dy: int, row: int, col: int) {
    match s
    case FromWorld(r, c) => r == row && c == col
    case FromCell(r, c) => r == row + dy && c == col + dx
  }

  predicate InWindow(rows: nat, cols: nat, row: int, col: int) {
    0 <= row < rows && 0 <= col < cols
  }

  /** A step refreshes the window correctly in every cell exactly when it is not a diagonal step to the
      south; then exactly the first and the last row go wrong, the column coming into view aside. */
  lemma StepFaithful(height: nat, width: nat, dx: int, dy: int, row: int, col: int)
    requires height > 0 && width > 0 && -1 <= dx <= 1 && -1 <= dy <= 1
    requires InWindow(2 * height + 1, 2 * width + 1, row, col)
    ensures var rows, cols := 2 * height + 1, 2 * width + 1;
            Faithful(StepSource(rows, cols, dx, dy, row, col), dx, dy, row, col) <==>
            !(dy == 1 && dx != 0 && (row == 0 || row == rows - 1) && col != (if dx > 0 then cols - 1 else 0))
  {
  }

  /** Outside the diagonal steps to the south, a bit that is carried over stands for the same tile. */
  lemma StandsForTheSameTile(height: nat, width: nat, from: Position, to: Position, row: int, col: int)
    requires height > 0 && width > 0 && Neighbours(from, to) && !SouthDiagonal(from, to)
    requires InWindow(2 * height + 1, 2 * width + 1, row, col)
    ensures match StepSource(2 * height + 1, 2 * width + 1, to.x - from.x, to.y - from.y, row, col)
            case FromWorld(r, c) => r == row && c == col &&
              (OnMap(CellPosition(to, height, width, row, col)) ==>
                 Looked(CellPosition(to, height, width, row, col)) == CellPosition(to, height, width, row, col))
            case FromCell(r, c) => InWindow(2 * height + 1, 2 * width + 1, r, c)
                                   && CellPosition(from, height, width, r, c) == CellPosition(to, height, width, row, col)
  {
    StepFaithful(height, width, to.x - from.x, to.y - from.y, row, col);
  }

  lemma HorizontalStays(rows: nat, cols: nat, dx: int, dy: int)
    ensures forall row, col :: InWindow(rows, cols, row, col) && HorizontalSource(cols, dx, dy, row, col).FromCell? ==>
              InWindow(rows, cols, HorizontalSource(cols, dx, dy, row, col).row, HorizontalSource(cols, dx, dy, row, col).col)
  {
  }

  class Creature {
    const height: nat
    const width: nat
    const usesCache: bool
    var position: Position
    var isMapLoaded: bool
    var cache: array2<bool>

    ghost predicate Valid()
      reads this
    {
      height > 0 && width > 0 && cache.Length0 == 2 * height + 1 && cache.Length1 == 2 * width + 1
    }

    constructor (height: nat, width: nat, usesCache: bool, at: Position)
      requires height > 0 && width > 0
      ensures Valid() && !isMapLoaded && position == at && fresh(cache)
      ensures this.height == height && this.width == width && this.usesCache == usesCache
      ensures forall r, c :: InWindow(cache.Length0, cache.Length1, r, c) ==> !cache[r, c]
    {
      this.height, this.width, this.usesCache := height, width, usesCache;
      position, isMapLoaded := at, false;
      cache := new bool[2 * height + 1, 2 * width + 1]((r, c) => false);
    }

    ghost function At(r: int, c: int): Position
      reads this
    {
      CellPosition(position, height, width, r, c)
    }

    /** Every cell of the window around `at` that lies on the map, other than the creature's own, agrees
        with the world: what a full refresh would leave there. */
    ghost predicate AgreesAt(at: Position, w: World)
      requires Valid()
      reads this, cache
    {
      forall r, c :: InWindow(cache.Length0, cache.Length1, r, c)
                     && OnMap(CellPosition(at, height, width, r, c)) && CellPosition(at, height, width, r, c) != at ==>
        cache[r, c] == w(CellPosition(at, height, width, r, c))
    }

    ghost predicate Agrees(w: World)
      requires Valid()
      reads this, cache
    {
      AgreesAt(position, w)
    }

    /** updateTileCache with offsets. */
    method UpdateTileCacheAt(walkable: bool, dx: int, dy: int)
      requires Valid()
      modifies cache
      ensures forall r, c :: InWindow(cache.Length0, cache.Length1, r, c) ==>
                cache[r, c] == if r == height + dy && c == width + dx then walkable else old(cache[r, c])
    {
      if Abs(dx) <= width && Abs(dy) <= height {
        cache[height + dy, width + dx] := walkable;
      }
    }

    /** updateTileCache with a position. */
    method UpdateTileCache(walkable: bool, pos: Position)
      requires Valid()
      modifies cache
      ensures forall r, c :: InWindow(cache.Length0, cache.Length1, r, c) ==>
                cache[r, c] == if At(r, c) == pos then walkable else old(cache[r, c])
    {
      if pos.z == position.z {
        UpdateTileCacheAt(walkable, pos.x - position.x, pos.y - position.y);
      }
    }

    /** updateMapCache. Positions off the map wrap around to the other side of it, where they are too
        far away for the window, so their cells stay as they were. */
    method UpdateMapCache(w: World)
      requires Valid() && OnMap(position)
      requires height < 0x8000 && width < 0x8000
      modifies cache
      ensures Agrees(w)
      ensures forall r, c :: InWindow(cache.Length0, cache.Length1, r, c) ==>
                cache[r, c] == if OnMap(At(r, c)) then w(At(r, c)) else old(cache[r, c])
    {
      var y := 0 - height;
      while y <= height
        invariant 0 - height <= y <= height + 1
        invariant forall r, c :: InWindow(cache.Length0, cache.Length1, r, c) ==>
                    cache[r, c] == if r < height + y && OnMap(At(r, c)) then w(At(r, c)) else old(cache[r, c])
      {
        var x := 0 - width;
        while x <= width
          invariant 0 - width <= x <= width + 1
          invariant forall r, c :: InWindow(cache.Length0, cache.Length1, r, c) ==>
                      cache[r, c] == if (r < height + y || (r == height + y && c < width + x)) && OnMap(At(r, c))
                                     then w(At(r, c)) else old(cache[r, c])
        {
          var pos := Position(Wrap16(position.x + x), Wrap16(position.y + y), position.z);
          WrapsFar(position.x, x, width);
          WrapsFar(position.y, y, height);
          UpdateTileCache(w(pos), pos);
          x := x + 1;
        }
        y := y + 1;
      }
    }

    // ---------- the shifts of onCreatureMove ----------

    /** A step north: rows move down, last first. */
    method ShiftSouth()
      requires Valid()
      modifies cache
      ensures forall r, c :: InWindow(cache.Length0, cache.Length1, r, c) ==>
                cache[r, c] == if r == 0 then old(cache[r, c]) else old(cache[r - 1, c])
    {
      var y := cache.Length0 - 1;
      while y > 0
        invariant 0 <= y <= cache.Length0 - 1
        invariant forall r, c :: InWindow(cache.Length0, cache.Length1, r, c) ==>
                    cache[r, c] == if r <= y then old(cache[r, c]) else old(cache[r - 1, c])
      {
        y := y - 1;
        forall c | 0 <= c < cache.Length1 {
          cache[y + 1, c] := cache[y, c];
        }
      }
    }

    /** A step south: rows move up, first first. */
    method ShiftNorth()
      requires Valid()
      modifies cache
      ensures forall r, c :: InWindow(cache.Length0, cache.Length1, r, c) ==>
                cache[r, c] == if r == cache.Length0 - 1 then old(cache[r, c]) else old(cache[r + 1, c])
    {
      var y := 0;
      while y <= cache.Length0 - 2
        invariant 0 <= y <= cache.Length0 - 1
        invariant forall r, c :: InWindow(cache.Length0, cache.Length1, r, c) ==>
                    cache[r, c] == if r >= y then old(cache[r, c]) else old(cache[r + 1, c])
      {
        forall c | 0 <= c < cache.Length1 {
          cache[y, c] := cache[y + 1, c];
        }
        y := y + 1;
      }
    }

    /** Reads the row that has come into view. */
    method FillRow(w: World, dy: int)
      requires Valid() && Abs(dy) <= height
      modifies cache
      ensures forall r, c :: InWindow(cache.Length0, cache.Length1, r, c) ==>
                cache[r, c] == if r == height + dy then w(Looked(At(r, c))) else old(cache[r, c])
    {
      var x := 0 - width;
      while x <= width
        invariant 0 - width <= x <= width + 1
        invariant forall r, c :: InWindow(cache.Length0, cache.Length1, r, c) ==>
                    cache[r, c] == if r == height + dy && c < width + x then w(Looked(At(r, c))) else old(cache[r, c])
      {
        UpdateTileCacheAt(w(Position(Wrap16(position.x + x), Wrap16(position.y + dy), position.z)), x, dy);
        x := x + 1;
      }
    }

    /** A step east: in the rows from starty on, columns move left. */
    method ShiftWest(starty: nat)
      requires Valid()
      modifies cache
      ensures forall r, c :: InWindow(cache.Length0, cache.Length1, r, c) ==>
                cache[r, c] == if r < starty || c == cache.Length1 - 1 then old(cache[r, c]) else old(cache[r, c + 1])
    {
      var y := starty;
      while y <= cache.Length0 - 1
        invariant y >= starty
        invariant forall r, c :: InWindow(cache.Length0, cache.Length1, r, c) ==>
                    cache[r, c] == if r < starty || r >= y || c == cache.Length1 - 1 then old(cache[r, c]) else old(cache[r, c + 1])
        decreases cache.Length0 - y
      {
        var x := 0;
        while x <= cache.Length1 - 2
          invariant 0 <= x <= cache.Length1 - 1
          invariant forall r, c :: InWindow(cache.Length0, cache.Length1, r, c) ==>
                      cache[r, c] == if r < starty || r > y || (r == y && c >= x) || c == cache.Length1 - 1
                                     then old(cache[r, c]) else old(cache[r, c + 1])
        {
          cache[y, x] := cache[y, x + 1];
          x := x + 1;
        }
        y := y + 1;
      }
    }

    /** A step west: in the rows from starty on, columns move right. */
    method ShiftEast(starty: nat)
      requires Valid()
      modifies cache
      ensures forall r, c :: InWindow(cache.Length0, cache.Length1, r, c) ==>
                cache[r, c] == if r < starty || c == 0 then old(cache[r, c]) else old(cache[r, c - 1])
    {
      var y := starty;
      while y <= cache.Length0 - 1
        invariant y >= starty
        invariant forall r, c :: InWindow(cache.Length0, cache.Length1, r, c) ==>
                    cache[r, c] == if r < starty || r >= y || c == 0 then old(cache[r, c]) else old(cache[r, c - 1])
        decreases cache.Length0 - y
      {
        var x := cache.Length1 - 1;
        while x > 0
          invariant 0 <= x <= cache.Length1 - 1
          invariant forall r, c :: InWindow(cache.Length0, cache.Length1, r, c) ==>
                      cache[r, c] == if r < starty || r > y || (r == y && c <= x) || c == 0
                                     then old(cache[r, c]) else old(cache[r, c - 1])
        {
          x := x - 1;
          cache[y, x + 1] := cache[y, x];
        }
        y := y + 1;
      }
    }

    /** Reads the column that has come into view. */
    method FillColumn(w: World, dx: int)
      requires Valid() && Abs(dx) <= width
      modifies cache
      ensures forall r, c :: InWindow(cache.Length0, cache.Length1, r, c) ==>
                cache[r, c] == if c == width + dx then w(Looked(At(r, c))) else old(cache[r, c])
    {
      var y := 0 - height;
      while y <= height
        invariant 0 - height <= y <= height + 1
        invariant forall r, c :: InWindow(cache.Length0, cache.Length1, r, c) ==>
                    cache[r, c] == if c == width + dx && r < height + y then w(Looked(At(r, c))) else old(cache[r, c])
      {
        UpdateTileCacheAt(w(Position(Wrap16(position.x + dx), Wrap16(position.y + y), position.z)), dx, y);
        y := y + 1;
      }
    }

    /** The value a source stands for, with the cells as they were before. */
    twostate function Value(w: World, s: Source): bool
      reads this
    {
      match s
      case FromWorld(r, c) => w(Looked(At(r, c)))
      case FromCell(r, c) => InWindow(old(cache).Length0, old(cache).Length1, r, c) && old(cache[r, c])
    }

    method ShiftVertically(w: World, oldPos: Position)
      requires Valid()
      modifies cache
      ensures forall r, c :: InWindow(cache.Length0, cache.Length1, r, c) ==>
                cache[r, c] == Value(w, VerticalSource(cache.Length0, position.y - oldPos.y, r, c))
    {
      if oldPos.y > position.y {
        ShiftSouth();
        FillRow(w, 0 - height);
      } else if oldPos.y < position.y {
        ShiftNorth();
        FillRow(w, height);
      }
    }

    method ShiftHorizontally(w: World, oldPos: Position)
      requires Valid()
      modifies cache
      ensures forall r, c :: InWindow(cache.Length0, cache.Length1, r, c) ==>
                cache[r, c] == Value(w, HorizontalSource(cache.Length1, position.x - oldPos.x,
                                                                       position.y - oldPos.y, r, c))
    {
      var dy := Abs(oldPos.y - position.y);
      if oldPos.x < position.x {
        ShiftWest(dy);
        FillColumn(w, width);
      } else if oldPos.x > position.x {
        ShiftEast(dy);
        FillColumn(w, 0 - width);
      }
    }

    /** What a step leaves in the window: every bit comes from its source, and the tile left behind is
        read anew. */
    twostate predicate StepTaken(w: World, oldPos: Position)
      requires Valid()
      reads this, cache
    {
      forall r, c :: InWindow(cache.Length0, cache.Length1, r, c) ==>
        cache[r, c] == if At(r, c) == oldPos then w(oldPos)
                       else Value(w, StepSource(cache.Length0, cache.Length1,
                                  position.x - oldPos.x, position.y - oldPos.y, r, c))
    }

    /** The same-floor branch of onCreatureMove: two shifts, two refreshed edges, and the tile left
        behind. */
    method ShiftCache(w: World, oldPos: Position)
      requires Valid() && oldPos.z == position.z
      modifies cache
      ensures StepTaken(w, oldPos)
    {
      hide VerticalSource, HorizontalSource;
      ShiftVertically(w, oldPos);
      HorizontalStays(cache.Length0, cache.Length1, position.x - oldPos.x, position.y - oldPos.y);
      ShiftHorizontally(w, oldPos);
      UpdateTileCache(w(oldPos), oldPos);
    }

    /** The bits of the window as a function agree with a world exactly if the window does. */
    lemma SameCells(cells: Cells, at: Position, w: World)
      requires Valid() && forall r, c :: InWindow(cache.Length0, cache.Length1, r, c) ==> cells(r, c) == cache[r, c]
      ensures AgreesAt(at, w) <==> CellsAgree(cells, height, width, at, w)
    {
    }

    // ---------- the notifications ----------

    /** onCreatureAppear for the creature itself. */
    method OnAppear(w: World)
      requires Valid() && OnMap(position) && height < 0x8000 && width < 0x8000
      modifies this`isMapLoaded, cache
      ensures isMapLoaded == (old(isMapLoaded) || usesCache)
      ensures usesCache ==> Agrees(w)
    {
      if usesCache {
        isMapLoaded := true;
        UpdateMapCache(w);
      }
    }

    /** The refinement step: shifting agrees with refreshing. */
    method Follow(w: World, oldPos: Position, ghost w0: World)
      requires Valid() && oldPos.z == position.z
      modifies cache
      ensures (Neighbours(oldPos, position) && !SouthDiagonal(oldPos, position)
               && old(AgreesAt(oldPos, w0)) && SameExcept(w0, w, oldPos, position)) ==> Agrees(w)
    {
      hide StepSource, Neighbours, SouthDiagonal, Looked, OnMap, CellPosition;
      ShiftCache(w, oldPos);
      if Neighbours(oldPos, position) && !SouthDiagonal(oldPos, position) && old(AgreesAt(oldPos, w0)) && SameExcept(w0, w, oldPos, position) {
        forall r, c | InWindow(cache.Length0, cache.Length1, r, c) && OnMap(At(r, c)) && At(r, c) != position
          ensures cache[r, c] == w(At(r, c))
        {
          StandsForTheSameTile(height, width, oldPos, position, r, c);
        }
      }
    }

    /** onCreatureMove for the creature itself, which already stands on the new tile. w0 is the world
        before the move, w the world after it. */
    method OnOwnMove(w: World, oldPos: Position, teleport: bool, ghost w0: World)
      requires Valid() && OnMap(position) && OnMap(oldPos) && height < 0x8000 && width < 0x8000
      modifies cache
      ensures isMapLoaded && (teleport || oldPos.z != position.z) ==> Agrees(w)
      ensures (isMapLoaded && Neighbours(oldPos, position) && !SouthDiagonal(oldPos, position)
               && old(AgreesAt(oldPos, w0)) && SameExcept(w0, w, oldPos, position)) ==> Agrees(w)
      ensures !isMapLoaded ==> forall r, c :: InWindow(cache.Length0, cache.Length1, r, c) ==> cache[r, c] == old(cache[r, c])
    {
      if isMapLoaded {
        if teleport || oldPos.z != position.z {
          UpdateMapCache(w);
        } else {
          Follow(w, oldPos, w0);
        }
      }
    }

    /** The position has a cell of its own that is not the creature's. */
    predicate InView(pos: Position)
      reads this
    {
      OnMap(pos) && pos != position && pos.z == position.z && Abs(pos.x - position.x) <= width && Abs(pos.y - position.y) <= height
    }

    /** onAddTileItem, onUpdateTileItem, onRemoveTileItem, and another creature appearing or leaving. The
        window still agrees afterwards unless a change that is passed over made a difference. */
    method OnTileChanged(w: World, pos: Position, change: Change, ghost w0: World)
      requires Valid()
      modifies cache
      ensures isMapLoaded && old(Agrees(w0)) && SameExcept(w0, w, pos, pos) ==>
                (Agrees(w) <==> Noticed(change) || w(pos) == w0(pos) || !InView(pos))
    {
      if isMapLoaded && Noticed(change) && pos.z == position.z {
        UpdateTileCache(w(pos), pos);
      }
      assert InView(pos) ==> At(pos.y - position.y + height, pos.x - position.x + width) == pos;
    }

    /** onCreatureMove for another creature. */
    method OnOtherMove(w: World, newPos: Position, oldPos: Position, ghost w0: World)
      requires Valid()
      modifies cache
      ensures isMapLoaded && old(Agrees(w0)) && SameExcept(w0, w, oldPos, newPos) ==> Agrees(w)
    {
      if isMapLoaded {
        if newPos.z == position.z {
          UpdateTileCache(w(newPos), newPos);
        }
        if oldPos.z == position.z {
          UpdateTileCache(w(oldPos), oldPos);
        }
      }
    }

    // ---------- runs ----------

    /** Plays a whole run of events. At the end the window agrees with the last world, provided the run
        can be relied upon: no diagonal step to the south since the last full refresh. */
    method Replay(events: seq<Event>, w0: World) returns (w: World)
      requires Valid() && OnMap(position) && height < 0x8000 && width < 0x8000 && isMapLoaded
      requires Consistent(events, position, w0)
      modifies this`position, cache
      ensures Valid() && OnMap(position)
      ensures w == LastWorld(events, w0)
      ensures Reliable(events, old(position), old(Agrees(w0))) ==> Agrees(w)
    {
      w := w0;
      var i := 0;
      ghost var start, trusted := position, Agrees(w0);
      assert events[0..] == events;
      while i < |events|
        invariant 0 <= i <= |events| && Valid() && OnMap(position) && isMapLoaded
        invariant Consistent(events[i..], position, w)
        invariant LastWorld(events[i..], w) == LastWorld(events, w0)
        invariant trusted ==> Agrees(w)
        invariant Reliable(events[i..], position, trusted) == Reliable(events, start, old(Agrees(w0)))
      {
        var e := events[i];
        assert events[i..][0] == e && events[i..][1..] == events[i + 1..];
        match e {
          case OwnStep(to, teleport, w') =>
            var from := position;
            position := to;
            ghost var before := trusted;
            trusted := Trusted(trusted, from, e);
            OnOwnMove(w', from, teleport, w);
          case TileChanged(pos, change, w') =>
            OnTileChanged(w', pos, change, w);
          case OtherMoved(to, from, w') =>
            OnOtherMove(w', to, from, w);
        }
        w := e.world;
        i := i + 1;
      }
      assert events[i..] == [];
    }

    /** getWalkCache: 2 unknown, 1 walkable, 0 not. */
    method GetWalkCache(pos: Position) returns (r: int)
      requires Valid()
      ensures !usesCache ==> r == 2
      ensures usesCache && pos.z == position.z && pos != position ==>
                (r == 2 <==> Abs(pos.x - position.x) > width || Abs(pos.y - position.y) > height)
      ensures usesCache && pos == position ==> r == 1
      ensures usesCache && pos.z != position.z ==> r == 0
      ensures forall w: World :: (usesCache && Agrees(w) && 0 <= pos.x <= 65535 && 0 <= pos.y <= 65535
                                  && pos.z == position.z && pos != position && r != 2) ==>
                (r == 1 <==> w(pos)) && (r == 0 <==> !w(pos))
    {
      if !usesCache {
        return 2;
      }
      if position.z != pos.z {
        return 0;
      }
      if pos == position {
        return 1;
      }
      var dx, dy := pos.x - position.x, pos.y - position.y;
      if Abs(dx) <= width && Abs(dy) <= height {
        assert At(height + dy, width + dx) == pos;
        return if cache[height + dy, width + dx] then 1 else 0;
      }
      return 2;
    }
  }

  // ---------- events ----------

  predicate Neighbours(a: Position, b: Position) {
    a.z == b.z && Abs(a.x - b.x) <= 1 && Abs(a.y - b.y) <= 1
  }

  /** South-east and south-west. */
  predicate SouthDiagonal(from: Position, to: Position) {
    to.y - from.y == 1 && to.x != from.x
  }

  ghost predicate SameExcept(w0: World, w: World, a: Position, b: Position) {
    forall p :: p != a && p != b ==> w(p) == w0(p)
  }

  /** What may have happened on two tiles, whatever it is. */
  lemma TwoTilesMayChange(w: World, a: Position, b: Position, atA: bool, atB: bool)
    ensures SameExcept(w, (p: Position) => if p == a then atA else if p == b then atB else w(p), a, b)
  {
  }

  /** The flags of an item type that the notifications look at. */
  datatype Solidity = Solidity(blockSolid: bool, blockPathFind: bool, ground: bool)

  /** What happened on a tile: an item came, changed its type or left, or another creature came or left. */
  datatype Change = ItemAdded | ItemUpdated(was: Solidity, now: Solidity) | ItemRemoved(what: Solidity) | CreatureChanged

  /** Updates and removals are passed over unless the item blocks; removals of ground count, too. */
  predicate Noticed(change: Change) {
    match change
    case ItemAdded => true
    case ItemUpdated(was, now) => was.blockSolid || was.blockPathFind || now.blockPathFind || now.blockSolid
    case ItemRemoved(what) => what.blockSolid || what.blockPathFind || what.ground
    case CreatureChanged => true
  }

  /** What a creature is told: its own steps, changed tiles, other creatures' steps; each with the world
      afterwards. */
  datatype Event =
    | OwnStep(to: Position, teleport: bool, world: World)
    | TileChanged(pos: Position, change: Change, world: World)
    | OtherMoved(newPos: Position, oldPos: Position, world: World)

  /** The worlds of a run differ only where the events say so, items that are passed over make no
      difference to walking, and own steps on one floor go to a neighbouring tile. */
  ghost predicate Consistent(events: seq<Event>, at: Position, w: World) {
    events == [] ||
    match events[0]
    case OwnStep(to, teleport, w') =>
      OnMap(to) && (teleport || to.z != at.z || Neighbours(at, to)) && SameExcept(w, w', at, to) && Consistent(events[1..], to, w')
    case TileChanged(pos, change, w') =>
      SameExcept(w, w', pos, pos) && (Noticed(change) || w'(pos) == w(pos)) && Consistent(events[1..], at, w')
    case OtherMoved(to, from, w') => SameExcept(w, w', from, to) && Consistent(events[1..], at, w')
  }

  /** The world before event k. */
  function Before(events: seq<Event>, w: World, k: nat): World
    requires k <= |events|
  {
    if k == 0 then w else events[k - 1].world
  }

  /** An event that may happen to a creature that stands at `at` in the world w. */
  ghost predicate MayHappen(e: Event, at: Position, w: World) {
    match e
    case OwnStep(to, teleport, w') =>
      && 0 <= to.x <= 65535 && 0 <= to.y <= 65535
      && (teleport || to.z != at.z || (-1 <= to.x - at.x <= 1 && -1 <= to.y - at.y <= 1))
      && forall p :: p != at && p != to ==> w'(p) == w(p)
    case TileChanged(pos, change, w') =>
      (forall p :: p != pos ==> w'(p) == w(p)) && (!Noticed(change) ==> w'(pos) == w(pos))
    case OtherMoved(to, from, w') => forall p :: p != from && p != to ==> w'(p) == w(p)
  }

  /** The runs of the theorem are all those in which every event may happen where it does. */
  lemma {:induction false} ConsistentIff(events: seq<Event>, at: Position, w: World)
    ensures Consistent(events, at, w) <==>
            forall k :: 0 <= k < |events| ==> MayHappen(events[k], Where(events, at, k), Before(events, w, k))
    decreases |events|
  {
    if events != [] {
      var e, rest := events[0], events[1..];
      var next := if e.OwnStep? then e.to else at;
      ConsistentIff(rest, next, e.world);
      assert Consistent(events, at, w) <==> MayHappen(e, at, w) && Consistent(rest, next, e.world);
      hide MayHappen, Consistent;
      forall k | 0 <= k < |rest|
        ensures events[k + 1] == rest[k] && Where(events, at, k + 1) == Where(rest, next, k) && Before(events, w, k + 1) == Before(rest, e.world, k)
      {
      }
      assert forall k :: 1 <= k < |events| ==> MayHappen(events[k], Where(events, at, k), Before(events, w, k))
                                               == MayHappen(rest[k - 1], Where(rest, next, k - 1), Before(rest, e.world, k - 1));
    }
  }

  function LastWorld(events: seq<Event>, w: World): World {
    if events == [] then w else LastWorld(events[1..], events[0].world)
  }

  /** Whether the window can be trusted after an own step. */
  predicate Trusted(before: bool, from: Position, e: Event)
    requires e.OwnStep?
  {
    if e.teleport || e.to.z != from.z then true else before && !SouthDiagonal(from, e.to)
  }

  predicate Reliable(events: seq<Event>, at: Position, trusted: bool) {
    if events == [] then trusted
    else if events[0].OwnStep? then Reliable(events[1..], events[0].to, Trusted(trusted, at, events[0]))
    else Reliable(events[1..], at, trusted)
  }

  /** Where the creature stands before event k. */
  function Where(events: seq<Event>, at: Position, k: nat): Position
    requires k <= |events|
  {
    if k == 0 then at else Where(events[1..], if events[0].OwnStep? then events[0].to else at, k - 1)
  }

  /** The whole window is read again: after a teleport and on another floor. */
  predicate Refreshes(events: seq<Event>, at: Position, k: nat)
    requires k < |events|
  {
    events[k].OwnStep? && (events[k].teleport || events[k].to.z != Where(events, at, k).z)
  }

  /** A walk one tile to the south and sideways. */
  predicate Spoils(events: seq<Event>, at: Position, k: nat)
    requires k < |events|
  {
    events[k].OwnStep? && !events[k].teleport && events[k].to.z == Where(events, at, k).z
    && events[k].to.y == Where(events, at, k).y + 1 && events[k].to.x != Where(events, at, k).x
  }

  ghost predicate RefreshedFrom(events: seq<Event>, at: Position, j: nat) {
    exists k :: j <= k < |events| && Refreshes(events, at, k)
  }

  /** A run can be relied upon exactly when the window was right at the start or is read again, and is read
      again after every diagonal walk to the south. */
  lemma {:induction false} ReliableIff(events: seq<Event>, at: Position, trusted: bool)
    ensures Reliable(events, at, trusted) <==>
            (trusted || RefreshedFrom(events, at, 0))
            && forall j :: 0 <= j < |events| && Spoils(events, at, j) ==> RefreshedFrom(events, at, j)
  {
    if events != [] {
      var e, rest := events[0], events[1..];
      var next := if e.OwnStep? then e.to else at;
      var still := if e.OwnStep? then Trusted(trusted, at, e) else trusted;
      ReliableIff(rest, next, still);
      forall k | 0 <= k < |rest|
        ensures Refreshes(events, at, k + 1) == Refreshes(rest, next, k) && Spoils(events, at, k + 1) == Spoils(rest, next, k)
      {
      }
      forall j | 0 <= j <= |rest| ensures RefreshedFrom(rest, next, j) == RefreshedFrom(events, at, j + 1) {
        RefreshedLater(events, at, j);
      }
      assert still <==> Refreshes(events, at, 0) || (trusted && !Spoils(events, at, 0));
      hide Trusted, Refreshes, Spoils, Where, SouthDiagonal;
      FromFirst(events, at);
      SpoilsLater(events, at, rest, next);
    }
  }

  lemma FromFirst(events: seq<Event>, at: Position)
    requires events != []
    ensures RefreshedFrom(events, at, 0) <==> Refreshes(events, at, 0) || RefreshedFrom(events, at, 1)
  {
    hide Refreshes;
    if RefreshedFrom(events, at, 1) {
      var k :| 1 <= k < |events| && Refreshes(events, at, k);
    }
  }

  ghost predicate AllMended(events: seq<Event>, at: Position, from: nat) {
    forall j :: from <= j < |events| && Spoils(events, at, j) ==> RefreshedFrom(events, at, j)
  }

  lemma SpoilsLater(events: seq<Event>, at: Position, rest: seq<Event>, next: Position)
    requires |events| == |rest| + 1
    requires forall k :: 0 <= k < |rest| ==> Spoils(events, at, k + 1) == Spoils(rest, next, k)
    requires forall j :: 0 <= j <= |rest| ==> RefreshedFrom(rest, next, j) == RefreshedFrom(events, at, j + 1)
    ensures AllMended(events, at, 1) == AllMended(rest, next, 0)
  {
    hide Spoils, RefreshedFrom;
    if AllMended(rest, next, 0) {
      forall j | 1 <= j < |events| && Spoils(events, at, j) ensures RefreshedFrom(events, at, j) {
        assert Spoils(rest, next, j - 1) && RefreshedFrom(rest, next, j - 1);
      }
    }
    if AllMended(events, at, 1) {
      forall j | 0 <= j < |rest| && Spoils(rest, next, j) ensures RefreshedFrom(rest, next, j) {
        assert Spoils(events, at, j + 1);
      }
    }
  }

  lemma RefreshedLater(events: seq<Event>, at: Position, j: nat)
    requires events != [] && j < |events|
    ensures RefreshedFrom(events[1..], if events[0].OwnStep? then events[0].to else at, j) == RefreshedFrom(events, at, j + 1)
  {
    var rest, next := events[1..], if events[0].OwnStep? then events[0].to else at;
    forall k | 0 <= k < |rest| ensures Refreshes(events, at, k + 1) == Refreshes(rest, next, k) {
    }
    if RefreshedFrom(rest, next, j) {
      var k :| j <= k < |rest| && Refreshes(rest, next, k);
      assert Refreshes(events, at, k + 1);
    }
    if RefreshedFrom(events, at, j + 1) {
      var k :| j + 1 <= k < |events| && Refreshes(events, at, k);
      assert Refreshes(rest, next, k - 1);
    }
  }

  // ---------- which steps are safe ----------

  /** The bits of a window. */
  type Cells = (int, int) -> bool

  /** The cells agree with the world around `at`. */
  ghost predicate CellsAgree(cells: Cells, height: nat, width: nat, at: Position, w: World) {
    forall r, c :: (InWindow(2 * height + 1, 2 * width + 1, r, c)
                    && OnMap(CellPosition(at, height, width, r, c)) && CellPosition(at, height, width, r, c) != at) ==>
      cells(r, c) == w(CellPosition(at, height, width, r, c))
  }

  /** What the shifting code leaves in a cell. */
  ghost function Shifted(cells: Cells, height: nat, width: nat, from: Position, to: Position, w: World, r: int, c: int): bool {
    if CellPosition(to, height, width, r, c) == from then w(from)
    else match StepSource(2 * height + 1, 2 * width + 1, to.x - from.x, to.y - from.y, r, c)
      case FromWorld(r', c') => w(Looked(CellPosition(to, height, width, r', c')))
      case FromCell(r', c') => cells(r', c')
  }

  /** The step never spoils a window, whatever the world. */
  ghost predicate SafeStep(height: nat, width: nat, from: Position, to: Position) {
    forall cells: Cells, w: World :: CellsAgree(cells, height, width, from, w) ==>
      forall r, c :: (InWindow(2 * height + 1, 2 * width + 1, r, c)
                      && OnMap(CellPosition(to, height, width, r, c)) && CellPosition(to, height, width, r, c) != to) ==>
        Shifted(cells, height, width, from, to, w, r, c) == w(CellPosition(to, height, width, r, c))
  }

  /** A step to a neighbouring tile of the map is safe exactly when it is not a diagonal step to the
      south. */
  lemma SafeIffNotSouthDiagonal(height: nat, width: nat, from: Position, to: Position)
    requires 0 < height < 0x8000 && width > 0 && OnMap(to)
    requires from.z == to.z && -1 <= to.x - from.x <= 1 && -1 <= to.y - from.y <= 1
    ensures SafeStep(height, width, from, to) <==> !(to.y == from.y + 1 && to.x != from.x)
  {
    if SouthDiagonal(from, to) {
      SouthDiagonalSpoils(height, width, from, to);
    } else {
      forall cells: Cells, w: World, r, c | CellsAgree(cells, height, width, from, w)
          && InWindow(2 * height + 1, 2 * width + 1, r, c)
          && OnMap(CellPosition(to, height, width, r, c)) && CellPosition(to, height, width, r, c) != to
        ensures Shifted(cells, height, width, from, to, w, r, c) == w(CellPosition(to, height, width, r, c))
      {
        ShiftedRight(cells, height, width, from, to, w, r, c);
      }
    }
  }

  lemma ShiftedRight(cells: Cells, height: nat, width: nat, from: Position, to: Position, w: World, r: int, c: int)
    requires height > 0 && width > 0 && Neighbours(from, to) && !SouthDiagonal(from, to)
    requires CellsAgree(cells, height, width, from, w) && InWindow(2 * height + 1, 2 * width + 1, r, c)
    requires OnMap(CellPosition(to, height, width, r, c)) && CellPosition(to, height, width, r, c) != to
    ensures Shifted(cells, height, width, from, to, w, r, c) == w(CellPosition(to, height, width, r, c))
  {
    StandsForTheSameTile(height, width, from, to, r, c);
  }

  /** On a diagonal step to the south the middle cell of the first row keeps the bit of the tile beside
      it, and so does the middle cell of the last row. One of the two is on the map; a world that tells
      the tiles apart shows it. */
  lemma SouthDiagonalSpoils(height: nat, width: nat, from: Position, to: Position)
    requires 0 < height < 0x8000 && width > 0 && Neighbours(from, to) && SouthDiagonal(from, to) && OnMap(to)
    ensures !SafeStep(height, width, from, to)
  {
    var row := if to.y >= height then 0 else 2 * height;
    var target := CellPosition(to, height, width, row, width);
    var w: World := (p: Position) => p == target;
    var cells: Cells := (r: int, c: int) => w(CellPosition(from, height, width, r, c));
    assert CellsAgree(cells, height, width, from, w);
    BesideTarget(height, width, from, to, row);
    assert !Shifted(cells, height, width, from, to, w, row, width);
  }

  lemma BesideTarget(height: nat, width: nat, from: Position, to: Position, row: int)
    requires 0 < height < 0x8000 && width > 0 && Neighbours(from, to) && SouthDiagonal(from, to) && OnMap(to)
    requires row == 0 || row == 2 * height
    ensures var dx, target := to.x - from.x, CellPosition(to, height, width, row, width);
            && target != from
            && StepSource(2 * height + 1, 2 * width + 1, dx, 1, row, width)
               == (if row == 0 then FromCell(1, width) else FromWorld(row, width + dx))
            && CellPosition(from, height, width, 1, width) != CellPosition(to, height, width, 0, width)
            && Looked(CellPosition(to, height, width, row, width + dx)) != target
  {
  }

  /** A neighbour coordinate off the map comes back out of reach of the window. */
  lemma WrapsFar(v: int, d: int, reach: nat)
    requires 0 <= v < 0x1_0000 && Abs(d) <= reach < 0x8000
    ensures 0 <= v + d < 0x1_0000 ==> Wrap16(v + d) == v + d
    ensures !(0 <= v + d < 0x1_0000) ==> Abs(Wrap16(v + d) - v) > reach
  {
  }
}
