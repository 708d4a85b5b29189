/** Spell areas as matrices with a centre, and the copies that turn them about it. */
module AreaMatrix {

  /** A cell seen from the centre: columns to the right, rows down. */
  type Offset = (int, int)

  datatype MatrixOperation = Copy | Mirror | Flip | Rotate90 | Rotate180 | Rotate270

  /** Where an operation takes an offset. The rotations are round(newX * cos - newY * sin) and
      round(newX * sin + newY * cos), whose factors are 0, 1 and -1 at these angles. */
  function Turn(op: MatrixOperation, p: Offset): Offset {
    match op
    case Copy => p
    case Mirror => (-p.0, p.1)
    case Flip => (p.0, -p.1)
    case Rotate90 => (-p.1, p.0)
    case Rotate180 => (-p.0, -p.1)
    case Rotate270 => (p.1, -p.0)
  }

  function Inverse(op: MatrixOperation): MatrixOperation {
    match op
    case Rotate90 => Rotate270
    case Rotate270 => Rotate90
    case _ => op
  }

  /** Every operation is a bijection on offsets. */
  lemma TurnBack(op: MatrixOperation, p: Offset)
    ensures Turn(Inverse(op), Turn(op, p)) == p && Turn(op, Turn(Inverse(op), p)) == p
  {
  }

  function Image(op: MatrixOperation, s: set<Offset>): set<Offset> {
    set p | p in s :: Turn(op, p)
  }

  lemma {:induction false} ImageSize(op: MatrixOperation, s: set<Offset>)
    ensures |Image(op, s)| == |s|
    decreases |s|
  {
    if s != {} {
      var p :| p in s;
      ImageSize(op, s - {p});
      assert Image(op, s) == Image(op, s - {p}) + {Turn(op, p)};
      forall q | q in s - {p} ensures Turn(op, q) != Turn(op, p) {
        TurnBack(op, q);
        TurnBack(op, p);
      }
    }
  }

  lemma ImageIn(op: MatrixOperation, s: set<Offset>, p: Offset)
    ensures p in Image(op, s) <==> Turn(Inverse(op), p) in s
  {
    TurnBack(op, p);
    if p in Image(op, s) {
      var q :| q in s && Turn(op, q) == p;
      TurnBack(op, q);
    }
  }

  /** Two operations in a row. */
  function Then(first: MatrixOperation, second: MatrixOperation): MatrixOperation
    requires first == second == Rotate90 || (first == Rotate180 && second == Rotate90)
             || (first == Rotate270 && second == Rotate90) || (first == Flip && second == Mirror)
  {
    if first == Flip then Rotate180
    else if first == Rotate90 then Rotate180
    else if first == Rotate180 then Rotate270
    else Copy
  }

  lemma ImageThen(first: MatrixOperation, second: MatrixOperation, s: set<Offset>)
    requires first == second == Rotate90 || (first == Rotate180 && second == Rotate90)
             || (first == Rotate270 && second == Rotate90) || (first == Flip && second == Mirror)
    ensures Image(second, Image(first, s)) == Image(Then(first, second), s)
  {
    forall p ensures p in Image(second, Image(first, s)) <==> p in Image(Then(first, second), s) {
      ImageIn(second, Image(first, s), p);
      ImageIn(first, s, Turn(Inverse(second), p));
      ImageIn(Then(first, second), s, p);
    }
  }

  function Shift(s: set<Offset>, dx: int, dy: int): set<Offset> {
    set p: Offset | p in s :: (p.0 + dx, p.1 + dy)
  }

  lemma ShiftIn(s: set<Offset>, dx: int, dy: int, p: Offset)
    ensures p in Shift(s, dx, dy) <==> (p.0 - dx, p.1 - dy) in s
  {
    if (p.0 - dx, p.1 - dy) in s {
      assert ((p.0 - dx) + dx, (p.1 - dy) + dy) in Shift(s, dx, dy);
    }
  }

  /** The furthest point of a set in direction (u, v). */
  lemma Furthest(s: set<Offset>, u: int, v: int) returns (p: Offset)
    requires s != {}
    ensures p in s && forall q :: q in s ==> q.0 * u + q.1 * v <= p.0 * u + p.1 * v
    decreases |s|
  {
    p :| p in s;
    if s - {p} != {} {
      var q := Furthest(s - {p}, u, v);
      if p.0 * u + p.1 * v < q.0 * u + q.1 * v {
        assert forall r :: r in s ==> r == p || r in s - {p};
        p := q;
      }
    }
  }

  /** Only the empty set looks the same after a real shift. */
  lemma ShiftMoves(s: set<Offset>, dx: int, dy: int)
    ensures Shift(s, dx, dy) == s <==> s == {} || (dx == 0 && dy == 0)
  {
    if s == {} {
      assert Shift(s, dx, dy) == {};
    } else if dx == 0 && dy == 0 {
      forall p ensures p in Shift(s, dx, dy) <==> p in s {
        ShiftIn(s, dx, dy, p);
      }
    } else {
      var p;
      if dx > 0 { p := Furthest(s, 1, 0); }
      else if dx < 0 { p := Furthest(s, -1, 0); }
      else if dy > 0 { p := Furthest(s, 0, 1); }
      else { p := Furthest(s, 0, -1); }
      assert (p.0 + dx, p.1 + dy) in Shift(s, dx, dy);
      assert (p.0 + dx, p.1 + dy) !in s;
    }
  }

  class MatrixArea {
    const data: array2<bool>
    var centerX: int
    var centerY: int

    constructor (rows: nat, cols: nat)
      ensures fresh(data) && data.Length0 == rows && data.Length1 == cols && centerX == centerY == 0
      ensures Blank()
    {
      data := new bool[rows, cols]((r, c) => false);
      centerX, centerY := 0, 0;
    }

    predicate Inside(y: int, x: int) {
      0 <= y < data.Length0 && 0 <= x < data.Length1
    }

    ghost predicate Blank()
      reads data
    {
      forall y, x :: Inside(y, x) ==> !data[y, x]
    }

    /** The centre is a cell, if there are any cells. */
    ghost predicate CentreInside()
      reads this
    {
      data.Length0 > 0 && data.Length1 > 0 ==> Inside(centerY, centerX)
    }

    /** The area as a set of offsets from its centre. */
    ghost function Offsets(): set<Offset>
      reads this, data
    {
      set y: int, x: int | 0 <= y < data.Length0 && 0 <= x < data.Length1 && data[y, x] :: (x - centerX, y - centerY)
    }

    lemma OffsetsIn(p: Offset)
      ensures p in Offsets() <==> Inside(centerY + p.1, centerX + p.0) && data[centerY + p.1, centerX + p.0]
    {
      if Inside(centerY + p.1, centerX + p.0) && data[centerY + p.1, centerX + p.0] {
        assert ((centerX + p.0) - centerX, (centerY + p.1) - centerY) in Offsets();
      }
    }

    method SetValue(row: nat, col: nat, value: bool)
      requires Inside(row, col)
      modifies data
      ensures forall y, x :: Inside(y, x) ==> data[y, x] == if y == row && x == col then value else old(data[y, x])
    {
      data[row, col] := value;
    }

    method SetCenter(y: int, x: int)
      modifies this
      ensures centerY == y && centerX == x
    {
      centerX, centerY := x, y;
    }
  }

  function Max(a: nat, b: nat): nat {
    if a < b then b else a
  }

  // ---------- the copies cell by cell ----------

  method CopyCells(input: MatrixArea, output: MatrixArea)
    requires input.data != output.data
    requires input.data.Length0 <= output.data.Length0 && input.data.Length1 <= output.data.Length1
    modifies output.data
    ensures forall y, x :: output.Inside(y, x) ==>
              output.data[y, x] == if input.Inside(y, x) then input.data[y, x] else old(output.data[y, x])
  {
    var y := 0;
    while y < input.data.Length0
      invariant 0 <= y <= input.data.Length0
      invariant forall y', x' :: output.Inside(y', x') ==>
                  output.data[y', x'] == if y' < y && input.Inside(y', x') then input.data[y', x'] else old(output.data[y', x'])
    {
      var x := 0;
      while x < input.data.Length1
        invariant 0 <= x <= input.data.Length1
        invariant forall y', x' :: output.Inside(y', x') ==>
                    output.data[y', x'] == if (y' < y || (y' == y && x' < x)) && input.Inside(y', x') then input.data[y', x'] else old(output.data[y', x'])
      {
        output.data[y, x] := input.data[y, x];
        x := x + 1;
      }
      y := y + 1;
    }
  }

  method MirrorCells(input: MatrixArea, output: MatrixArea)
    requires input.data != output.data
    requires input.data.Length0 <= output.data.Length0 && input.data.Length1 <= output.data.Length1
    modifies output.data
    ensures forall y, x :: output.Inside(y, x) ==>
              output.data[y, x] == if input.Inside(y, x) then input.data[y, input.data.Length1 - 1 - x] else old(output.data[y, x])
  {
    var y := 0;
    var cols := input.data.Length1;
    while y < input.data.Length0
      invariant 0 <= y <= input.data.Length0
      invariant forall y', x' :: output.Inside(y', x') ==>
                  output.data[y', x'] == if y' < y && input.Inside(y', x') then input.data[y', cols - 1 - x'] else old(output.data[y', x'])
    {
      var rx, x := 0, cols - 1;
      while x >= 0
        invariant -1 <= x < cols && rx == cols - 1 - x
        invariant forall y', x' :: output.Inside(y', x') ==>
                    output.data[y', x'] == if (y' < y || (y' == y && x' < rx)) && input.Inside(y', x') then input.data[y', cols - 1 - x'] else old(output.data[y', x'])
      {
        output.data[y, rx] := input.data[y, x];
        rx, x := rx + 1, x - 1;
      }
      y := y + 1;
    }
  }

  method FlipCells(input: MatrixArea, output: MatrixArea)
    requires input.data != output.data
    requires input.data.Length0 <= output.data.Length0 && input.data.Length1 <= output.data.Length1
    modifies output.data
    ensures forall y, x :: output.Inside(y, x) ==>
              output.data[y, x] == if input.Inside(y, x) then input.data[input.data.Length0 - 1 - y, x] else old(output.data[y, x])
  {
    var x := 0;
    var rows := input.data.Length0;
    while x < input.data.Length1
      invariant 0 <= x <= input.data.Length1
      invariant forall y', x' :: output.Inside(y', x') ==>
                  output.data[y', x'] == if x' < x && input.Inside(y', x') then input.data[rows - 1 - y', x'] else old(output.data[y', x'])
    {
      var ry, y := 0, rows - 1;
      while y >= 0
        invariant -1 <= y < rows && ry == rows - 1 - y
        invariant forall y', x' :: output.Inside(y', x') ==>
                    output.data[y', x'] == if (x' < x || (x' == x && y' < ry)) && input.Inside(y', x') then input.data[rows - 1 - y', x'] else old(output.data[y', x'])
      {
        output.data[ry, x] := input.data[y, x];
        ry, y := ry + 1, y - 1;
      }
      x := x + 1;
    }
  }

  /** The input cell that the rotation writes to the output cell (oy, ox). */
  function Origin(op: MatrixOperation, cy: int, cx: int, rotateCenter: int, oy: int, ox: int): (int, int) {
    var p := Turn(Inverse(op), (ox - rotateCenter, oy - rotateCenter));
    (cy + p.1, cx + p.0)
  }

  /** The rotation loop. Into a square twice as large as the longer side every write is in bounds. */
  method RotateCells(input: MatrixArea, output: MatrixArea, op: MatrixOperation, rotateCenter: int)
    requires op.Rotate90? || op.Rotate180? || op.Rotate270?
    requires input.data != output.data && input.CentreInside()
    requires output.data.Length0 == output.data.Length1 == 2 * Max(input.data.Length1, input.data.Length0)
    requires rotateCenter == output.data.Length1 / 2 - 1
    modifies output.data
    ensures forall oy, ox :: output.Inside(oy, ox) ==>
              output.data[oy, ox] == var (y, x) := Origin(op, input.centerY, input.centerX, rotateCenter, oy, ox);
                                     if input.Inside(y, x) then input.data[y, x] else old(output.data[oy, ox])
  {
    var cx, cy := input.centerX, input.centerY;
    var x := 0;
    while x < input.data.Length1
      invariant 0 <= x <= input.data.Length1
      invariant forall oy, ox :: output.Inside(oy, ox) ==>
                  output.data[oy, ox] == var (y', x') := Origin(op, cy, cx, rotateCenter, oy, ox);
                                         if x' < x && input.Inside(y', x') then input.data[y', x'] else old(output.data[oy, ox])
    {
      var y := 0;
      while y < input.data.Length0
        invariant 0 <= y <= input.data.Length0
        invariant forall oy, ox :: output.Inside(oy, ox) ==>
                    output.data[oy, ox] == var (y', x') := Origin(op, cy, cx, rotateCenter, oy, ox);
                                           if (x' < x || (x' == x && y' < y)) && input.Inside(y', x') then input.data[y', x'] else old(output.data[oy, ox])
      {
        var rotated := Turn(op, (x - cx, y - cy));
        output.data[rotated.1 + rotateCenter, rotated.0 + rotateCenter] := input.data[y, x];
        y := y + 1;
      }
      x := x + 1;
    }
  }

  // ---------- the copies as operations on areas ----------

  /** What becomes of the offsets; `surplus` is how many more columns than rows the input has. */
  function Copied(op: MatrixOperation, s: set<Offset>, surplus: int): set<Offset> {
    match op
    case Mirror => Shift(Image(Mirror, s), surplus, 0)
    case Flip => Shift(Image(Flip, s), 0, -surplus)
    case _ => Image(op, s)
  }

  /** copyArea into a blank output. A rotation turns the set of offsets. Mirror and flip swap rows and
      columns in the formula of the new centre, so they are off by the difference of the two. */
  method CopyArea(input: MatrixArea, output: MatrixArea, op: MatrixOperation)
    requires input != output && input.data != output.data && output.Blank()
    requires input.data.Length0 <= output.data.Length0 && input.data.Length1 <= output.data.Length1
    requires op.Rotate90? || op.Rotate180? || op.Rotate270? ==>
               input.CentreInside() && output.data.Length0 == output.data.Length1 == 2 * Max(input.data.Length1, input.data.Length0)
    modifies output, output.data
    ensures output.Offsets() == Copied(op, input.Offsets(), input.data.Length1 - input.data.Length0)
  {
    match op {
      case Copy =>
        CopyCells(input, output);
        output.SetCenter(input.centerY, input.centerX);
        forall p ensures p in output.Offsets() <==> p in Image(op, input.Offsets()) {
          output.OffsetsIn(p);
          ImageIn(op, input.Offsets(), p);
          input.OffsetsIn(p);
        }
      case Mirror =>
        MirrorCells(input, output);
        output.SetCenter(input.centerY, (input.data.Length0 - 1) - input.centerX);
        Mirrored(input, output);
      case Flip =>
        FlipCells(input, output);
        output.SetCenter((input.data.Length1 - 1) - input.centerY, input.centerX);
        Flipped(input, output);
      case _ =>
        var rotateCenterX := output.data.Length1 / 2 - 1;
        var rotateCenterY := output.data.Length0 / 2 - 1;
        RotateCells(input, output, op, rotateCenterX);
        output.SetCenter(rotateCenterY, rotateCenterX);
        Rotated(input, output, op);
    }
  }

  /** A new area of the given size with a copy in it. */
  method NewCopy(input: MatrixArea, size: nat, op: MatrixOperation) returns (output: MatrixArea)
    requires input.data.Length0 <= size && input.data.Length1 <= size
    requires op.Rotate90? || op.Rotate180? || op.Rotate270? ==>
               input.CentreInside() && size == 2 * Max(input.data.Length1, input.data.Length0)
    ensures fresh(output) && fresh(output.data) && output.data.Length0 == output.data.Length1 == size
    ensures output.Offsets() == Copied(op, input.Offsets(), input.data.Length1 - input.data.Length0)
  {
    output := new MatrixArea(size, size);
    CopyArea(input, output, op);
  }

  lemma Mirrored(input: MatrixArea, output: MatrixArea)
    requires input.data.Length0 <= output.data.Length0 && input.data.Length1 <= output.data.Length1
    requires forall y, x :: output.Inside(y, x) ==>
               output.data[y, x] == (input.Inside(y, x) && input.data[y, input.data.Length1 - 1 - x])
    requires output.centerY == input.centerY && output.centerX == input.data.Length0 - 1 - input.centerX
    ensures output.Offsets() == Shift(Image(Mirror, input.Offsets()), input.data.Length1 - input.data.Length0, 0)
  {
    var surplus := input.data.Length1 - input.data.Length0;
    forall p ensures p in output.Offsets() <==> p in Shift(Image(Mirror, input.Offsets()), surplus, 0) {
      var q := (p.0 - surplus, p.1);
      output.OffsetsIn(p);
      ShiftIn(Image(Mirror, input.Offsets()), surplus, 0, p);
      ImageIn(Mirror, input.Offsets(), q);
      input.OffsetsIn(Turn(Mirror, q));
    }
  }

  lemma Flipped(input: MatrixArea, output: MatrixArea)
    requires input.data.Length0 <= output.data.Length0 && input.data.Length1 <= output.data.Length1
    requires forall y, x :: output.Inside(y, x) ==>
               output.data[y, x] == (input.Inside(y, x) && input.data[input.data.Length0 - 1 - y, x])
    requires output.centerX == input.centerX && output.centerY == input.data.Length1 - 1 - input.centerY
    ensures output.Offsets() == Shift(Image(Flip, input.Offsets()), 0, input.data.Length0 - input.data.Length1)
  {
    var surplus := input.data.Length0 - input.data.Length1;
    forall p ensures p in output.Offsets() <==> p in Shift(Image(Flip, input.Offsets()), 0, surplus) {
      var q := (p.0, p.1 - surplus);
      output.OffsetsIn(p);
      ShiftIn(Image(Flip, input.Offsets()), 0, surplus, p);
      ImageIn(Flip, input.Offsets(), q);
      input.OffsetsIn(Turn(Flip, q));
    }
  }

  lemma Rotated(input: MatrixArea, output: MatrixArea, op: MatrixOperation)
    requires op.Rotate90? || op.Rotate180? || op.Rotate270?
    requires input.CentreInside()
    requires output.data.Length0 == output.data.Length1 == 2 * Max(input.data.Length1, input.data.Length0)
    requires output.centerX == output.centerY == output.data.Length1 / 2 - 1
    requires forall oy, ox :: output.Inside(oy, ox) ==>
               output.data[oy, ox] == var (y, x) := Origin(op, input.centerY, input.centerX, output.centerX, oy, ox);
                                      input.Inside(y, x) && input.data[y, x]
    ensures output.Offsets() == Image(op, input.Offsets())
    ensures output.CentreInside()
  {
    forall p ensures p in output.Offsets() <==> p in Image(op, input.Offsets()) {
      hide Image, Turn;
      output.OffsetsIn(p);
      ImageIn(op, input.Offsets(), p);
      input.OffsetsIn(Turn(Inverse(op), p));
      CellOrInside(input, output, op, p);
    }
  }

  /** The output has room for every turned cell. */
  lemma CellOrInside(input: MatrixArea, output: MatrixArea, op: MatrixOperation, p: Offset)
    requires op.Rotate90? || op.Rotate180? || op.Rotate270?
    requires input.CentreInside()
    requires output.data.Length0 == output.data.Length1 == 2 * Max(input.data.Length1, input.data.Length0)
    requires output.centerX == output.centerY == output.data.Length1 / 2 - 1
    ensures var q := Turn(Inverse(op), p);
            input.Inside(input.centerY + q.1, input.centerX + q.0) ==> output.Inside(output.centerY + p.1, output.centerX + p.0)
    ensures Origin(op, input.centerY, input.centerX, output.centerX, output.centerY + p.1, output.centerX + p.0)
         == (input.centerY + Turn(Inverse(op), p).1, input.centerX + Turn(Inverse(op), p).0)
  {
    assert ((output.centerX + p.0) - output.centerX, (output.centerY + p.1) - output.centerX) == p;
  }
}
