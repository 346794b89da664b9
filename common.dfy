/** The shared 2D-grid toolkit of `common.py`: compass directions with their
    inverse and turn tables, integer vectors, the rectangular grid `Grid`,
    its mutable variant `LGrid` and the marker scanner `GridSearch`.

    x grows to the right and y grows downwards, so `Up` is (0, -1). */
module Common {
  import opened Wrappers

  /** The conditions the toolkit raises. */
  datatype Error =
    | WidthMismatch       // a row whose length is not the grid's width
    | HeightMismatch      // a column whose length is not the grid's height
    | OutOfBounds         // a cell position outside the grid
    | BadIndex            // a row or column insertion index outside [0, size]
    | TooManyMatches      // the marker scanner exceeded its maximum count
    | InvalidResultCount  // `single_result` without exactly one recorded match
    | KeyError            // a turn looked up for a non-cardinal direction or an unknown key

  // ============================================================ Direction

  datatype Direction = Up | Down | Left | Right | UpLeft | UpRight | DownLeft | DownRight
  {
    /** The enum member's value: its unit displacement. */
    function Value(): (int, int)
    {
      match this
      case Up => (0, -1)
      case Down => (0, 1)
      case Left => (-1, 0)
      case Right => (1, 0)
      case UpLeft => (-1, -1)
      case UpRight => (1, -1)
      case DownLeft => (-1, 1)
      case DownRight => (1, 1)
    }

    predicate OnlyVertical() { Value().0 == 0 }

    predicate OnlyHorizontal() { Value().1 == 0 }

    predicate IsCardinal() { OnlyVertical() || OnlyHorizontal() }

    /** `d.inverse`: the entry of the inverse table for `d`, that is the
        first direction of `DirectionsAll` pointing the opposite way. */
    function Inverse(): Direction
    {
      OppositeListed(this);
      FirstOpposite(DirectionsAll, this)
    }
  }

  /** All eight directions, clockwise from Up. */
  const DirectionsAll: seq<Direction> :=
    [Up, UpRight, Right, DownRight, Down, DownLeft, Left, UpLeft]

  const DirectionsCardinal: seq<Direction> := [Up, Down, Left, Right]

  const DirectionsOrdinal: seq<Direction> := [UpLeft, UpRight, DownLeft, DownRight]

  /** `next(di for di in ds if di.value == -d.value)`: the first direction of
      `ds` pointing the opposite way, which must exist. */
  function FirstOpposite(ds: seq<Direction>, d: Direction): (r: Direction)
    requires exists e :: e in ds && e.Value() == (-d.Value().0, -d.Value().1)
    ensures r in ds && r.Value() == (-d.Value().0, -d.Value().1)
  {
    if ds[0].Value() == (-d.Value().0, -d.Value().1) then ds[0]
    else FirstOpposite(ds[1..], d)
  }

  lemma OppositeListed(d: Direction)
    ensures exists e :: e in DirectionsAll && e.Value() == (-d.Value().0, -d.Value().1)
  {
    match d
    case Up => assert Down in DirectionsAll;
    case Down => assert Up in DirectionsAll;
    case Left => assert Right in DirectionsAll;
    case Right => assert Left in DirectionsAll;
    case UpLeft => assert DownRight in DirectionsAll;
    case UpRight => assert DownLeft in DirectionsAll;
    case DownLeft => assert UpRight in DirectionsAll;
    case DownRight => assert UpLeft in DirectionsAll;
  }

  /** Two directions with the same displacement are the same direction. */
  lemma ValueInjective(d: Direction, e: Direction)
    requires d.Value() == e.Value()
    ensures d == e
  {
  }

  /** The inverse points exactly the opposite way, and inverting twice is the identity. */
  lemma InverseProperties(d: Direction)
    ensures d.Inverse().Value() == (-d.Value().0, -d.Value().1)
    ensures d.Inverse().Inverse() == d
    ensures d.Inverse() != d
    ensures d.Inverse().IsCardinal() == d.IsCardinal()
  {
    var f := d.Inverse().Inverse();
    assert f.Value() == d.Value();
    ValueInjective(f, d);
  }

  /** `DIRECTION_TURN_CARDINAL`: for each cardinal direction, the direction
      after turning right, left or around. */
  const DirectionTurnCardinal: map<Direction, map<string, Direction>> := map[
    Up := map["right" := Right, "left" := Left, "around" := Down],
    Right := map["right" := Down, "left" := Up, "around" := Left],
    Down := map["right" := Left, "left" := Right, "around" := Up],
    Left := map["right" := Up, "left" := Down, "around" := Right]
  ]

  /** `DIRECTION_TURN_CARDINAL[d][key]`: a missing key at either level raises. */
  function Turn(d: Direction, key: string): (r: Result<Direction, Error>)
    ensures r.Ok? <==> d.IsCardinal() && key in {"right", "left", "around"}
    ensures r.Err? ==> r.error == KeyError
  {
    if d in DirectionTurnCardinal && key in DirectionTurnCardinal[d]
    then Ok(DirectionTurnCardinal[d][key])
    else Err(KeyError)
  }

  /** Every turn of a cardinal direction is one of three distinct cardinal
      directions: around is the inverse, and right then left (or left then
      right) gives the direction back. */
  lemma TurnProperties(d: Direction)
    requires d.IsCardinal()
    ensures Turn(d, "right").Ok? && Turn(d, "left").Ok? && Turn(d, "around").Ok?
    ensures var r, l, a := Turn(d, "right").value, Turn(d, "left").value, Turn(d, "around").value;
            && r.IsCardinal() && l.IsCardinal() && a.IsCardinal()
            && r != l && l != a && r != a && d != r && d != l && d != a
            && a == d.Inverse()
            && Turn(r, "left") == Ok(d) && Turn(l, "right") == Ok(d)
            && Turn(a, "around") == Ok(d)
  {
    match d
    case Up => TurnsAre(Up, Right, Left, Down);
    case Right => TurnsAre(Right, Down, Up, Left);
    case Down => TurnsAre(Down, Left, Right, Up);
    case Left => TurnsAre(Left, Up, Down, Right);
  }

  /** The three turns of `d` are the table's entries `r`, `l` and `a`. */
  lemma TurnsAre(d: Direction, r: Direction, l: Direction, a: Direction)
    requires d in DirectionTurnCardinal && r in DirectionTurnCardinal && l in DirectionTurnCardinal && a in DirectionTurnCardinal
    requires DirectionTurnCardinal[d] == map["right" := r, "left" := l, "around" := a]
    requires DirectionTurnCardinal[r]["left"] == d && DirectionTurnCardinal[l]["right"] == d
    requires DirectionTurnCardinal[a]["around"] == d
    requires a.Value() == (-d.Value().0, -d.Value().1)
    requires r != l && l != a && r != a && d != r && d != l && d != a
    ensures Turn(d, "right") == Ok(r) && Turn(d, "left") == Ok(l) && Turn(d, "around") == Ok(a)
    ensures Turn(r, "left") == Ok(d) && Turn(l, "right") == Ok(d) && Turn(a, "around") == Ok(d)
    ensures a == d.Inverse()
  {
    assert "right" in DirectionTurnCardinal[d] && "left" in DirectionTurnCardinal[d] && "around" in DirectionTurnCardinal[d];
    assert "right" in DirectionTurnCardinal[l] && "left" in DirectionTurnCardinal[r] && "around" in DirectionTurnCardinal[a];
    ValueInjective(a, d.Inverse());
  }

  // =============================================================== Vector

  /** An integer 2D point; equality is structural, as in the source. */
  datatype Vector = Vector(x: int, y: int)
  {
    static function FromDirection(d: Direction): Vector
    {
      Vector(d.Value().0, d.Value().1)
    }

    function Add(other: Vector): Vector { Vector(x + other.x, y + other.y) }

    function Sub(other: Vector): Vector { Vector(x - other.x, y - other.y) }

    function Mul(k: int): Vector { Vector(x * k, y * k) }

    /** `self.move_in(d, dist)`: `dist` may be zero or negative. */
    function MoveIn(d: Direction, dist: int): Vector
    {
      Add(Vector(d.Value().0 * dist, d.Value().1 * dist))
    }

    /** `self + d` for a direction `d`. */
    function Step(d: Direction): Vector { MoveIn(d, 1) }

    function ManhattanDistance(): (r: int)
      ensures r >= 0
      ensures r == 0 <==> this == Vector(0, 0)
    {
      (if x < 0 then -x else x) + (if y < 0 then -y else y)
    }
  }

  /** Moving is adding the scaled unit displacement, and a step is a move
      of distance 1. */
  lemma MoveInIsScaledAdd(v: Vector, d: Direction, dist: int)
    ensures v.MoveIn(d, dist) == v.Add(Vector.FromDirection(d).Mul(dist))
    ensures v.MoveIn(d, 0) == v
    ensures v.Step(d) == v.Add(Vector.FromDirection(d))
  {
  }

  /** Moves along one direction compose by adding their distances. */
  lemma MoveInCompose(v: Vector, d: Direction, a: int, b: int)
    ensures v.MoveIn(d, a).MoveIn(d, b) == v.MoveIn(d, a + b)
  {
    var (dx, dy) := d.Value();
    assert dx * a + dx * b == dx * (a + b);
    assert dy * a + dy * b == dy * (a + b);
  }

  /** A negative distance walks the inverse direction. */
  lemma MoveInNegative(v: Vector, d: Direction, dist: int)
    ensures v.MoveIn(d, -dist) == v.MoveIn(d.Inverse(), dist)
  {
    InverseProperties(d);
    MoveInOpposite(v, d, d.Inverse(), dist);
  }

  /** Moving backwards along `d` is moving forwards along any direction
      whose offset is the negated offset of `d`. */
  lemma MoveInOpposite(v: Vector, d: Direction, e: Direction, dist: int)
    requires e.Value() == (-d.Value().0, -d.Value().1)
    ensures v.MoveIn(d, -dist) == v.MoveIn(e, dist)
  {
    var (dx, dy) := d.Value();
    assert dx * -dist == -dx * dist;
    assert dy * -dist == -dy * dist;
  }

  /** A direction and its inverse cancel out. */
  lemma DirectionPlusInverse(d: Direction)
    ensures Vector.FromDirection(d).Add(Vector.FromDirection(d.Inverse())) == Vector(0, 0)
    ensures Vector(0, 0).Step(d).Step(d.Inverse()) == Vector(0, 0)
  {
    InverseProperties(d);
  }

  /** Subtraction undoes addition, and the distance is a norm. */
  lemma VectorAlgebra(u: Vector, v: Vector)
    ensures u.Add(v).Sub(v) == u
    ensures u.Sub(v).Add(v) == u
    ensures u.Add(v).ManhattanDistance() <= u.ManhattanDistance() + v.ManhattanDistance()
    ensures u.Mul(-1).ManhattanDistance() == u.ManhattanDistance()
  {
  }

  // ================================================================= Grid

  /** Rows that `add_line` accepts one after another: every row has the
      length of the first. */
  ghost predicate Uniform<T>(lines: seq<seq<T>>)
  {
    forall i :: 0 <= i < |lines| ==> |lines[i]| == |lines[0]|
  }

  /** The width of a grid built from `lines`: that of its first row. */
  function Width<T>(lines: seq<seq<T>>): nat
  {
    if |lines| == 0 then 0 else |lines[0]|
  }

  /** A rectangular grid built row by row. The first row added fixes the
      width; `width` is kept separately from the rows, as in the source. */
  class Grid<T> {
    var lines: seq<seq<T>>
    var width: nat

    /** Every row has the grid's width. */
    ghost predicate Valid()
      reads this
    {
      forall y :: 0 <= y < |lines| ==> |lines[y]| == width
    }

    constructor()
      ensures Valid() && lines == [] && width == 0
    {
      lines := [];
      width := 0;
    }

    function Height(): nat
      reads this
    {
      |lines|
    }

    /** `add_line`: the first row fixes the width; a later row of another
        length is refused and leaves the grid as it was. */
    method AddLine(line: seq<T>) returns (r: Outcome<Error>)
      requires Valid()
      modifies this
      ensures Valid()
      ensures r.Pass? <==> (|old(lines)| == 0 || |line| == old(width))
      ensures r.Pass? ==> lines == old(lines) + [line] && width == |line|
      ensures r.Fail? ==> r.error == WidthMismatch && lines == old(lines) && width == old(width)
    {
      if |lines| < 1 {
        width := |line|;
      } else if |line| != width {
        return Fail(WidthMismatch);
      }
      lines := lines + [line];
      r := Pass;
    }

    predicate IsInBounds(pos: Vector)
      reads this
    {
      0 <= pos.x < width && 0 <= pos.y < |lines|
    }

    /** The value at an in-bounds position. */
    function Cell(pos: Vector): T
      reads this
      requires Valid() && IsInBounds(pos)
    {
      lines[pos.y][pos.x]
    }

    /** `get_cell`: the single bounds-checked read. */
    function GetCell(pos: Vector): (r: Result<T, Error>)
      reads this
      requires Valid()
      ensures r.Ok? <==> 0 <= pos.x < width && 0 <= pos.y < Height()
      ensures r.Ok? ==> r.value == lines[pos.y][pos.x]
      ensures r.Err? ==> r.error == OutOfBounds
    {
      if !IsInBounds(pos) then Err(OutOfBounds) else Ok(Cell(pos))
    }

    /** The neighbours `look_around` yields, as a reference definition: one
        pair per direction, in the given order, skipping out-of-bounds ones. */
    ghost function Neighbours(pos: Vector, dirs: seq<Direction>): seq<(Vector, T)>
      reads this
      requires Valid()
    {
      if |dirs| == 0 then []
      else
        var v := pos.Step(dirs[|dirs| - 1]);
        Neighbours(pos, dirs[..|dirs| - 1]) + (if IsInBounds(v) then [(v, Cell(v))] else [])
    }

    /** The number of directions of `dirs` that lead into the grid from `pos`. */
    ghost function CountInBounds(pos: Vector, dirs: seq<Direction>): nat
      reads this
    {
      if |dirs| == 0 then 0
      else CountInBounds(pos, dirs[..|dirs| - 1]) + (if IsInBounds(pos.Step(dirs[|dirs| - 1])) then 1 else 0)
    }

    /** `look_around(pos, dirs)`. */
    method LookAround(pos: Vector, dirs: seq<Direction>) returns (r: seq<(Vector, T)>)
      requires Valid()
      ensures r == Neighbours(pos, dirs)
      ensures forall i :: 0 <= i < |r| ==> IsInBounds(r[i].0) && r[i].1 == Cell(r[i].0)
    {
      r := [];
      for i := 0 to |dirs|
        invariant r == Neighbours(pos, dirs[..i])
        invariant forall k :: 0 <= k < |r| ==> IsInBounds(r[k].0) && r[k].1 == Cell(r[k].0)
      {
        assert dirs[..i + 1][..i] == dirs[..i];
        var v := pos.Step(dirs[i]);
        if IsInBounds(v) {
          r := r + [(v, Cell(v))];
        }
      }
      assert dirs[..|dirs|] == dirs;
    }

    /** look_around keeps exactly the in-bounds neighbours, in the order of
        the directions: the k-th direction, when it leads into the grid,
        gives the entry right after those of the in-bounds directions before it. */
    lemma {:induction false} NeighboursInOrder(pos: Vector, dirs: seq<Direction>, k: nat)
      requires Valid()
      requires k < |dirs|
      ensures |Neighbours(pos, dirs)| == CountInBounds(pos, dirs)
      ensures CountInBounds(pos, dirs[..k]) <= CountInBounds(pos, dirs)
      ensures IsInBounds(pos.Step(dirs[k])) ==> CountInBounds(pos, dirs[..k]) < CountInBounds(pos, dirs)
      ensures IsInBounds(pos.Step(dirs[k])) ==>
                Neighbours(pos, dirs)[CountInBounds(pos, dirs[..k])] == (pos.Step(dirs[k]), Cell(pos.Step(dirs[k])))
      decreases |dirs|
    {
      var n := |dirs|;
      var init := dirs[..n - 1];
      NeighboursLength(pos, init);
      if k < n - 1 {
        NeighboursInOrder(pos, init, k);
        assert init[..k] == dirs[..k];
      } else {
        assert init == dirs[..k];
      }
    }

    lemma {:induction false} NeighboursLength(pos: Vector, dirs: seq<Direction>)
      requires Valid()
      ensures |Neighbours(pos, dirs)| == CountInBounds(pos, dirs)
      decreases |dirs|
    {
      if |dirs| > 0 {
        NeighboursLength(pos, dirs[..|dirs| - 1]);
      }
    }

    /** `scan_row(y)`: the row's cells left to right. Reading a row outside
        the grid raises, unless the grid has width 0 and nothing is read. */
    method ScanRow(y: int) returns (r: Result<seq<(Vector, T)>, Error>)
      requires Valid()
      ensures r.Ok? <==> width == 0 || 0 <= y < Height()
      ensures r.Ok? ==> |r.value| == width
      ensures r.Ok? ==> forall x :: 0 <= x < width ==> r.value[x] == (Vector(x, y), lines[y][x])
    {
      var row: seq<(Vector, T)> := [];
      for x := 0 to width
        invariant |row| == x
        invariant x > 0 ==> 0 <= y < |lines|
        invariant forall i :: 0 <= i < x ==> row[i] == (Vector(i, y), lines[y][i])
      {
        var cell := GetCell(Vector(x, y));
        if cell.Err? {
          return Err(cell.error);
        }
        row := row + [(Vector(x, y), cell.value)];
      }
      r := Ok(row);
    }

    /** `scan_column(x)`: the column's cells top to bottom. */
    method ScanColumn(x: int) returns (r: Result<seq<(Vector, T)>, Error>)
      requires Valid()
      ensures r.Ok? <==> Height() == 0 || 0 <= x < width
      ensures r.Ok? ==> |r.value| == Height()
      ensures r.Ok? ==> forall y :: 0 <= y < Height() ==> r.value[y] == (Vector(x, y), lines[y][x])
    {
      var column: seq<(Vector, T)> := [];
      for y := 0 to |lines|
        invariant |column| == y
        invariant y > 0 ==> 0 <= x < width
        invariant forall i :: 0 <= i < y ==> column[i] == (Vector(x, i), lines[i][x])
      {
        var cell := GetCell(Vector(x, y));
        if cell.Err? {
          return Err(cell.error);
        }
        column := column + [(Vector(x, y), cell.value)];
      }
      r := Ok(column);
    }

    /** `scan_all()`: every cell exactly once, in row-major order (rows top to
        bottom, each row left to right). */
    method ScanAll() returns (r: seq<(Vector, T)>)
      requires Valid()
      ensures |r| == width * Height()
      ensures forall y, x :: 0 <= y < Height() && 0 <= x < width ==>
                RowMajor(y, x, width) < |r| && r[RowMajor(y, x, width)] == (Vector(x, y), lines[y][x])
    {
      r := [];
      for y := 0 to |lines|
        invariant |r| == y * width
        invariant forall yy, x :: 0 <= yy < y && 0 <= x < width ==>
                    RowMajor(yy, x, width) < |r| && r[RowMajor(yy, x, width)] == (Vector(x, yy), lines[yy][x])
      {
        ghost var before := r;
        for x := 0 to width
          invariant |r| == y * width + x
          invariant r[..y * width] == before
          invariant forall xx :: 0 <= xx < x ==> r[RowMajor(y, xx, width)] == (Vector(xx, y), lines[y][xx])
        {
          r := r + [(Vector(x, y), lines[y][x])];
        }
        forall yy, x | 0 <= yy < y && 0 <= x < width
          ensures RowMajor(yy, x, width) < |r| && r[RowMajor(yy, x, width)] == (Vector(x, yy), lines[yy][x])
        {
          RowMajorBelow(yy, y, x, width);
          assert r[RowMajor(yy, x, width)] == before[RowMajor(yy, x, width)];
        }
        assert (y + 1) * width == y * width + width;
      }
    }
  }

  /** The index of cell (x, y) in a row-major scan of rows of length w. */
  function RowMajor(y: nat, x: nat, w: nat): nat
  {
    y * w + x
  }

  lemma RowMajorBelow(yy: nat, y: nat, x: nat, w: nat)
    requires yy < y && x < w
    ensures RowMajor(yy, x, w) < y * w
  {
    assert (yy + 1) * w <= y * w;
  }

  /** The row-major index of a cell gives back its row and column. */
  lemma RowMajorDivMod(y: nat, x: nat, w: nat)
    requires x < w
    ensures RowMajor(y, x, w) / w == y && RowMajor(y, x, w) % w == x
  {
    var i := RowMajor(y, x, w);
    var k := i / w - y;
    assert w * k == x - i % w;
  }

  /** Every index of a row-major scan is the index of its own row and
      column, and an index below w * h lies in one of the h rows. */
  lemma RowMajorOfIndex(i: nat, w: nat, h: nat)
    requires w > 0 && i < w * h
    ensures i % w < w && i / w < h && RowMajor(i / w, i % w, w) == i
  {
  }

  /** The cells of h rows of width w have indices below w * h. */
  lemma RowMajorInside(y: nat, x: nat, w: nat, h: nat)
    requires y < h && x < w
    ensures RowMajor(y, x, w) < w * h
  {
    RowMajorBelow(y, h, x, w);
  }

  /** Distinct cells have distinct row-major indices, so scan_all yields no
      position twice. */
  lemma RowMajorInjective(y1: nat, x1: nat, y2: nat, x2: nat, w: nat)
    requires x1 < w && x2 < w
    requires RowMajor(y1, x1, w) == RowMajor(y2, x2, w)
    ensures y1 == y2 && x1 == x2
  {
    if y1 < y2 {
      RowMajorBelow(y1, y2, x1, w);
    } else if y2 < y1 {
      RowMajorBelow(y2, y1, x2, w);
    }
  }

  // ================================================================ LGrid

  /** The mutable grid. It owns a `Grid` (composition in place of the
      source's subclassing) and adds in-place updates and insertions. */
  class LGrid<T> {
    const grid: Grid<T>

    ghost predicate Valid()
      reads this, grid
    {
      grid.Valid()
    }

    constructor()
      ensures Valid() && fresh(grid) && grid.lines == [] && grid.width == 0
    {
      grid := new Grid<T>();
    }

    /** `add_line`, with the same contract as the base grid's. */
    method AddLine(line: seq<T>) returns (r: Outcome<Error>)
      requires Valid()
      modifies grid
      ensures Valid()
      ensures r.Pass? <==> (|old(grid.lines)| == 0 || |line| == old(grid.width))
      ensures r.Pass? ==> grid.lines == old(grid.lines) + [line] && grid.width == |line|
      ensures r.Fail? ==> r.error == WidthMismatch && grid.lines == old(grid.lines) && grid.width == old(grid.width)
    {
      r := grid.AddLine(line);
    }

    /** `set_cell`: replaces one in-bounds cell; nothing else changes. */
    method SetCell(pos: Vector, val: T) returns (r: Outcome<Error>)
      requires Valid()
      modifies grid
      ensures Valid()
      ensures grid.width == old(grid.width) && |grid.lines| == |old(grid.lines)|
      ensures r.Pass? <==> old(grid.IsInBounds(pos))
      ensures r.Pass? ==> grid.lines == old(grid.lines)[pos.y := old(grid.lines)[pos.y][pos.x := val]]
      ensures r.Pass? ==> grid.GetCell(pos) == Ok(val)
      ensures r.Fail? ==> r.error == OutOfBounds && grid.lines == old(grid.lines)
    {
      if !grid.IsInBounds(pos) {
        return Fail(OutOfBounds);
      }
      grid.lines := grid.lines[pos.y := grid.lines[pos.y][pos.x := val]];
      r := Pass;
    }

    /** `insert_row`: the new row goes at index y, later rows move down. */
    method InsertRow(y: int, row: seq<T>) returns (r: Outcome<Error>)
      requires Valid()
      modifies grid
      ensures Valid()
      ensures grid.width == old(grid.width)
      ensures r.Pass? <==> 0 <= y <= |old(grid.lines)| && |row| == old(grid.width)
      ensures r.Fail? ==> grid.lines == old(grid.lines)
      ensures r.Fail? ==> r.error == if 0 <= y <= |old(grid.lines)| then WidthMismatch else BadIndex
      ensures r.Pass? ==> grid.lines == old(grid.lines)[..y] + [row] + old(grid.lines)[y..]
      ensures r.Pass? ==> |grid.lines| == |old(grid.lines)| + 1
    {
      if !(0 <= y <= grid.Height()) {
        return Fail(BadIndex);
      }
      if |row| != grid.width {
        return Fail(WidthMismatch);
      }
      grid.lines := grid.lines[..y] + [row] + grid.lines[y..];
      r := Pass;
    }

    /** `insert_column`: every row i gets column[i] at index x, the entries
        from x on move one to the right, and the width grows by one. */
    method InsertColumn(x: int, column: seq<T>) returns (r: Outcome<Error>)
      requires Valid()
      modifies grid
      ensures Valid()
      ensures |grid.lines| == |old(grid.lines)|
      ensures r.Pass? <==> 0 <= x <= old(grid.width) && |column| == |old(grid.lines)|
      ensures r.Fail? ==> grid.lines == old(grid.lines) && grid.width == old(grid.width)
      ensures r.Fail? ==> r.error == if 0 <= x <= old(grid.width) then HeightMismatch else BadIndex
      ensures r.Pass? ==> grid.width == old(grid.width) + 1
      ensures r.Pass? ==> forall i, j :: 0 <= i < |grid.lines| && 0 <= j < grid.width ==>
                grid.lines[i][j] == if j < x then old(grid.lines)[i][j]
                                    else if j == x then column[i]
                                    else old(grid.lines)[i][j - 1]
    {
      if !(0 <= x <= grid.width) {
        return Fail(BadIndex);
      }
      if |column| != grid.Height() {
        return Fail(HeightMismatch);
      }
      ghost var before := grid.lines;
      var i := 0;
      while i < |grid.lines|
        invariant 0 <= i <= |grid.lines| == |before|
        invariant forall k :: 0 <= k < i ==> grid.lines[k] == before[k][..x] + [column[k]] + before[k][x..]
        invariant forall k :: i <= k < |before| ==> grid.lines[k] == before[k]
        invariant grid.width == old(grid.width)
      {
        grid.lines := grid.lines[i := grid.lines[i][..x] + [column[i]] + grid.lines[i][x..]];
        i := i + 1;
      }
      grid.width := grid.width + 1;
      r := Pass;
    }
  }

  // =========================================================== GridSearch

  /** The ascending positions at which `c` occurs in `s`. */
  function Occurrences(s: string, c: char): (r: seq<nat>)
    ensures forall k :: 0 <= k < |r| ==> r[k] < |s| && s[r[k]] == c
    ensures forall i :: 0 <= i < |s| && s[i] == c ==> i in r
    ensures forall k, l :: 0 <= k < l < |r| ==> r[k] < r[l]
  {
    if |s| == 0 then []
    else Occurrences(s[..|s| - 1], c) + (if s[|s| - 1] == c then [|s| - 1] else [])
  }

  /** `s` with every `c` replaced by `rep`. */
  function ReplaceAll(s: string, c: char, rep: char): (r: string)
    ensures |r| == |s|
    ensures forall i :: 0 <= i < |s| ==> r[i] == if s[i] == c then rep else s[i]
  {
    seq(|s|, i requires 0 <= i < |s| => if s[i] == c then rep else s[i])
  }

  /** `str.find(c, start)`: the first index at or after `start` holding `c`, or -1. */
  function Find(s: string, c: char, start: nat): (r: int)
    ensures r == -1 || (start <= r < |s| && s[r] == c)
    ensures forall i :: start <= i < |s| && (r == -1 || i < r) ==> s[i] != c
    decreases |s| - start
  {
    if start >= |s| then -1 else if s[start] == c then start else Find(s, c, start + 1)
  }

  /** The marker scanner: finds every `searchChar` in the lines fed to it,
      records where, and hands the lines back with the marker replaced. */
  class GridSearch {
    const searchChar: char
    const replaceChar: char
    const maxCount: Option<int>
    var results: seq<Vector>

    constructor(searchChar: char, replaceChar: char, maxCount: Option<int>)
      ensures this.searchChar == searchChar && this.replaceChar == replaceChar
      ensures this.maxCount == maxCount && results == []
    {
      this.searchChar, this.replaceChar, this.maxCount := searchChar, replaceChar, maxCount;
      results := [];
    }

    /** How many of `found` new occurrences can be recorded on top of `recorded`. */
    function Admitted(recorded: nat, found: nat): (k: nat)
      ensures k <= found
      ensures maxCount.None? ==> k == found
      ensures maxCount.Some? ==> (k == found || recorded + k == maxCount.value || (k == 0 && recorded >= maxCount.value))
      ensures maxCount.Some? && k > 0 ==> recorded + k <= maxCount.value
    {
      if maxCount.None? || recorded + found <= maxCount.value then found
      else if recorded >= maxCount.value then 0
      else maxCount.value - recorded
    }

    /** The count check before recording occurrence n (of `found`) decides
        whether n is exactly the admitted number. */
    lemma AdmittedStep(recorded: nat, found: nat, n: nat)
      requires n < found && n <= Admitted(recorded, found)
      ensures maxCount.Some? && recorded + n + 1 > maxCount.value ==> Admitted(recorded, found) == n
      ensures !(maxCount.Some? && recorded + n + 1 > maxCount.value) ==> n + 1 <= Admitted(recorded, found)
    {
    }

    /** A scanner that admits one occurrence takes all `found` new ones
        exactly when it holds at most one in total afterwards. */
    lemma AdmitOne(recorded: nat, found: nat)
      requires maxCount == Some(1) && recorded <= 1
      ensures Admitted(recorded, found) == found <==> recorded + found <= 1
    {
    }

    /** `search_line(line, y)`: every occurrence of the marker is recorded as
        (index, y), left to right; the count is checked before each record,
        so on overflow the occurrences accepted so far stay recorded. */
    method SearchLine(line: string, y: int) returns (r: Result<string, Error>)
      modifies this
      ensures var occ := Occurrences(line, searchChar);
              var k := Admitted(|old(results)|, |occ|);
              && results == old(results) + AtRow(occ[..k], y)
              && (r.Ok? <==> k == |occ|)
              && (r.Ok? ==> r.value == ReplaceAll(line, searchChar, replaceChar))
              && (r.Err? ==> r.error == TooManyMatches)
    {
      ghost var start := results;
      if searchChar !in line {
        NoOccurrences(line, searchChar);
        return Ok(line);
      }
      var recorded := results;
      var current := line;
      var ci := Find(current, searchChar, 0);
      ghost var n: nat := 0;
      ScanStart(line, y, start, ci);
      while ci != -1
        invariant Scanning(line, y, start, recorded, current, ci, n)
        invariant ci < |line|
        decreases |line| - (if ci == -1 then |line| else ci)
      {
        if maxCount.Some? && |recorded| + 1 > maxCount.value {
          ScanStop(line, y, start, recorded, current, ci, n);
          results := recorded;
          return Err(TooManyMatches);
        }
        ScanStep(line, y, start, recorded, current, ci, n);
        recorded := recorded + [Vector(ci, y)];
        // the slice-and-concatenate of a one-character replacement
        current := current[ci := replaceChar];
        ci := Find(current, searchChar, ci + 1);
        n := n + 1;
      }
      ScanDone(line, y, start, recorded, current, n);
      results := recorded;
      r := Ok(current);
    }

    /** The state of search_line's loop once n occurrences are recorded:
        `ci` is the next occurrence (or -1 after the last), the line is
        replaced up to it, and the admitted count has not been passed. */
    ghost predicate Scanning(line: string, y: int, start: seq<Vector>, recorded: seq<Vector>,
                             current: string, ci: int, n: nat)
    {
      var occ := Occurrences(line, searchChar);
      && n <= |occ| && n <= Admitted(|start|, |occ|)
      && (ci == -1 <==> n == |occ|)
      && (ci != -1 ==> ci == occ[n])
      && Agrees(current, ReplaceAll(line, searchChar, replaceChar), line, if ci == -1 then |line| else ci)
      && recorded == start + AtRow(occ[..n], y)
    }

    lemma ScanStart(line: string, y: int, start: seq<Vector>, ci: int)
      requires searchChar in line && ci == Find(line, searchChar, 0)
      ensures Scanning(line, y, start, start, line, ci, 0) && ci < |line|
    {
      FirstFind(line, searchChar, replaceChar, Occurrences(line, searchChar), ci);
    }

    lemma ScanStep(line: string, y: int, start: seq<Vector>, recorded: seq<Vector>,
                   current: string, ci: int, n: nat)
      requires Scanning(line, y, start, recorded, current, ci, n) && ci != -1
      requires !(maxCount.Some? && |recorded| + 1 > maxCount.value)
      ensures 0 <= ci < |current| == |line|
      ensures var after := current[ci := replaceChar];
              var next := Find(after, searchChar, ci + 1);
              && Scanning(line, y, start, recorded + [Vector(ci, y)], after, next, n + 1)
              && next < |line| && (next == -1 || ci < next)
    {
      var occ := Occurrences(line, searchChar);
      var after := current[ci := replaceChar];
      var next := Find(after, searchChar, ci + 1);
      AdmittedStep(|start|, |occ|, n);
      RecordStep(start, occ, n, y);
      OccurrenceAfter(line, searchChar, occ, n + 1, ci, next, after);
      ReplaceStep(line, searchChar, replaceChar, current, after, ci, if next == -1 then |line| else next);
    }

    lemma ScanStop(line: string, y: int, start: seq<Vector>, recorded: seq<Vector>,
                   current: string, ci: int, n: nat)
      requires Scanning(line, y, start, recorded, current, ci, n) && ci != -1
      requires maxCount.Some? && |recorded| + 1 > maxCount.value
      ensures var occ := Occurrences(line, searchChar);
              var k := Admitted(|start|, |occ|);
              recorded == start + AtRow(occ[..k], y) && k != |occ|
    {
      AdmittedStep(|start|, |Occurrences(line, searchChar)|, n);
    }

    lemma ScanDone(line: string, y: int, start: seq<Vector>, recorded: seq<Vector>, current: string, n: nat)
      requires Scanning(line, y, start, recorded, current, -1, n)
      ensures var occ := Occurrences(line, searchChar);
              var k := Admitted(|start|, |occ|);
              && recorded == start + AtRow(occ[..k], y) && k == |occ|
              && current == ReplaceAll(line, searchChar, replaceChar)
    {
      var occ := Occurrences(line, searchChar);
      assert occ[..n] == occ;
    }

    /** `single_result()`: the one recorded position, or an error when there
        is not exactly one. */
    function SingleResult(): (r: Result<Vector, Error>)
      reads this
      ensures r.Ok? <==> |results| == 1
      ensures r.Ok? ==> r.value == results[0] && r.value in results
      ensures r.Err? ==> r.error == InvalidResultCount
    {
      if |results| == 1 then Ok(results[0]) else Err(InvalidResultCount)
    }
  }

  /** After the n-th occurrence (at `ci`), the next `find` from ci + 1 lands on
      the (n+1)-th occurrence, or gives -1 when there is none. */
  lemma OccurrenceAfter(line: string, c: char, occ: seq<nat>, n: nat, ci: nat, next: int, current: string)
    requires occ == Occurrences(line, c)
    requires 1 <= n <= |occ| && occ[n - 1] == ci
    requires |current| == |line| && ci < |line| && forall i :: ci < i < |line| ==> current[i] == line[i]
    requires next == Find(current, c, ci + 1)
    ensures next == -1 <==> n == |occ|
    ensures next != -1 ==> next == occ[n]
    ensures forall i :: ci < i < (if next == -1 then |line| else next) ==> line[i] != c
  {
    if n < |occ| {
      assert ci < occ[n] && line[occ[n]] == c;
      if next != -1 && next < occ[n] {
        OccurrenceBetween(line, c, occ, n, next);
      }
    }
  }

  /** A line without the marker has no occurrences. */
  lemma NoOccurrences(line: string, c: char)
    requires c !in line
    ensures Occurrences(line, c) == []
  {
  }

  /** The first `find` lands on the first occurrence, and nothing before it
      needs replacing. */
  lemma FirstFind(line: string, c: char, rep: char, occ: seq<nat>, ci: int)
    requires occ == Occurrences(line, c) && ci == Find(line, c, 0) && c in line
    ensures ci != -1 && |occ| > 0 && ci == occ[0]
    ensures Agrees(line, ReplaceAll(line, c, rep), line, ci)
  {
  }

  /** No occurrence lies strictly between two consecutive ones. */
  lemma OccurrenceBetween(line: string, c: char, occ: seq<nat>, n: nat, i: nat)
    requires occ == Occurrences(line, c)
    requires 1 <= n < |occ| && occ[n - 1] < i < occ[n]
    ensures i >= |line| || line[i] != c
  {
  }

  /** The x positions `xs`, each paired with row y, in order. */
  function AtRow(xs: seq<nat>, y: int): (r: seq<Vector>)
    ensures |r| == |xs|
  {
    if |xs| == 0 then [] else AtRow(xs[..|xs| - 1], y) + [Vector(xs[|xs| - 1], y)]
  }

  /** The j-th recorded position is the j-th x paired with the row. */
  lemma {:induction false} AtRowIndex(xs: seq<nat>, y: int, j: nat)
    requires j < |xs|
    ensures AtRow(xs, y)[j] == Vector(xs[j], y)
    decreases |xs|
  {
    if j < |xs| - 1 {
      AtRowIndex(xs[..|xs| - 1], y, j);
    }
  }

  /** Recording occurrence n extends the recorded prefix by one. */
  lemma RecordStep(start: seq<Vector>, occ: seq<nat>, n: nat, y: int)
    requires n < |occ|
    ensures start + AtRow(occ[..n + 1], y) == (start + AtRow(occ[..n], y)) + [Vector(occ[n], y)]
  {
    assert occ[..n + 1][..n] == occ[..n];
  }

  /** `current` matches `replaced` before index b and `line` from b on. */
  ghost predicate Agrees(current: string, replaced: string, line: string, b: nat)
  {
    && |current| == |line| == |replaced| && b <= |line|
    && forall i :: 0 <= i < |line| ==> current[i] == if i < b then replaced[i] else line[i]
  }

  /** Replacing the occurrence at ci, when the next one is at `b`, extends the
      replaced prefix up to b. */
  lemma ReplaceStep(line: string, c: char, rep: char, before: string, after: string, ci: nat, b: nat)
    requires ci < b <= |line| && line[ci] == c
    requires forall i :: ci < i < b ==> line[i] != c
    requires Agrees(before, ReplaceAll(line, c, rep), line, ci)
    requires after == before[ci := rep]
    ensures Agrees(after, ReplaceAll(line, c, rep), line, b)
  {
  }
}
