/** Day 4: paper rolls ('@') on a grid. A roll is accessible when fewer than
    four of its eight neighbours are rolls. Part 1 counts the accessible
    rolls; part 2 keeps removing accessible rolls until none is left. */
module Day4 {
  import opened Wrappers
  import opened Text
  import opened Common

  // ================================================================ rolls

  /** There is a roll at `p`. */
  predicate IsRoll(lines: seq<seq<char>>, p: Vector)
  {
    0 <= p.y < |lines| && 0 <= p.x < |lines[p.y]| && lines[p.y][p.x] == '@'
  }

  /** How many of the directions `dirs` lead from `p` to a roll. */
  function AdjacentRolls(lines: seq<seq<char>>, p: Vector, dirs: seq<Direction>): nat
  {
    if |dirs| == 0 then 0
    else AdjacentRolls(lines, p, dirs[..|dirs| - 1]) + (if IsRoll(lines, p.Step(dirs[|dirs| - 1])) then 1 else 0)
  }

  /** A roll with fewer than four rolls among its eight neighbours. */
  predicate Accessible(lines: seq<seq<char>>, p: Vector)
  {
    IsRoll(lines, p) && AdjacentRolls(lines, p, DirectionsAll) < 4
  }

  /** The accessible rolls of a grid of width w. */
  ghost function AccessibleRolls(lines: seq<seq<char>>, w: nat): set<Vector>
  {
    set y, x | 0 <= y < |lines| && 0 <= x < w && Accessible(lines, Vector(x, y)) :: Vector(x, y)
  }

  /** All rolls of a grid of width w. */
  ghost function AllRolls(lines: seq<seq<char>>, w: nat): set<Vector>
  {
    set y, x | 0 <= y < |lines| && 0 <= x < w && IsRoll(lines, Vector(x, y)) :: Vector(x, y)
  }

  /** The number of rolls in a row. */
  function RowRolls(row: seq<char>): nat
  {
    if |row| == 0 then 0 else RowRolls(row[..|row| - 1]) + (if row[|row| - 1] == '@' then 1 else 0)
  }

  /** The number of rolls in the grid. */
  function RollCount(lines: seq<seq<char>>): nat
  {
    if |lines| == 0 then 0 else RollCount(lines[..|lines| - 1]) + RowRolls(lines[|lines| - 1])
  }

  /** The grid with the roll at `p` taken away. */
  function Remove(lines: seq<seq<char>>, p: Vector): seq<seq<char>>
    requires IsRoll(lines, p)
  {
    lines[p.y := lines[p.y][p.x := '.']]
  }

  /** `after` is `before` with some rolls taken away and nothing else changed. */
  ghost predicate OnlyRemoved(before: seq<seq<char>>, after: seq<seq<char>>)
  {
    |after| == |before| &&
    (forall y :: 0 <= y < |before| ==> |after[y]| == |before[y]|) &&
    forall y, x :: 0 <= y < |before| && 0 <= x < |before[y]| ==>
      after[y][x] == before[y][x] || (before[y][x] == '@' && after[y][x] == '.')
  }

  // ======================================================= counting lemmas

  lemma {:induction false} RowRollsSet(row: seq<char>, x: nat)
    requires x < |row| && row[x] == '@'
    ensures RowRolls(row[x := '.']) + 1 == RowRolls(row)
    decreases |row|
  {
    var n := |row|;
    if x < n - 1 {
      assert row[x := '.'][..n - 1] == row[..n - 1][x := '.'];
      RowRollsSet(row[..n - 1], x);
    } else {
      assert row[x := '.'][..n - 1] == row[..n - 1];
    }
  }

  /** Taking a roll away lowers the roll count by exactly one. */
  lemma {:induction false} RemoveCounts(lines: seq<seq<char>>, p: Vector)
    requires IsRoll(lines, p)
    ensures RollCount(Remove(lines, p)) + 1 == RollCount(lines)
    decreases |lines|
  {
    var n := |lines|;
    var after := Remove(lines, p);
    if p.y < n - 1 {
      assert after[..n - 1] == Remove(lines[..n - 1], p);
      RemoveCounts(lines[..n - 1], p);
    } else {
      assert after[..n - 1] == lines[..n - 1];
      RowRollsSet(lines[p.y], p.x);
    }
  }

  /** A neighbour count does not see a removal at a cell none of the
      directions reaches. */
  lemma {:induction false} AdjacentUnchanged(lines: seq<seq<char>>, p: Vector, l: Vector, dirs: seq<Direction>)
    requires IsRoll(lines, l)
    requires forall d :: d in dirs ==> p.Step(d) != l
    ensures AdjacentRolls(Remove(lines, l), p, dirs) == AdjacentRolls(lines, p, dirs)
    decreases |dirs|
  {
    if |dirs| > 0 {
      AdjacentUnchanged(lines, p, l, dirs[..|dirs| - 1]);
      assert dirs[|dirs| - 1] in dirs;
    }
  }

  /** Every direction is one of the eight. */
  lemma AllListed(d: Direction)
    ensures d in DirectionsAll
  {
  }

  /** Stepping back the inverse way returns to the start, so adjacency is
      symmetric. */
  lemma StepBack(p: Vector, d: Direction)
    ensures p.Step(d).Step(d.Inverse()) == p
  {
    InverseProperties(d);
    StepOpposite(p, d, d.Inverse());
  }

  lemma StepOpposite(p: Vector, d: Direction, e: Direction)
    requires e.Value() == (-d.Value().0, -d.Value().1)
    ensures p.Step(d).Step(e) == p
  {
    var q := p.Step(d);
    assert q.x == p.x + d.Value().0 && q.y == p.y + d.Value().1;
    var r := q.Step(e);
    assert r.x == q.x + e.Value().0 && r.y == q.y + e.Value().1;
  }

  // =============================================== look_around and rolls

  /** The positions of the rolls among `look_around` pairs:
      `al for al, ai in ... if ai == '@'`. */
  function RollsOf(ns: seq<(Vector, char)>): (r: seq<Vector>)
    ensures |r| <= |ns|
  {
    if |ns| == 0 then []
    else RollsOf(ns[..|ns| - 1]) + (if ns[|ns| - 1].1 == '@' then [ns[|ns| - 1].0] else [])
  }

  /** A step always moves. */
  lemma StepMoves(p: Vector, d: Direction)
    ensures p.Step(d) != p
  {
    assert d.Value() != (0, 0);
  }

  /** One more direction adds its neighbour's position to the rolls exactly
      when that neighbour holds a roll. */
  lemma RollsOfStep(g: Grid<char>, pos: Vector, dirs: seq<Direction>)
    requires g.Valid() && |dirs| > 0
    ensures var v := pos.Step(dirs[|dirs| - 1]);
            RollsOf(g.Neighbours(pos, dirs)) ==
            RollsOf(g.Neighbours(pos, dirs[..|dirs| - 1])) + (if IsRoll(g.lines, v) then [v] else [])
  {
    var prev := g.Neighbours(pos, dirs[..|dirs| - 1]);
    var ns := g.Neighbours(pos, dirs);
    var v := pos.Step(dirs[|dirs| - 1]);
    if g.IsInBounds(v) {
      assert ns == prev + [(v, g.lines[v.y][v.x])];
      assert ns[..|ns| - 1] == prev;
    } else {
      assert ns == prev;
      assert !IsRoll(g.lines, v);
    }
  }

  /** The rolls `look_around` reports are exactly the rolls one step away
      along the given directions, one per such direction. */
  lemma {:induction false} NeighbourRolls(g: Grid<char>, pos: Vector, dirs: seq<Direction>)
    requires g.Valid()
    ensures |RollsOf(g.Neighbours(pos, dirs))| == AdjacentRolls(g.lines, pos, dirs)
    ensures forall d :: d in dirs && IsRoll(g.lines, pos.Step(d)) ==> pos.Step(d) in RollsOf(g.Neighbours(pos, dirs))
    ensures forall v :: v in RollsOf(g.Neighbours(pos, dirs)) ==> IsRoll(g.lines, v) && v != pos
    decreases |dirs|
  {
    if |dirs| > 0 {
      var init := dirs[..|dirs| - 1];
      var last := dirs[|dirs| - 1];
      NeighbourRolls(g, pos, init);
      RollsOfStep(g, pos, dirs);
      StepMoves(pos, last);
      var ns := g.Neighbours(pos, dirs);
      forall d | d in dirs && IsRoll(g.lines, pos.Step(d))
        ensures pos.Step(d) in RollsOf(ns)
      {
        if d != last {
          assert d in init;
        }
      }
    }
  }

  /** The rolls around `pos`, as both parts gather them from `look_around`
      over all eight directions: one position per neighbouring roll, never
      `pos` itself. */
  method RollsAround(g: Grid<char>, pos: Vector) returns (adjacent: seq<Vector>)
    requires g.Valid()
    ensures |adjacent| == AdjacentRolls(g.lines, pos, DirectionsAll)
    ensures forall d :: d in DirectionsAll && IsRoll(g.lines, pos.Step(d)) ==> pos.Step(d) in adjacent
    ensures forall v :: v in adjacent ==> IsRoll(g.lines, v) && v != pos
  {
    var around := g.LookAround(pos, DirectionsAll);
    adjacent := RollsOf(around);
    NeighbourRolls(g, pos, DirectionsAll);
  }

  // ============================================================ parsing

  /** The rows added one by one; a row of another length than the first
      makes `add_line` refuse it. */
  method BuildGrid(lines: seq<string>) returns (r: Result<LGrid<char>, Error>)
    ensures r.Ok? <==> Uniform(lines)
    ensures r.Ok? ==> fresh(r.value) && fresh(r.value.grid) && r.value.Valid()
    ensures r.Ok? ==> r.value.grid.lines == lines && r.value.grid.width == Width(lines)
    ensures r.Err? ==> r.error == WidthMismatch
  {
    var grid := new LGrid<char>();
    for i := 0 to |lines|
      invariant fresh(grid) && fresh(grid.grid) && grid.Valid()
      invariant grid.grid.lines == lines[..i]
      invariant grid.grid.width == if i == 0 then 0 else |lines[0]|
      invariant forall k :: 0 <= k < i ==> |lines[k]| == |lines[0]|
    {
      var added := grid.AddLine(lines[i]);
      if added.Fail? {
        return Err(added.error);
      }
      assert lines[..i + 1] == lines[..i] + [lines[i]];
    }
    assert lines[..|lines|] == lines;
    r := Ok(grid);
  }

  /** `parse_input`: one grid row per line of the input. */
  method ParseInput(input: string) returns (r: Result<LGrid<char>, Error>)
    ensures r.Ok? <==> Uniform(LineIterator(input))
    ensures r.Ok? ==> fresh(r.value) && fresh(r.value.grid) && r.value.Valid()
    ensures r.Ok? ==> r.value.grid.lines == LineIterator(input) && r.value.grid.width == Width(LineIterator(input))
    ensures r.Err? ==> r.error == WidthMismatch
  {
    r := BuildGrid(LineIterator(input));
  }

  // ============================================================= part 1

  /** What `scan_all` promises, restated without division: every scanned
      pair is an in-bounds cell with its value, at its own row-major index,
      and every in-bounds cell is scanned at its row-major index. */
  ghost predicate ScansGrid(g: Grid<char>, cells: seq<(Vector, char)>)
    reads g
    requires g.Valid()
  {
    (forall j :: 0 <= j < |cells| ==>
       g.IsInBounds(cells[j].0) && cells[j].1 == g.Cell(cells[j].0) &&
       RowMajor(cells[j].0.y, cells[j].0.x, g.width) == j) &&
    forall p :: g.IsInBounds(p) ==>
      RowMajor(p.y, p.x, g.width) < |cells| && cells[RowMajor(p.y, p.x, g.width)].0 == p
  }

  lemma ScanFacts(g: Grid<char>, cells: seq<(Vector, char)>)
    requires g.Valid() && |cells| == g.width * g.Height()
    requires forall y, x :: 0 <= y < g.Height() && 0 <= x < g.width ==>
               RowMajor(y, x, g.width) < |cells| && cells[RowMajor(y, x, g.width)] == (Vector(x, y), g.lines[y][x])
    ensures ScansGrid(g, cells)
  {
    forall j | 0 <= j < |cells|
      ensures g.IsInBounds(cells[j].0) && cells[j].1 == g.Cell(cells[j].0)
      ensures RowMajor(cells[j].0.y, cells[j].0.x, g.width) == j
    {
      ScanIndex(g, cells, j);
    }
    forall p | g.IsInBounds(p)
      ensures RowMajor(p.y, p.x, g.width) < |cells| && cells[RowMajor(p.y, p.x, g.width)].0 == p
    {
      RowMajorInside(p.y, p.x, g.width, g.Height());
    }
  }

  /** The j-th scanned pair is the cell at row j / w, column j % w. */
  lemma ScanIndex(g: Grid<char>, cells: seq<(Vector, char)>, j: nat)
    requires g.Valid() && |cells| == g.width * g.Height() && j < |cells|
    requires forall y, x :: 0 <= y < g.Height() && 0 <= x < g.width ==>
               RowMajor(y, x, g.width) < |cells| && cells[RowMajor(y, x, g.width)] == (Vector(x, y), g.lines[y][x])
    ensures g.IsInBounds(cells[j].0) && cells[j].1 == g.Cell(cells[j].0)
    ensures RowMajor(cells[j].0.y, cells[j].0.x, g.width) == j
  {
    var w, h := g.width, g.Height();
    PositiveWidth(w, h, j);
    RowMajorOfIndex(j, w, h);
    var y, x := j / w, j % w;
    assert cells[RowMajor(y, x, w)] == (Vector(x, y), g.lines[y][x]);
  }

  /** An index below w * h means the width is not zero. */
  lemma PositiveWidth(w: nat, h: nat, j: nat)
    requires j < w * h
    ensures w > 0
  {
  }

  /** The accessible rolls among the first i + 1 scanned cells. */
  lemma SeenStep(lines: seq<seq<char>>, cells: seq<(Vector, char)>, i: nat)
    requires i < |cells|
    ensures (set j | 0 <= j < i + 1 && Accessible(lines, cells[j].0) :: cells[j].0)
         == (set j | 0 <= j < i && Accessible(lines, cells[j].0) :: cells[j].0)
            + (if Accessible(lines, cells[i].0) then {cells[i].0} else {})
  {
  }

  /** The i-th scanned cell is accessible exactly when it holds a roll with
      fewer than four neighbouring rolls, and it was not scanned before. */
  lemma CellStep(g: Grid<char>, cells: seq<(Vector, char)>, i: nat, count: nat)
    requires g.Valid() && ScansGrid(g, cells) && i < |cells|
    requires cells[i].1 == '@' ==> count == AdjacentRolls(g.lines, cells[i].0, DirectionsAll)
    ensures Accessible(g.lines, cells[i].0) <==> cells[i].1 == '@' && count < 4
    ensures forall j :: 0 <= j < i ==> cells[j].0 != cells[i].0
  {
    assert g.IsInBounds(cells[i].0) && cells[i].1 == g.Cell(cells[i].0);
    forall j | 0 <= j < i
      ensures cells[j].0 != cells[i].0
    {
      assert RowMajor(cells[j].0.y, cells[j].0.x, g.width) == j;
    }
  }

  /** The accessible rolls met in a whole scan are all the accessible rolls. */
  lemma SeenAll(g: Grid<char>, cells: seq<(Vector, char)>)
    requires g.Valid() && ScansGrid(g, cells)
    ensures (set j | 0 <= j < |cells| && Accessible(g.lines, cells[j].0) :: cells[j].0)
         == AccessibleRolls(g.lines, g.width)
  {
    var seen := set j | 0 <= j < |cells| && Accessible(g.lines, cells[j].0) :: cells[j].0;
    forall p | p in AccessibleRolls(g.lines, g.width)
      ensures p in seen
    {
      var j := RowMajor(p.y, p.x, g.width);
      assert cells[j].0 == p;
    }
  }

  /** `solve_part1`'s loop: the number of accessible rolls. */
  method AccessibleCount(lg: LGrid<char>) returns (res: nat)
    requires lg.Valid()
    ensures res == |AccessibleRolls(lg.grid.lines, lg.grid.width)|
  {
    var g := lg.grid;
    var cells := g.ScanAll();
    ScanFacts(g, cells);
    res := 0;
    ghost var seen: set<Vector> := {};
    for i := 0 to |cells|
      invariant res == |seen|
      invariant seen == set j | 0 <= j < i && Accessible(g.lines, cells[j].0) :: cells[j].0
    {
      var (l, item) := cells[i];
      SeenStep(g.lines, cells, i);
      if item != '@' {
        CellStep(g, cells, i, 0);
        continue;
      }
      var adjacent := RollsAround(g, l);
      CellStep(g, cells, i, |adjacent|);
      if |adjacent| < 4 {
        res := res + 1;
        seen := seen + {l};
      }
    }
    SeenAll(g, cells);
  }

  // ============================================================= part 2

  /** `set(v for v, it in grid.scan_all() if it == '@')`: the positions of
      all rolls. */
  method AllRollPositions(g: Grid<char>) returns (toScan: set<Vector>)
    requires g.Valid()
    ensures forall p :: p in toScan <==> IsRoll(g.lines, p)
  {
    var cells := g.ScanAll();
    ScanFacts(g, cells);
    toScan := set i | 0 <= i < |cells| && cells[i].1 == '@' :: cells[i].0;
    forall p
      ensures IsRoll(g.lines, p) ==> p in toScan
    {
      if IsRoll(g.lines, p) {
        var j := RowMajor(p.y, p.x, g.width);
        assert cells[j].0 == p;
      }
    }
  }

  /** The worklist invariant of part 2: the queued positions hold rolls,
      and every roll that is not queued has at least four neighbouring
      rolls. */
  ghost predicate Worklist(lines: seq<seq<char>>, toScan: set<Vector>)
  {
    (forall p :: p in toScan ==> IsRoll(lines, p)) &&
    forall p :: IsRoll(lines, p) && p !in toScan ==> AdjacentRolls(lines, p, DirectionsAll) >= 4
  }

  /** Taking a roll away keeps every other roll. */
  lemma RemoveKeeps(lines: seq<seq<char>>, l: Vector, p: Vector)
    requires IsRoll(lines, l)
    ensures IsRoll(Remove(lines, l), p) <==> IsRoll(lines, p) && p != l
  {
  }

  /** Taking one more roll away keeps `OnlyRemoved`. */
  lemma OnlyRemovedStep(orig: seq<seq<char>>, lines: seq<seq<char>>, l: Vector)
    requires OnlyRemoved(orig, lines) && IsRoll(lines, l)
    ensures OnlyRemoved(orig, Remove(lines, l))
  {
  }

  /** The removal step keeps the worklist invariant: the removed roll's
      neighbouring rolls are queued again, and every other roll keeps its
      neighbour count. */
  lemma RemovalStep(lines: seq<seq<char>>, l: Vector, adjacent: seq<Vector>, toScan: set<Vector>)
    requires IsRoll(lines, l) && l !in toScan
    requires forall d :: d in DirectionsAll && IsRoll(lines, l.Step(d)) ==> l.Step(d) in adjacent
    requires forall v :: v in adjacent ==> IsRoll(lines, v) && v != l
    requires Worklist(lines, toScan + {l})
    ensures Worklist(Remove(lines, l), toScan + (set v | v in adjacent))
  {
    var after := Remove(lines, l);
    var queued := toScan + (set v | v in adjacent);
    forall p | p in queued
      ensures IsRoll(after, p)
    {
      RemoveKeeps(lines, l, p);
    }
    forall p | IsRoll(after, p) && p !in queued
      ensures AdjacentRolls(after, p, DirectionsAll) >= 4
    {
      RemoveKeeps(lines, l, p);
      assert p != l && IsRoll(lines, p) && p !in toScan + {l};
      forall d | d in DirectionsAll
        ensures p.Step(d) != l
      {
        if p.Step(d) == l {
          StepBack(p, d);
          AllListed(d.Inverse());
          assert false;
        }
      }
      AdjacentUnchanged(lines, p, l, DirectionsAll);
    }
  }

  // ================================================ the result of part 2

  /** No roll of the grid is accessible. */
  ghost predicate Stable(lines: seq<seq<char>>)
  {
    forall p :: !Accessible(lines, p)
  }

  /** Every roll of `small` is a roll of `large`. */
  ghost predicate RollsWithin(small: seq<seq<char>>, large: seq<seq<char>>)
  {
    forall p :: IsRoll(small, p) ==> IsRoll(large, p)
  }

  /** `lines` still holds every roll of every stable grid obtainable from
      `orig` by taking rolls away. */
  ghost predicate KeepsStable(orig: seq<seq<char>>, lines: seq<seq<char>>)
  {
    forall s :: OnlyRemoved(orig, s) && Stable(s) ==> RollsWithin(s, lines)
  }

  /** What part 2 ends with: the greatest stable grid obtainable from `orig`
      by taking rolls away. */
  ghost predicate Peeled(orig: seq<seq<char>>, fin: seq<seq<char>>)
  {
    OnlyRemoved(orig, fin) && Stable(fin) && KeepsStable(orig, fin)
  }

  /** Fewer rolls, fewer neighbouring rolls. */
  lemma {:induction false} AdjacentMonotone(small: seq<seq<char>>, large: seq<seq<char>>, p: Vector, dirs: seq<Direction>)
    requires RollsWithin(small, large)
    ensures AdjacentRolls(small, p, dirs) <= AdjacentRolls(large, p, dirs)
    decreases |dirs|
  {
    if |dirs| > 0 {
      AdjacentMonotone(small, large, p, dirs[..|dirs| - 1]);
    }
  }

  /** The starting grid holds the rolls of everything obtainable from it. */
  lemma KeepsStableStart(orig: seq<seq<char>>)
    ensures KeepsStable(orig, orig)
  {
    forall s | OnlyRemoved(orig, s) && Stable(s)
      ensures RollsWithin(s, orig)
    {
      forall p | IsRoll(s, p)
        ensures IsRoll(orig, p)
      {
        assert 0 <= p.y < |orig| && 0 <= p.x < |orig[p.y]|;
      }
    }
  }

  /** A roll with fewer than four neighbouring rolls belongs to no stable
      grid within the current one, so removing it keeps `KeepsStable`. */
  lemma KeepsStableStep(orig: seq<seq<char>>, lines: seq<seq<char>>, l: Vector)
    requires KeepsStable(orig, lines) && IsRoll(lines, l)
    requires AdjacentRolls(lines, l, DirectionsAll) < 4
    ensures KeepsStable(orig, Remove(lines, l))
  {
    forall s | OnlyRemoved(orig, s) && Stable(s)
      ensures RollsWithin(s, Remove(lines, l))
    {
      assert RollsWithin(s, lines);
      AdjacentMonotone(s, lines, l, DirectionsAll);
      assert !Accessible(s, l);
      forall p | IsRoll(s, p)
        ensures IsRoll(Remove(lines, l), p)
      {
        RemoveKeeps(lines, l, p);
      }
    }
  }

  /** Two grids obtained from the same grid by taking rolls away, with the
      same rolls, are equal. */
  lemma SameRollsSameGrid(orig: seq<seq<char>>, a: seq<seq<char>>, b: seq<seq<char>>)
    requires OnlyRemoved(orig, a) && OnlyRemoved(orig, b)
    requires RollsWithin(a, b) && RollsWithin(b, a)
    ensures a == b
  {
    forall y | 0 <= y < |a|
      ensures a[y] == b[y]
    {
      forall x | 0 <= x < |a[y]|
        ensures a[y][x] == b[y][x]
      {
        assert IsRoll(a, Vector(x, y)) <==> IsRoll(b, Vector(x, y));
      }
    }
  }

  /** Part 2's end grid does not depend on the order in which the worklist
      is popped: there is only one greatest stable grid. */
  lemma PeeledUnique(orig: seq<seq<char>>, f1: seq<seq<char>>, f2: seq<seq<char>>)
    requires Peeled(orig, f1) && Peeled(orig, f2)
    ensures f1 == f2
  {
    assert RollsWithin(f1, f2);
    assert RollsWithin(f2, f1);
    SameRollsSameGrid(orig, f1, f2);
  }

  /** The rolls accessible at the start are all removed by part 2. */
  lemma AccessibleRemoved(orig: seq<seq<char>>, fin: seq<seq<char>>, p: Vector)
    requires Peeled(orig, fin) && Accessible(orig, p)
    ensures !IsRoll(fin, p)
  {
    if IsRoll(fin, p) {
      assert RollsWithin(fin, orig) by {
        KeepsStableStart(orig);
        forall q | IsRoll(fin, q)
          ensures IsRoll(orig, q)
        {
          assert 0 <= q.y < |orig| && 0 <= q.x < |orig[q.y]|;
        }
      }
      AdjacentMonotone(fin, orig, p, DirectionsAll);
      assert Accessible(fin, p);
      assert false;
    }
  }

  /** `solve_part2`'s loop: pops positions from the worklist, removes each
      popped roll with fewer than four neighbouring rolls and queues those
      neighbours again, until the worklist is empty. The count is the number
      of rolls removed and the grid ends as the greatest stable grid within
      the starting one, whatever the popping order. */
  method RemoveAccessible(lg: LGrid<char>) returns (res: nat)
    requires lg.Valid()
    modifies lg.grid
    ensures lg.Valid() && lg.grid.width == old(lg.grid.width)
    ensures Peeled(old(lg.grid.lines), lg.grid.lines)
    ensures res + RollCount(lg.grid.lines) == RollCount(old(lg.grid.lines))
  {
    var g := lg.grid;
    res := 0;
    var toScan := AllRollPositions(g);
    KeepsStableStart(g.lines);
    while |toScan| > 0
      invariant lg.Valid() && g == lg.grid && g.width == old(g.width)
      invariant OnlyRemoved(old(g.lines), g.lines)
      invariant KeepsStable(old(g.lines), g.lines)
      invariant res + RollCount(g.lines) == RollCount(old(g.lines))
      invariant Worklist(g.lines, toScan)
      decreases RollCount(g.lines), |toScan|
    {
      var l :| l in toScan;
      ghost var queue := toScan;
      toScan := toScan - {l};
      var adjacent := RollsAround(g, l);
      if |adjacent| < 4 {
        ghost var before := g.lines;
        assert toScan + {l} == queue;
        RemovalStep(before, l, adjacent, toScan);
        RemoveCounts(before, l);
        OnlyRemovedStep(old(g.lines), before, l);
        KeepsStableStep(old(g.lines), before, l);
        var removed := lg.SetCell(l, '.');
        assert g.lines == Remove(before, l);
        res := res + 1;
        toScan := toScan + (set v | v in adjacent);
      }
    }
  }

  /** `solve_part1`: parse, then count the accessible rolls; a ragged grid
      makes parsing fail. */
  method SolvePart1(input: string) returns (r: Result<nat, Error>)
    ensures r.Ok? <==> Uniform(LineIterator(input))
    ensures r.Ok? ==> r.value == |AccessibleRolls(LineIterator(input), Width(LineIterator(input)))|
  {
    var parsed := ParseInput(input);
    if parsed.Err? {
      return Err(parsed.error);
    }
    var count := AccessibleCount(parsed.value);
    r := Ok(count);
  }

  /** `solve_part2`: parse, then remove accessible rolls until none is left,
      counting them. */
  method SolvePart2(input: string) returns (r: Result<nat, Error>)
    ensures r.Ok? <==> Uniform(LineIterator(input))
    ensures r.Ok? ==> exists fin :: Peeled(LineIterator(input), fin) &&
                                    r.value + RollCount(fin) == RollCount(LineIterator(input))
  {
    var parsed := ParseInput(input);
    if parsed.Err? {
      return Err(parsed.error);
    }
    var count := RemoveAccessible(parsed.value);
    r := Ok(count);
  }
}
