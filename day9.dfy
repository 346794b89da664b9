/** Day 9: red tiles at the corners of a rectilinear loop. The loop is
    walked tile by tile from each red tile to the next (and from the last
    back to the first); a flood fill on a mutable overlay grid marks the
    region on one side of it; and a rectangle between two corners is
    checked cell by cell against the fill character. */
module Day9 {
  import opened Wrappers
  import opened Text
  import opened Common

  /** The exceptions the solver lets escape. */
  datatype Error =
    | ValueError    // a line that is not two comma-separated integers
    | IndexError    // the walk asked for the first tile of an empty list
    | RuntimeError  // two consecutive red tiles identical, or not on one row or column

  // ============================================================= parsing

  /** One line of the input: `x, y = (int(n) for n in line.split(','))`.
      A wrong number of pieces and a piece `int` refuses both raise
      ValueError. */
  function ParseTile(line: string): (r: Result<Vector, Error>)
    ensures r.Err? ==> r.error == ValueError
  {
    var parts := SplitOn(line, ',');
    if |parts| != 2 then Err(ValueError)
    else
      var x, y := ParseInt(parts[0]), ParseInt(parts[1]);
      if x.None? || y.None? then Err(ValueError)
      else Ok(Vector(x.value, y.value))
  }

  /** A tile written back as a line of the input. */
  function FormatTile(v: Vector): string
  {
    Join([IntToString(v.x), IntToString(v.y)], ',')
  }

  /** Parsing a formatted tile gives it back. */
  lemma ParseFormatTile(v: Vector)
    ensures ParseTile(FormatTile(v)) == Ok(v)
  {
    var parts := [IntToString(v.x), IntToString(v.y)];
    NoComma(v.x);
    NoComma(v.y);
    SplitOnJoin(parts, ',');
    ParseIntOfIntString(v.x);
    ParseIntOfIntString(v.y);
  }

  /** Each line parsed on its own. */
  function ParsedLines(lines: seq<string>): (rs: seq<Result<Vector, Error>>)
    ensures |rs| == |lines| && forall i :: 0 <= i < |lines| ==> rs[i] == ParseTile(lines[i])
  {
    seq(|lines|, i requires 0 <= i < |lines| => ParseTile(lines[i]))
  }

  /** The tiles of the lines, or the error of the first bad line. */
  function ParseAll(lines: seq<string>): Result<seq<Vector>, Error>
  {
    Collect(ParsedLines(lines))
  }

  /** The lines parse exactly when each of them does, into the tiles the
      lines hold in order; otherwise ValueError. */
  lemma ParseAllMeaning(lines: seq<string>)
    ensures var r := ParseAll(lines);
            && (r.Ok? <==> forall i :: 0 <= i < |lines| ==> ParseTile(lines[i]).Ok?)
            && (r.Err? ==> r.error == ValueError)
            && (r.Ok? ==> |r.value| == |lines| && forall i :: 0 <= i < |lines| ==> Ok(r.value[i]) == ParseTile(lines[i]))
  {
    CollectMeaning(ParsedLines(lines));
  }

  /** Lines each written from a tile parse back into the tiles. */
  lemma ParseFormatLines(tiles: seq<Vector>)
    ensures ParseAll(seq(|tiles|, i requires 0 <= i < |tiles| => FormatTile(tiles[i]))) == Ok(tiles)
  {
    var lines := seq(|tiles|, i requires 0 <= i < |tiles| => FormatTile(tiles[i]));
    forall i | 0 <= i < |tiles|
      ensures ParsedLines(lines)[i] == Ok(tiles[i])
    {
      ParseFormatTile(tiles[i]);
    }
    CollectOf(ParsedLines(lines), tiles);
  }

  /** `parse_input`: one red tile per line; the first bad line raises. */
  method ParseInput(input: string) returns (r: Result<seq<Vector>, Error>)
    ensures r == ParseAll(LineIterator(input))
  {
    r := ParseLines(LineIterator(input));
  }

  /** The loop of `parse_input` over the lines. */
  method ParseLines(lines: seq<string>) returns (r: Result<seq<Vector>, Error>)
    ensures r == ParseAll(lines)
  {
    ghost var rs := ParsedLines(lines);
    var tiles: seq<Vector> := [];
    for i := 0 to |lines|
      invariant Collect(rs[..i]) == Ok(tiles)
    {
      assert rs[..i + 1][..i] == rs[..i];
      var parsed := ParseTile(lines[i]);
      assert rs[i] == parsed;
      if parsed.Err? {
        CollectFails(rs, i + 1);
        return Err(parsed.error);
      }
      tiles := tiles + [parsed.value];
    }
    assert rs[..|lines|] == rs;
    r := Ok(tiles);
  }

  // ========================================================= the walk

  /** One item the walk yields: the direction of the current segment, the
      current tile and whether it is a red (corner) tile. */
  datatype WalkStep = WalkStep(direction: Direction, location: Vector, corner: bool)

  /** The number of unit steps from c1 to c2. */
  function Length(c1: Vector, c2: Vector): nat
  {
    c2.Sub(c1).ManhattanDistance()
  }

  /** The direction of the segment from c1 to c2: Left or Right on a row,
      Up or Down on a column; identical tiles and tiles on neither a common
      row nor a common column raise. Going that many unit steps in that
      direction from c1 reaches c2. */
  function SegmentDirection(c1: Vector, c2: Vector): (r: Result<Direction, Error>)
    ensures r.Ok? <==> c1 != c2 && (c1.x == c2.x || c1.y == c2.y)
    ensures r.Err? ==> r.error == RuntimeError
    ensures r.Ok? ==> r.value in DirectionsCardinal && Length(c1, c2) > 0
    ensures r.Ok? ==> c1.MoveIn(r.value, Length(c1, c2)) == c2
  {
    if c1 == c2 then Err(RuntimeError)
    else if c1.y == c2.y then Ok(if c2.x < c1.x then Left else Right)
    else if c1.x == c2.x then Ok(if c2.y < c1.y then Up else Down)
    else Err(RuntimeError)
  }

  /** The items of one segment: the n tiles c1, c1 + d, ... before the
      segment's end, only the first marked as a corner, then the end
      itself, marked, when `lastStep` is set. */
  function Segment(c1: Vector, d: Direction, n: nat, lastStep: bool): (s: seq<WalkStep>)
    ensures |s| == n + (if lastStep then 1 else 0)
  {
    seq(n, k => WalkStep(d, c1.MoveIn(d, k), k == 0))
      + (if lastStep then [WalkStep(d, c1.MoveIn(d, n), true)] else [])
  }

  /** A cardinal direction moves somewhere: different distances lead to
      different tiles. */
  lemma MoveInInjective(v: Vector, d: Direction, a: int, b: int)
    requires d in DirectionsCardinal && v.MoveIn(d, a) == v.MoveIn(d, b)
    ensures a == b
  {
  }

  /** The inner loop of `walk_red_green_tiles`: from c1, while the current
      tile is not c2, yield it and step on; then, with `lastStep`, yield c2. */
  method WalkSegment(c1: Vector, c2: Vector, d: Direction, lastStep: bool) returns (out: seq<WalkStep>)
    requires SegmentDirection(c1, c2) == Ok(d)
    ensures out == Segment(c1, d, Length(c1, c2), lastStep)
  {
    ghost var n := Length(c1, c2);
    ghost var k := 0;
    var cur := c1;
    out := [];
    while cur != c2
      invariant 0 <= k <= n && cur == c1.MoveIn(d, k)
      invariant out == Segment(c1, d, k, false)
      decreases n - k
    {
      if k == n {
        assert false;
      }
      if cur == c1 && k != 0 {
        MoveInInjective(c1, d, k, 0);
      }
      out := out + [WalkStep(d, cur, cur == c1)];
      cur := cur.Step(d);
      MoveInCompose(c1, d, k, 1);
      k := k + 1;
    }
    if k != n {
      MoveInInjective(c1, d, k, n);
    }
    if lastStep {
      out := out + [WalkStep(d, cur, true)];
    }
  }

  /** `pairwise(chain(red_tiles, (red_tiles[0],)))`: each red tile with the
      next one, the last with the first. */
  function Pairs(tiles: seq<Vector>): (ps: seq<(Vector, Vector)>)
    ensures |ps| == |tiles|
  {
    seq(|tiles|, i requires 0 <= i < |tiles| =>
      (tiles[i], if i + 1 < |tiles| then tiles[i + 1] else tiles[0]))
  }

  /** The items of the segment from c1 to c2, or the error it raises. */
  function SegmentOf(p: (Vector, Vector), lastStep: bool): Result<seq<WalkStep>, Error>
  {
    match SegmentDirection(p.0, p.1)
    case Err(e) => Err(e)
    case Ok(d) => Ok(Segment(p.0, d, Length(p.0, p.1), lastStep))
  }

  function Segments(ps: seq<(Vector, Vector)>, lastStep: bool): (rs: seq<Result<seq<WalkStep>, Error>>)
    ensures |rs| == |ps| && forall i :: 0 <= i < |ps| ==> rs[i] == SegmentOf(ps[i], lastStep)
  {
    seq(|ps|, i requires 0 <= i < |ps| => SegmentOf(ps[i], lastStep))
  }

  /** The segments one after another. */
  function Concat<T>(ss: seq<seq<T>>): seq<T>
  {
    if |ss| == 0 then [] else Concat(ss[..|ss| - 1]) + ss[|ss| - 1]
  }

  /** Everything `walk_red_green_tiles` yields, or what it raises: the
      segments between consecutive red tiles, in order. */
  function Walk(tiles: seq<Vector>, lastStep: bool): Result<seq<WalkStep>, Error>
  {
    if |tiles| == 0 then Err(IndexError)
    else
      match Collect(Segments(Pairs(tiles), lastStep))
      case Err(e) => Err(e)
      case Ok(ss) => Ok(Concat(ss))
  }

  /** `walk_red_green_tiles`, its generator run to the end. */
  method WalkRedGreenTiles(tiles: seq<Vector>, lastStep: bool) returns (r: Result<seq<WalkStep>, Error>)
    ensures r == Walk(tiles, lastStep)
  {
    if |tiles| == 0 {
      return Err(IndexError);
    }
    var ps := Pairs(tiles);
    ghost var rs := Segments(ps, lastStep);
    ghost var ss: seq<seq<WalkStep>> := [];
    var out: seq<WalkStep> := [];
    for i := 0 to |ps|
      invariant Collect(rs[..i]) == Ok(ss) && out == Concat(ss)
    {
      var (c1, c2) := ps[i];
      var dir := SegmentDirection(c1, c2);
      CollectStep(rs, i, ss);
      if dir.Err? {
        assert rs[i] == Err(dir.error);
        CollectFails(rs, i + 1);
        return Err(dir.error);
      }
      var seg := WalkSegment(c1, c2, dir.value, lastStep);
      assert rs[i] == Ok(seg);
      ghost var before := ss;
      out := out + seg;
      ss := ss + [seg];
      assert ss[..|ss| - 1] == before;
    }
    assert rs[..|ps|] == rs;
    r := Ok(out);
  }

  // ------------------------------------------------ what the walk yields

  /** The red tile after tile i: the next one, or the first after the last. */
  function Next(tiles: seq<Vector>, i: nat): Vector
    requires i < |tiles|
  {
    if i + 1 < |tiles| then tiles[i + 1] else tiles[0]
  }

  /** Two consecutive red tiles between which a segment can be drawn:
      different, and on a common row or column. */
  predicate Aligned(a: Vector, b: Vector)
  {
    a != b && (a.x == b.x || a.y == b.y)
  }

  /** Every red tile is aligned with the next one. */
  predicate Rectilinear(tiles: seq<Vector>)
  {
    forall i :: 0 <= i < |tiles| ==> Aligned(tiles[i], Next(tiles, i))
  }

  /** A segment's items come out exactly when its ends are aligned. */
  lemma SegmentsSucceed(tiles: seq<Vector>, lastStep: bool)
    ensures var rs := Segments(Pairs(tiles), lastStep);
            forall i :: 0 <= i < |tiles| ==> (rs[i].Ok? <==> Aligned(tiles[i], Next(tiles, i)))
  {
    var ps := Pairs(tiles);
    forall i | 0 <= i < |tiles|
      ensures SegmentOf(ps[i], lastStep).Ok? <==> Aligned(tiles[i], Next(tiles, i))
    {
      assert ps[i] == (tiles[i], Next(tiles, i));
    }
  }

  /** The walk goes through exactly when there is a first tile and the
      tiles form a rectilinear loop; otherwise it raises IndexError on an
      empty list and RuntimeError on a bad pair. */
  lemma WalkSucceeds(tiles: seq<Vector>, lastStep: bool)
    ensures Walk(tiles, lastStep).Ok? <==> |tiles| >= 1 && Rectilinear(tiles)
    ensures Walk(tiles, lastStep).Err? ==>
              Walk(tiles, lastStep).error == if |tiles| == 0 then IndexError else RuntimeError
  {
    if |tiles| > 0 {
      var rs := Segments(Pairs(tiles), lastStep);
      CollectMeaning(rs);
      SegmentsSucceed(tiles, lastStep);
      if Collect(rs).Err? {
        var i :| 0 <= i < |rs| && rs[i] == Err(Collect(rs).error);
        assert SegmentDirection(Pairs(tiles)[i].0, Pairs(tiles)[i].1).Err?;
      }
    }
  }

  /** The items of one segment: all in its direction; the first is c1,
      marked as a corner; each next one is a unit step further; and
      stepping on from the last item gives c2, or the last item is c2
      itself when `lastStep` is set. */
  lemma SegmentMeaning(c1: Vector, c2: Vector, d: Direction, lastStep: bool)
    requires SegmentDirection(c1, c2) == Ok(d)
    ensures var s := Segment(c1, d, Length(c1, c2), lastStep);
            && |s| > 0 && s[0] == WalkStep(d, c1, true)
            && (forall k :: 0 <= k < |s| ==> s[k].direction == d)
            && (forall k :: 0 <= k < |s| - 1 ==> s[k].location.Step(d) == s[k + 1].location)
            && (if lastStep then s[|s| - 1].location == c2 else s[|s| - 1].location.Step(d) == c2)
  {
    var n := Length(c1, c2);
    var s := Segment(c1, d, n, lastStep);
    forall k | 0 <= k < |s| - 1
      ensures s[k].location.Step(d) == s[k + 1].location
    {
      MoveInCompose(c1, d, k, 1);
    }
    MoveInCompose(c1, d, n - 1, 1);
  }

  /** A segment's item is marked as a corner exactly when its tile is one
      of the segment's two red tiles. */
  lemma SegmentCorners(c1: Vector, c2: Vector, d: Direction, lastStep: bool)
    requires SegmentDirection(c1, c2) == Ok(d)
    ensures var s := Segment(c1, d, Length(c1, c2), lastStep);
            forall k :: 0 <= k < |s| ==> (s[k].corner <==> s[k].location == c1 || s[k].location == c2)
  {
    var n := Length(c1, c2);
    var s := Segment(c1, d, n, lastStep);
    forall k | 0 <= k < n
      ensures s[k].corner <==> s[k].location == c1 || s[k].location == c2
    {
      if s[k].location == c1 {
        MoveInInjective(c1, d, k, 0);
      }
      if s[k].location == c2 {
        MoveInInjective(c1, d, k, n);
      }
    }
  }

  /** Each item's tile is one unit step, in its direction, before the next
      item's tile. */
  predicate Chained(w: seq<WalkStep>)
  {
    forall k :: 0 <= k < |w| - 1 ==> w[k].location.Step(w[k].direction) == w[k + 1].location
  }

  /** Where the step from the last item leads. */
  function Onward(w: seq<WalkStep>): Vector
    requires |w| > 0
  {
    w[|w| - 1].location.Step(w[|w| - 1].direction)
  }

  /** Two chains joined where the first leads to the start of the second
      are one chain. */
  lemma ChainAppend(a: seq<WalkStep>, b: seq<WalkStep>)
    requires Chained(a) && Chained(b) && |a| > 0 && |b| > 0 && Onward(a) == b[0].location
    ensures Chained(a + b) && Onward(a + b) == Onward(b) && (a + b)[0] == a[0]
  {
    var w := a + b;
    forall k | 0 <= k < |w| - 1
      ensures w[k].location.Step(w[k].direction) == w[k + 1].location
    {
      if k >= |a| {
        assert w[k] == b[k - |a|] && w[k + 1] == b[k - |a| + 1];
      }
    }
  }

  /** The segments, without their end tiles, of a list of pairs each
      ending where the next begins: one chain from the first pair's start
      leading to the last pair's end. */
  lemma {:induction false} ConcatChained(ps: seq<(Vector, Vector)>, ss: seq<seq<WalkStep>>)
    requires |ss| == |ps| >= 1
    requires forall i :: 0 <= i < |ps| ==> SegmentOf(ps[i], false) == Ok(ss[i])
    requires forall i :: 0 <= i < |ps| - 1 ==> ps[i].1 == ps[i + 1].0
    ensures var w := Concat(ss);
            |w| > 0 && w[0].location == ps[0].0 && Chained(w) && Onward(w) == ps[|ps| - 1].1
    decreases |ss|
  {
    var n := |ss| - 1;
    var d := SegmentDirection(ps[n].0, ps[n].1).value;
    SegmentMeaning(ps[n].0, ps[n].1, d, false);
    assert Concat(ss) == Concat(ss[..n]) + ss[n];
    if n > 0 {
      ConcatChained(ps[..n], ss[..n]);
      ChainAppend(Concat(ss[..n]), ss[n]);
    } else {
      assert Concat(ss) == ss[0];
    }
  }

  /** Without the end tiles the walk is a closed path: it starts on the
      first red tile, marked as a corner, moves one unit step in the
      item's direction from each item to the next, and the step from the
      last item returns to the first red tile. */
  lemma WalkClosed(tiles: seq<Vector>)
    requires Walk(tiles, false).Ok?
    ensures var w := Walk(tiles, false).value;
            && |w| > 0 && w[0].location == tiles[0] && w[0].corner
            && Chained(w) && Onward(w) == tiles[0]
  {
    var ps := Pairs(tiles);
    var rs := Segments(ps, false);
    CollectMeaning(rs);
    var ss := Collect(rs).value;
    ConcatChained(ps, ss);
    ConcatFirst(ss);
    var d := SegmentDirection(ps[0].0, ps[0].1).value;
    SegmentMeaning(ps[0].0, ps[0].1, d, false);
  }

  /** The first item of a concatenation of non-empty pieces is the first
      piece's first item. */
  lemma {:induction false} ConcatFirst<T>(ss: seq<seq<T>>)
    requires |ss| > 0 && |ss[0]| > 0
    ensures |Concat(ss)| > 0 && Concat(ss)[0] == ss[0][0]
    decreases |ss|
  {
    if |ss| > 1 {
      ConcatFirst(ss[..|ss| - 1]);
    } else {
      assert Concat(ss) == Concat(ss[..0]) + ss[0];
    }
  }

  // ========================================================= flood fill

  /** A position inside a grid of rows `g` and width w. */
  predicate InGrid(g: seq<seq<char>>, w: nat, p: Vector)
  {
    0 <= p.y < |g| && 0 <= p.x < w && p.x < |g[p.y]|
  }

  /** A position of the overlay rows `o`. */
  predicate InRows(o: seq<seq<char>>, p: Vector)
  {
    0 <= p.y < |o| && 0 <= p.x < |o[p.y]|
  }

  /** A position the fill does not enter: inside the grid, and holding
      the fill character in the grid or in the overlay. */
  predicate Blocked(g: seq<seq<char>>, w: nat, o: seq<seq<char>>, c: char, p: Vector)
  {
    InGrid(g, w, p) && (g[p.y][p.x] == c || (InRows(o, p) && o[p.y][p.x] == c))
  }

  /** Overlay rows of the same shape. */
  predicate SameShape(o0: seq<seq<char>>, o: seq<seq<char>>)
  {
    |o| == |o0| && forall y :: 0 <= y < |o0| ==> |o[y]| == |o0[y]|
  }

  /** A cell the fill has changed. */
  predicate Changed(o0: seq<seq<char>>, o: seq<seq<char>>, p: Vector)
  {
    InRows(o0, p) && InRows(o, p) && o[p.y][p.x] != o0[p.y][p.x]
  }

  /** The overlay went from o0 to o by writing the fill character, and
      only into cells inside the grid where the grid does not hold it. */
  ghost predicate Fills(g: seq<seq<char>>, w: nat, o0: seq<seq<char>>, o: seq<seq<char>>, c: char)
  {
    && SameShape(o0, o)
    && forall p :: Changed(o0, o, p) ==> o[p.y][p.x] == c && InGrid(g, w, p) && g[p.y][p.x] != c
  }

  /** p is still to be visited or is blocked. */
  predicate Covered(g: seq<seq<char>>, w: nat, o: seq<seq<char>>, c: char, work: seq<Vector>, p: Vector)
  {
    p in work || Blocked(g, w, o, c, p)
  }

  /** Each of the four neighbours of p is still to be visited or blocked. */
  predicate Surrounded(g: seq<seq<char>>, w: nat, o: seq<seq<char>>, c: char, work: seq<Vector>, p: Vector)
  {
    && Covered(g, w, o, c, work, p.Step(Up))
    && Covered(g, w, o, c, work, p.Step(Down))
    && Covered(g, w, o, c, work, p.Step(Left))
    && Covered(g, w, o, c, work, p.Step(Right))
  }

  /** p is a neighbour of a changed cell. */
  predicate NextToChanged(o0: seq<seq<char>>, o: seq<seq<char>>, p: Vector)
  {
    Changed(o0, o, p.Step(Down)) || Changed(o0, o, p.Step(Up))
      || Changed(o0, o, p.Step(Right)) || Changed(o0, o, p.Step(Left))
  }

  /** Some neighbour of p is outside the grid. */
  predicate AtEdge(g: seq<seq<char>>, w: nat, p: Vector)
  {
    !InGrid(g, w, p.Step(Up)) || !InGrid(g, w, p.Step(Down))
      || !InGrid(g, w, p.Step(Left)) || !InGrid(g, w, p.Step(Right))
  }

  /** The state of the fill loop: the overlay so far is a fill of the one
      it started from; the start is still to be visited or blocked; every
      cell filled so far has each neighbour still to be visited or
      blocked; and every position still to be visited is the start or a
      neighbour of a filled cell. */
  ghost predicate Filling(g: seq<seq<char>>, w: nat, o0: seq<seq<char>>, o: seq<seq<char>>, c: char,
                          start: Vector, work: seq<Vector>)
  {
    && Fills(g, w, o0, o, c)
    && Covered(g, w, o, c, work, start)
    && (forall p :: Changed(o0, o, p) ==> Surrounded(g, w, o, c, work, p))
    && (forall k :: 0 <= k < |work| ==> work[k] == start || NextToChanged(o0, o, work[k]))
  }

  /** The cells of a row that do not hold c. */
  function RowUnfilled(row: seq<char>, c: char): nat
  {
    if |row| == 0 then 0
    else RowUnfilled(row[..|row| - 1], c) + (if row[|row| - 1] == c then 0 else 1)
  }

  /** The cells of the rows that do not hold c. */
  function Unfilled(rows: seq<seq<char>>, c: char): nat
  {
    if |rows| == 0 then 0
    else Unfilled(rows[..|rows| - 1], c) + RowUnfilled(rows[|rows| - 1], c)
  }

  /** Writing c over a cell that did not hold it leaves one cell fewer
      without c in the row. */
  lemma {:induction false} RowUnfilledSet(row: seq<char>, x: nat, c: char)
    requires x < |row| && row[x] != c
    ensures RowUnfilled(row[x := c], c) == RowUnfilled(row, c) - 1
    decreases |row|
  {
    var n := |row| - 1;
    assert row[x := c][..n] == if x < n then row[..n][x := c] else row[..n];
    if x < n {
      RowUnfilledSet(row[..n], x, c);
    }
  }

  /** Writing c over a cell that did not hold it leaves one cell fewer
      without c. */
  lemma {:induction false} UnfilledSet(rows: seq<seq<char>>, y: nat, x: nat, c: char)
    requires y < |rows| && x < |rows[y]| && rows[y][x] != c
    ensures Unfilled(rows[y := rows[y][x := c]], c) == Unfilled(rows, c) - 1
    decreases |rows|
  {
    var n := |rows| - 1;
    var after := rows[y := rows[y][x := c]];
    assert after[..n] == if y < n then rows[..n][y := rows[y][x := c]] else rows[..n];
    if y < n {
      UnfilledSet(rows[..n], y, x, c);
    } else {
      RowUnfilledSet(rows[y], x, c);
    }
  }

  /** The fill starts in its loop state with the start as the only
      position to visit. */
  lemma FillingStart(g: seq<seq<char>>, w: nat, o0: seq<seq<char>>, c: char, start: Vector)
    ensures Filling(g, w, o0, o0, c, start, [start])
  {
    assert SameShape(o0, o0);
  }

  /** Dropping a popped position that is blocked keeps the loop state. */
  lemma FillingSkip(g: seq<seq<char>>, w: nat, o0: seq<seq<char>>, o: seq<seq<char>>, c: char,
                    start: Vector, work: seq<Vector>)
    requires |work| > 0 && Filling(g, w, o0, o, c, start, work)
    requires Blocked(g, w, o, c, work[|work| - 1])
    ensures Filling(g, w, o0, o, c, start, work[..|work| - 1])
  {
    var rest := work[..|work| - 1];
    assert work == rest + [work[|work| - 1]];
    forall p | Changed(o0, o, p)
      ensures Surrounded(g, w, o, c, rest, p)
    {
      assert Surrounded(g, w, o, c, work, p);
    }
    forall k | 0 <= k < |rest|
      ensures rest[k] == start || NextToChanged(o0, o, rest[k])
    {
      assert rest[k] == work[k];
    }
  }

  /** Filling a popped position inside the grid that is not blocked, and
      pushing its four neighbours, keeps the loop state. */
  lemma FillingFill(g: seq<seq<char>>, w: nat, o0: seq<seq<char>>, o: seq<seq<char>>, c: char,
                    start: Vector, work: seq<Vector>)
    requires |work| > 0 && Filling(g, w, o0, o, c, start, work)
    requires var p := work[|work| - 1];
             InGrid(g, w, p) && InRows(o, p) && !Blocked(g, w, o, c, p)
    ensures var p := work[|work| - 1];
            var o' := o[p.y := o[p.y][p.x := c]];
            Filling(g, w, o0, o', c, start,
                    work[..|work| - 1] + [p.Step(Up), p.Step(Down), p.Step(Left), p.Step(Right)])
  {
    var p := work[|work| - 1];
    var o' := o[p.y := o[p.y][p.x := c]];
    var rest := work[..|work| - 1];
    var work' := rest + [p.Step(Up), p.Step(Down), p.Step(Left), p.Step(Right)];
    assert work == rest + [p];
    FillsStep(g, w, o0, o, c, p);
    assert Blocked(g, w, o', c, p);
    forall q | Changed(o0, o', q)
      ensures Surrounded(g, w, o', c, work', q)
    {
      if q != p {
        assert Changed(o0, o, q);
        assert Surrounded(g, w, o, c, work, q);
        CoveredAfter(g, w, o, c, work, p, q.Step(Up));
        CoveredAfter(g, w, o, c, work, p, q.Step(Down));
        CoveredAfter(g, w, o, c, work, p, q.Step(Left));
        CoveredAfter(g, w, o, c, work, p, q.Step(Right));
      }
    }
    CoveredAfter(g, w, o, c, work, p, start);
    forall k | 0 <= k < |work'|
      ensures work'[k] == start || NextToChanged(o0, o', work'[k])
    {
      if k < |rest| {
        assert work'[k] == work[k];
        if work[k] != start {
          StillNextToChanged(o0, o, c, p, work[k]);
        }
      } else {
        assert Changed(o0, o', p);
        assert p.Step(Up).Step(Down) == p && p.Step(Down).Step(Up) == p;
        assert p.Step(Left).Step(Right) == p && p.Step(Right).Step(Left) == p;
      }
    }
  }

  /** Filling one more cell, inside the grid and unblocked, is still a
      fill of the starting overlay, in which that cell is now changed and
      every other cell is as before. */
  lemma FillsStep(g: seq<seq<char>>, w: nat, o0: seq<seq<char>>, o: seq<seq<char>>, c: char, p: Vector)
    requires Fills(g, w, o0, o, c) && InGrid(g, w, p) && InRows(o, p) && !Blocked(g, w, o, c, p)
    ensures var o' := o[p.y := o[p.y][p.x := c]];
            && Fills(g, w, o0, o', c) && Changed(o0, o', p)
            && forall q :: q != p ==> (Changed(o0, o', q) <==> Changed(o0, o, q))
  {
    var o' := o[p.y := o[p.y][p.x := c]];
    assert !Changed(o0, o, p);
    forall q | q != p && InRows(o, q)
      ensures o'[q.y][q.x] == o[q.y][q.x]
    {
      if q.y == p.y {
        assert q.x != p.x;
      }
    }
  }

  /** A position still to be visited or blocked stays so when the last
      position is popped, filled and its neighbours pushed. */
  lemma CoveredAfter(g: seq<seq<char>>, w: nat, o: seq<seq<char>>, c: char, work: seq<Vector>, p: Vector, q: Vector)
    requires |work| > 0 && p == work[|work| - 1] && InRows(o, p)
    requires Covered(g, w, o, c, work, q)
    ensures var o' := o[p.y := o[p.y][p.x := c]];
            var work' := work[..|work| - 1] + [p.Step(Up), p.Step(Down), p.Step(Left), p.Step(Right)];
            InGrid(g, w, p) ==> Covered(g, w, o', c, work', q)
  {
    var o' := o[p.y := o[p.y][p.x := c]];
    var rest := work[..|work| - 1];
    assert work == rest + [p];
    if q != p && q in work {
      assert q in rest;
    }
    if q != p && q !in work {
      assert InRows(o, q) ==> o'[q.y][q.x] == o[q.y][q.x] by {
        if InRows(o, q) && q.y == p.y {
          assert q.x != p.x;
        }
      }
    }
  }

  /** A neighbour of a changed cell stays one when an unfilled cell is
      filled. */
  lemma StillNextToChanged(o0: seq<seq<char>>, o: seq<seq<char>>, c: char, p: Vector, q: Vector)
    requires InRows(o, p) && o[p.y][p.x] != c
    requires SameShape(o0, o) && NextToChanged(o0, o, q)
    requires forall r :: Changed(o0, o, r) ==> o[r.y][r.x] == c
    ensures NextToChanged(o0, o[p.y := o[p.y][p.x := c]], q)
  {
    var o' := o[p.y := o[p.y][p.x := c]];
    forall r | Changed(o0, o, r)
      ensures Changed(o0, o', r)
    {
      assert r != p;
      if r.y == p.y {
        assert r.x != p.x;
      }
    }
  }

  /** A position outside the grid next to a changed cell puts that cell
      at the grid's edge. */
  lemma EdgeWitness(g: seq<seq<char>>, w: nat, o0: seq<seq<char>>, o: seq<seq<char>>, q: Vector)
    requires NextToChanged(o0, o, q) && !InGrid(g, w, q)
    ensures exists p :: Changed(o0, o, p) && AtEdge(g, w, p)
  {
    if Changed(o0, o, q.Step(Down)) {
      assert q.Step(Down).Step(Up) == q && AtEdge(g, w, q.Step(Down));
    } else if Changed(o0, o, q.Step(Up)) {
      assert q.Step(Up).Step(Down) == q && AtEdge(g, w, q.Step(Up));
    } else if Changed(o0, o, q.Step(Right)) {
      assert q.Step(Right).Step(Left) == q && AtEdge(g, w, q.Step(Right));
    } else {
      assert q.Step(Left).Step(Right) == q && AtEdge(g, w, q.Step(Left));
    }
  }

  /** `fill_area`: a flood fill of `fill_char` into the overlay from
      `start_pos`, over a worklist popped from its end. A popped position
      outside the grid ends the fill with false; one holding `fill_char`
      in the grid or the overlay is dropped; any other is filled in the
      overlay and its four neighbours, in the order of DirectionsCardinal,
      are pushed. An empty worklist ends the fill with true. The grid is
      only read; reading an overlay smaller than the grid raises.

      On success the filled region is closed: the start is blocked, and
      every cell this fill wrote has its four neighbours inside the grid
      and holding `fill_char` in the grid or the overlay. On false the
      fill has escaped: the start is outside the grid, or some cell it
      wrote lies at the grid's edge. */
  method FillArea(grid: Grid<char>, overlay: LGrid<char>, fillChar: char, start: Vector)
    returns (r: Result<bool, Common.Error>)
    requires grid.Valid() && overlay.Valid() && overlay.grid != grid
    modifies overlay.grid
    ensures overlay.Valid() && overlay.grid.width == old(overlay.grid.width)
    ensures Fills(grid.lines, grid.width, old(overlay.grid.lines), overlay.grid.lines, fillChar)
    ensures r.Err? ==> r.error == OutOfBounds
                       && (overlay.grid.width < grid.width || |overlay.grid.lines| < |grid.lines|)
    ensures r == Ok(true) ==> Blocked(grid.lines, grid.width, overlay.grid.lines, fillChar, start)
    ensures r == Ok(true) ==>
              forall p :: Changed(old(overlay.grid.lines), overlay.grid.lines, p) ==>
                Surrounded(grid.lines, grid.width, overlay.grid.lines, fillChar, [], p)
    ensures r == Ok(false) ==>
              || !InGrid(grid.lines, grid.width, start)
              || exists p :: Changed(old(overlay.grid.lines), overlay.grid.lines, p) && AtEdge(grid.lines, grid.width, p)
  {
    ghost var o0 := overlay.grid.lines;
    var work := [start];
    FillingStart(grid.lines, grid.width, o0, fillChar, start);
    while |work| > 0
      invariant overlay.Valid() && overlay.grid.width == old(overlay.grid.width)
      invariant Filling(grid.lines, grid.width, o0, overlay.grid.lines, fillChar, start, work)
      decreases Unfilled(overlay.grid.lines, fillChar), |work|
    {
      var loc := work[|work| - 1];
      if !grid.IsInBounds(loc) {
        if loc != start {
          EdgeWitness(grid.lines, grid.width, o0, overlay.grid.lines, loc);
        }
        return Ok(false);
      }
      var inGrid := grid.GetCell(loc);
      if inGrid.value == fillChar {
        FillingSkip(grid.lines, grid.width, o0, overlay.grid.lines, fillChar, start, work);
        work := work[..|work| - 1];
      } else {
        var inOverlay := overlay.grid.GetCell(loc);
        if inOverlay.Err? {
          return Err(inOverlay.error);
        }
        if inOverlay.value == fillChar {
          FillingSkip(grid.lines, grid.width, o0, overlay.grid.lines, fillChar, start, work);
          work := work[..|work| - 1];
        } else {
          FillingFill(grid.lines, grid.width, o0, overlay.grid.lines, fillChar, start, work);
          UnfilledSet(overlay.grid.lines, loc.y, loc.x, fillChar);
          var written := overlay.SetCell(loc, fillChar);
          work := work[..|work| - 1] + [loc.Step(Up), loc.Step(Down), loc.Step(Left), loc.Step(Right)];
        }
      }
    }
    r := Ok(true);
  }

  // ======================================================== rectangles

  /** The smaller and the larger of two integers. */
  function Lo(a: int, b: int): int { if a < b then a else b }

  function Hi(a: int, b: int): int { if a < b then b else a }

  /** p lies in the rectangle spanned by the two corners, borders included. */
  predicate InBox(c1: Vector, c2: Vector, p: Vector)
  {
    Lo(c1.x, c2.x) <= p.x <= Hi(c1.x, c2.x) && Lo(c1.y, c2.y) <= p.y <= Hi(c1.y, c2.y)
  }

  /** q comes before p in row-major order. */
  predicate Before(q: Vector, p: Vector)
  {
    q.y < p.y || (q.y == p.y && q.x < p.x)
  }

  /** A cell inside the grid that holds c. */
  predicate Holds(g: seq<seq<char>>, w: nat, c: char, p: Vector)
  {
    InGrid(g, w, p) && g[p.y][p.x] == c
  }

  /** Every cell of the rectangle before p in row-major order is inside
      the grid and holds c. */
  ghost predicate HoldsBefore(g: seq<seq<char>>, w: nat, c: char, c1: Vector, c2: Vector, p: Vector)
  {
    forall q :: InBox(c1, c2, q) && Before(q, p) ==> Holds(g, w, c, q)
  }

  /** `is_rectangle_filled`: the cells of the rectangle are read row by
      row; the first one outside the grid raises, the first one not
      holding `fill_char` gives false, and true comes only when every
      cell of the rectangle holds it. */
  method IsRectangleFilled(grid: Grid<char>, fillChar: char, corner1: Vector, corner2: Vector)
    returns (r: Result<bool, Common.Error>)
    requires grid.Valid()
    ensures r == Ok(true) <==> forall p :: InBox(corner1, corner2, p) ==> Holds(grid.lines, grid.width, fillChar, p)
    ensures r == Ok(false) ==>
              exists p :: && InBox(corner1, corner2, p) && InGrid(grid.lines, grid.width, p)
                          && grid.lines[p.y][p.x] != fillChar
                          && HoldsBefore(grid.lines, grid.width, fillChar, corner1, corner2, p)
    ensures r.Err? ==>
              && r.error == OutOfBounds
              && exists p :: && InBox(corner1, corner2, p) && !InGrid(grid.lines, grid.width, p)
                             && HoldsBefore(grid.lines, grid.width, fillChar, corner1, corner2, p)
  {
    var xFrom, xTo := Lo(corner1.x, corner2.x), Hi(corner1.x, corner2.x) + 1;
    var yFrom, yTo := Lo(corner1.y, corner2.y), Hi(corner1.y, corner2.y) + 1;
    for y := yFrom to yTo
      invariant HoldsBefore(grid.lines, grid.width, fillChar, corner1, corner2, Vector(xFrom, y))
    {
      for x := xFrom to xTo
        invariant HoldsBefore(grid.lines, grid.width, fillChar, corner1, corner2, Vector(x, y))
      {
        var p := Vector(x, y);
        var cell := grid.GetCell(p);
        if cell.Err? {
          assert InBox(corner1, corner2, p);
          return Err(cell.error);
        }
        if cell.value != fillChar {
          assert InBox(corner1, corner2, p);
          return Ok(false);
        }
      }
    }
    r := Ok(true);
  }
}
