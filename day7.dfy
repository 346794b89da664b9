/** Day 7: a beam enters a grid of empty cells ('.') and splitters ('^') at
    the start marker 'S' and moves down one row per step. A splitter sends it
    on one column to the left and one column to the right; beams that meet
    in a cell merge and add their strengths, so a strength counts the ways
    of reaching the cell. Part 1 counts the splits, part 2 adds up the
    strengths left after the last step. */
module Day7 {
  import opened Wrappers
  import opened Text
  import opened Common

  // ===================================================== beams by location

  /** A beam: where it is and how strong it is. */
  datatype Beam = Beam(location: Vector, strength: int)

  /** The entries of a dictionary keyed by location: no location twice. */
  predicate Keyed(beams: seq<Beam>)
  {
    forall i, j :: 0 <= i < j < |beams| ==> beams[i].location != beams[j].location
  }

  /** The dictionary lookup: where the entry for `loc` sits, or -1. */
  function IndexOf(beams: seq<Beam>, loc: Vector): (i: int)
    ensures -1 <= i < |beams|
    ensures i >= 0 ==> beams[i].location == loc
    ensures i == -1 <==> forall k :: 0 <= k < |beams| ==> beams[k].location != loc
  {
    if |beams| == 0 then -1
    else if beams[|beams| - 1].location == loc then |beams| - 1
    else IndexOf(beams[..|beams| - 1], loc)
  }

  /** The entries after `add_beam(loc, strength)`: the beam already at `loc`
      grows stronger, or a new beam is inserted after the others. */
  function WithBeam(beams: seq<Beam>, loc: Vector, strength: int): seq<Beam>
  {
    var i := IndexOf(beams, loc);
    if i >= 0 then beams[i := Beam(loc, beams[i].strength + strength)]
    else beams + [Beam(loc, strength)]
  }

  /** The strength found at `loc`, summed over every entry there. */
  function StrengthAt(beams: seq<Beam>, loc: Vector): int
  {
    if |beams| == 0 then 0
    else StrengthAt(beams[..|beams| - 1], loc) +
         (if beams[|beams| - 1].location == loc then beams[|beams| - 1].strength else 0)
  }

  /** The summed strength of all entries. */
  function Total(beams: seq<Beam>): int
  {
    if |beams| == 0 then 0 else Total(beams[..|beams| - 1]) + beams[|beams| - 1].strength
  }

  /** Every beam has strength at least one. */
  predicate Positive(beams: seq<Beam>)
  {
    forall k :: 0 <= k < |beams| ==> beams[k].strength >= 1
  }

  /** Replacing an entry by one at the same location changes the sums by
      the difference of the strengths. */
  lemma {:induction false} UpdateSums(beams: seq<Beam>, i: nat, b: Beam, loc: Vector)
    requires i < |beams| && b.location == beams[i].location
    ensures Total(beams[i := b]) == Total(beams) + b.strength - beams[i].strength
    ensures StrengthAt(beams[i := b], loc) ==
            StrengthAt(beams, loc) + (if loc == b.location then b.strength - beams[i].strength else 0)
    decreases |beams|
  {
    var n := |beams|;
    if i < n - 1 {
      assert beams[i := b][..n - 1] == beams[..n - 1][i := b];
      UpdateSums(beams[..n - 1], i, b, loc);
    } else {
      assert beams[i := b][..n - 1] == beams[..n - 1];
    }
  }

  /** Appending an entry adds its strength to the sums. */
  lemma AppendSums(beams: seq<Beam>, b: Beam, loc: Vector)
    ensures Total(beams + [b]) == Total(beams) + b.strength
    ensures StrengthAt(beams + [b], loc) == StrengthAt(beams, loc) + (if loc == b.location then b.strength else 0)
  {
    assert (beams + [b])[..|beams|] == beams;
  }

  /** `add_beam` adds `strength` at `loc` and nowhere else, so the total
      grows by `strength`. */
  lemma AddBeamSums(beams: seq<Beam>, loc: Vector, strength: int)
    ensures Total(WithBeam(beams, loc, strength)) == Total(beams) + strength
    ensures forall m :: StrengthAt(WithBeam(beams, loc, strength), m) ==
                        StrengthAt(beams, m) + (if m == loc then strength else 0)
  {
    var i := IndexOf(beams, loc);
    if i >= 0 {
      var b := Beam(loc, beams[i].strength + strength);
      forall m
        ensures StrengthAt(beams[i := b], m) == StrengthAt(beams, m) + (if m == loc then strength else 0)
      {
        UpdateSums(beams, i, b, m);
      }
      UpdateSums(beams, i, b, loc);
    } else {
      forall m
        ensures StrengthAt(beams + [Beam(loc, strength)], m) == StrengthAt(beams, m) + (if m == loc then strength else 0)
      {
        AppendSums(beams, Beam(loc, strength), m);
      }
      AppendSums(beams, Beam(loc, strength), loc);
    }
  }

  /** `add_beam` keeps one entry per location, leaves every other entry as
      it was, keeps their order, and ends with an entry at `loc`. */
  lemma AddBeamEntries(beams: seq<Beam>, loc: Vector, strength: int)
    requires Keyed(beams)
    ensures var r := WithBeam(beams, loc, strength);
            && Keyed(r)
            && |beams| <= |r| <= |beams| + 1
            && IndexOf(r, loc) >= 0
            && forall k :: 0 <= k < |r| ==> (k < |beams| && r[k] == beams[k]) || r[k].location == loc
  {
    var r := WithBeam(beams, loc, strength);
    var i := IndexOf(beams, loc);
    if i == -1 {
      assert r[|beams|].location == loc;
    } else {
      assert r[i].location == loc;
    }
  }

  /** In a keyed dictionary the strength at an entry's location is that
      entry's strength, and a location without entry has strength zero. */
  lemma {:induction false} KeyedStrength(beams: seq<Beam>, loc: Vector)
    requires Keyed(beams)
    ensures IndexOf(beams, loc) >= 0 ==> StrengthAt(beams, loc) == beams[IndexOf(beams, loc)].strength
    ensures IndexOf(beams, loc) == -1 ==> StrengthAt(beams, loc) == 0
    decreases |beams|
  {
    if |beams| > 0 {
      var n := |beams|;
      KeyedStrength(beams[..n - 1], loc);
      if beams[n - 1].location == loc {
        assert IndexOf(beams[..n - 1], loc) == -1;
      }
    }
  }

  /** The dictionary that `simulate_step` fills: beams by location, in
      insertion order, as `values()` hands them out. */
  class BeamDict {
    var entries: seq<Beam>

    ghost predicate Valid()
      reads this
    {
      Keyed(entries)
    }

    constructor()
      ensures Valid() && entries == []
    {
      entries := [];
    }

    /** `add_beam(self, loc, strength)`. */
    method AddBeam(loc: Vector, strength: int)
      requires Valid()
      modifies this
      ensures Valid() && entries == WithBeam(old(entries), loc, strength)
    {
      AddBeamEntries(entries, loc, strength);
      var i := IndexOf(entries, loc);
      if i >= 0 {
        entries := entries[i := Beam(loc, entries[i].strength + strength)];
      } else {
        entries := entries + [Beam(loc, strength)];
      }
    }
  }

  // =========================================================== one step

  /** Every row has width w. */
  predicate Rect(lines: seq<string>, w: nat)
  {
    forall y :: 0 <= y < |lines| ==> |lines[y]| == w
  }

  predicate InGrid(lines: seq<string>, w: nat, p: Vector)
  {
    0 <= p.x < w && 0 <= p.y < |lines|
  }

  /** Where a beam arrives after moving one row down. */
  function Landing(b: Beam): Vector
  {
    b.location.Step(Down)
  }

  /** The beam arrives on a cell of the grid holding `c`. */
  predicate LandsOn(lines: seq<string>, w: nat, b: Beam, c: char)
    requires Rect(lines, w)
  {
    var p := Landing(b);
    InGrid(lines, w, p) && lines[p.y][p.x] == c
  }

  /** One beam of `simulate_step`'s loop, on top of the beams and splits
      gathered so far: a beam arriving on '.' carries on there, one arriving
      on '^' is split to the left and right neighbours of that cell, one
      arriving on anything else vanishes, and one arriving outside the grid
      makes `get_cell` raise. */
  function Advance(lines: seq<string>, w: nat, beams: seq<Beam>, splits: nat, b: Beam): Result<(seq<Beam>, nat), Error>
    requires Rect(lines, w)
  {
    var p := Landing(b);
    if !InGrid(lines, w, p) then Err(OutOfBounds)
    else if lines[p.y][p.x] == '.' then Ok((WithBeam(beams, p, b.strength), splits))
    else if lines[p.y][p.x] == '^' then
      Ok((WithBeam(WithBeam(beams, p.Step(Left), b.strength), p.Step(Right), b.strength), splits + 1))
    else Ok((beams, splits))
  }

  /** `simulate_step` over the beams `current`, in order: the beams of the
      next row and the number of splits, or the error for the first beam
      that leaves the grid. */
  function Step(lines: seq<string>, w: nat, current: seq<Beam>): Result<(seq<Beam>, nat), Error>
    requires Rect(lines, w)
  {
    if |current| == 0 then Ok(([], 0))
    else
      match Step(lines, w, current[..|current| - 1])
      case Err(e) => Err(e)
      case Ok((beams, splits)) => Advance(lines, w, beams, splits, current[|current| - 1])
  }

  /** How many of the beams arrive on a splitter. */
  function SplitCount(lines: seq<string>, w: nat, current: seq<Beam>): nat
    requires Rect(lines, w)
  {
    if |current| == 0 then 0
    else SplitCount(lines, w, current[..|current| - 1]) + (if LandsOn(lines, w, current[|current| - 1], '^') then 1 else 0)
  }

  /** The summed strength of the beams arriving on cells holding `c`. */
  function LandedStrength(lines: seq<string>, w: nat, current: seq<Beam>, c: char): int
    requires Rect(lines, w)
  {
    if |current| == 0 then 0
    else LandedStrength(lines, w, current[..|current| - 1], c) +
         (if LandsOn(lines, w, current[|current| - 1], c) then current[|current| - 1].strength else 0)
  }

  /** What one beam passes on to cell `m`: all of its strength if it arrives
      on '.' at m, or if it arrives on '^' just right or just left of m. */
  function Contribution(lines: seq<string>, w: nat, b: Beam, m: Vector): int
    requires Rect(lines, w)
  {
    (if LandsOn(lines, w, b, '.') && Landing(b) == m then b.strength else 0) +
    (if LandsOn(lines, w, b, '^') && Landing(b).Step(Left) == m then b.strength else 0) +
    (if LandsOn(lines, w, b, '^') && Landing(b).Step(Right) == m then b.strength else 0)
  }

  /** What all the beams pass on to cell `m`. */
  function Incoming(lines: seq<string>, w: nat, current: seq<Beam>, m: Vector): int
    requires Rect(lines, w)
  {
    if |current| == 0 then 0
    else Incoming(lines, w, current[..|current| - 1], m) + Contribution(lines, w, current[|current| - 1], m)
  }

  /** Some beam arrives outside the grid. */
  predicate Escapes(lines: seq<string>, w: nat, current: seq<Beam>)
  {
    exists k :: 0 <= k < |current| && !InGrid(lines, w, Landing(current[k]))
  }

  /** One beam raises exactly when it arrives outside the grid; otherwise
      it adds one split when it arrives on a splitter, and passes on its
      strength once from '.' and twice from '^'. */
  lemma AdvanceCounts(lines: seq<string>, w: nat, beams: seq<Beam>, splits: nat, b: Beam)
    requires Rect(lines, w)
    ensures var r := Advance(lines, w, beams, splits, b);
            && (r.Err? <==> !InGrid(lines, w, Landing(b)))
            && (r.Err? ==> r.error == OutOfBounds)
            && (r.Ok? ==> r.value.1 == splits + (if LandsOn(lines, w, b, '^') then 1 else 0))
            && (r.Ok? ==> Total(r.value.0) == Total(beams) + (if LandsOn(lines, w, b, '.') then b.strength else 0) +
                                               2 * (if LandsOn(lines, w, b, '^') then b.strength else 0))
  {
    var p := Landing(b);
    if LandsOn(lines, w, b, '.') {
      AddBeamSums(beams, p, b.strength);
    } else if LandsOn(lines, w, b, '^') {
      AddBeamSums(beams, p.Step(Left), b.strength);
      AddBeamSums(WithBeam(beams, p.Step(Left), b.strength), p.Step(Right), b.strength);
    }
  }

  /** Cell by cell, one beam adds its contribution. */
  lemma AdvanceStrength(lines: seq<string>, w: nat, beams: seq<Beam>, splits: nat, b: Beam)
    requires Rect(lines, w) && Advance(lines, w, beams, splits, b).Ok?
    ensures forall m :: StrengthAt(Advance(lines, w, beams, splits, b).value.0, m) ==
                        StrengthAt(beams, m) + Contribution(lines, w, b, m)
  {
    var p := Landing(b);
    assert p.Step(Left) != p.Step(Right);
    if LandsOn(lines, w, b, '.') {
      AddBeamSums(beams, p, b.strength);
    } else if LandsOn(lines, w, b, '^') {
      AddBeamSums(beams, p.Step(Left), b.strength);
      AddBeamSums(WithBeam(beams, p.Step(Left), b.strength), p.Step(Right), b.strength);
    }
  }

  /** One beam keeps the entries keyed, of strength at least one, and on
      the row below its own. */
  lemma AdvanceShape(lines: seq<string>, w: nat, beams: seq<Beam>, splits: nat, b: Beam, y: int)
    requires Rect(lines, w) && Keyed(beams) && Advance(lines, w, beams, splits, b).Ok?
    ensures Keyed(Advance(lines, w, beams, splits, b).value.0)
    ensures Positive(beams) && b.strength >= 1 ==> Positive(Advance(lines, w, beams, splits, b).value.0)
    ensures OnRow(beams, y + 1) && b.location.y == y ==> OnRow(Advance(lines, w, beams, splits, b).value.0, y + 1)
  {
    var p := Landing(b);
    AddShape(beams, p, b.strength, y + 1);
    AddShape(beams, p.Step(Left), b.strength, y + 1);
    AddShape(WithBeam(beams, p.Step(Left), b.strength), p.Step(Right), b.strength, y + 1);
  }

  /** A step raises exactly when some beam leaves the grid, and then with
      the out-of-bounds error. */
  lemma {:induction false} StepFails(lines: seq<string>, w: nat, current: seq<Beam>)
    requires Rect(lines, w)
    ensures Step(lines, w, current).Err? <==> Escapes(lines, w, current)
    ensures Step(lines, w, current).Err? ==> Step(lines, w, current).error == OutOfBounds
    decreases |current|
  {
    if |current| > 0 {
      var n := |current|;
      var init := current[..n - 1];
      StepFails(lines, w, init);
      var r := Step(lines, w, init);
      if r.Ok? {
        AdvanceCounts(lines, w, r.value.0, r.value.1, current[n - 1]);
      }
      if Escapes(lines, w, init) {
        var k :| 0 <= k < |init| && !InGrid(lines, w, Landing(init[k]));
        assert current[k] == init[k];
      }
      if Escapes(lines, w, current) && InGrid(lines, w, Landing(current[n - 1])) {
        var k :| 0 <= k < n && !InGrid(lines, w, Landing(current[k]));
        assert k < n - 1 && init[k] == current[k];
      }
    }
  }

  /** The splits are the beams that arrive on a splitter, and the strength
      passed on is that of the beams arriving on '.' plus twice that of the
      beams arriving on '^'; beams arriving on anything else vanish. */
  lemma {:induction false} StepCounts(lines: seq<string>, w: nat, current: seq<Beam>)
    requires Rect(lines, w)
    ensures Step(lines, w, current).Ok? ==>
              && Step(lines, w, current).value.1 == SplitCount(lines, w, current)
              && Total(Step(lines, w, current).value.0) ==
                 LandedStrength(lines, w, current, '.') + 2 * LandedStrength(lines, w, current, '^')
    decreases |current|
  {
    if |current| > 0 {
      var n := |current|;
      StepCounts(lines, w, current[..n - 1]);
      var r := Step(lines, w, current[..n - 1]);
      if r.Ok? {
        AdvanceCounts(lines, w, r.value.0, r.value.1, current[n - 1]);
      }
    }
  }

  /** Cell by cell, the strength after a step is what the beams pass on to
      that cell. */
  lemma {:induction false} StepStrength(lines: seq<string>, w: nat, current: seq<Beam>)
    requires Rect(lines, w)
    ensures Step(lines, w, current).Ok? ==>
              forall m :: StrengthAt(Step(lines, w, current).value.0, m) == Incoming(lines, w, current, m)
    decreases |current|
  {
    if |current| > 0 {
      var n := |current|;
      StepStrength(lines, w, current[..n - 1]);
      var r := Step(lines, w, current[..n - 1]);
      if r.Ok? && Step(lines, w, current).Ok? {
        AdvanceStrength(lines, w, r.value.0, r.value.1, current[n - 1]);
      }
    }
  }

  /** A step hands out one entry per location; beams of strength at least
      one pass on strength at least one; beams all on row y arrive all on
      row y + 1. */
  lemma {:induction false} StepShape(lines: seq<string>, w: nat, current: seq<Beam>, y: int)
    requires Rect(lines, w)
    ensures Step(lines, w, current).Ok? ==> Keyed(Step(lines, w, current).value.0)
    ensures Step(lines, w, current).Ok? && Positive(current) ==> Positive(Step(lines, w, current).value.0)
    ensures Step(lines, w, current).Ok? && OnRow(current, y) ==> OnRow(Step(lines, w, current).value.0, y + 1)
    decreases |current|
  {
    if |current| > 0 {
      var n := |current|;
      var init := current[..n - 1];
      StepShape(lines, w, init, y);
      var r := Step(lines, w, init);
      if r.Ok? && Step(lines, w, current).Ok? {
        assert Positive(current) ==> Positive(init) && current[n - 1].strength >= 1;
        assert OnRow(current, y) ==> OnRow(init, y) && current[n - 1].location.y == y;
        AdvanceShape(lines, w, r.value.0, r.value.1, current[n - 1], y);
      }
    }
  }

  /** Every beam is on row y. */
  predicate OnRow(beams: seq<Beam>, y: int)
  {
    forall k :: 0 <= k < |beams| ==> beams[k].location.y == y
  }

  /** `add_beam` keeps the entries keyed, positive and on one row. */
  lemma AddShape(beams: seq<Beam>, loc: Vector, strength: int, y: int)
    requires Keyed(beams)
    ensures Keyed(WithBeam(beams, loc, strength))
    ensures Positive(beams) && strength >= 1 ==> Positive(WithBeam(beams, loc, strength))
    ensures OnRow(beams, y) && loc.y == y ==> OnRow(WithBeam(beams, loc, strength), y)
  {
    AddBeamEntries(beams, loc, strength);
  }

  /** `simulate_step(grid, current)`: one new dictionary, filled beam by
      beam, and the number of splits. */
  method SimulateStep(grid: Grid<char>, current: seq<Beam>) returns (r: Result<(BeamDict, nat), Error>)
    requires grid.Valid()
    ensures Rect(grid.lines, grid.width)
    ensures r.Ok? <==> Step(grid.lines, grid.width, current).Ok?
    ensures r.Err? ==> r.error == OutOfBounds && Step(grid.lines, grid.width, current) == Err(OutOfBounds)
    ensures r.Ok? ==> fresh(r.value.0) && r.value.0.Valid() &&
                      Step(grid.lines, grid.width, current) == Ok((r.value.0.entries, r.value.1))
  {
    var newBeams := new BeamDict();
    var splits := 0;
    for i := 0 to |current|
      invariant fresh(newBeams) && newBeams.Valid()
      invariant Step(grid.lines, grid.width, current[..i]) == Ok((newBeams.entries, splits))
    {
      assert current[..i + 1][..i] == current[..i];
      var beam := current[i];
      var newLoc := beam.location.MoveIn(Down, 1);
      var cell := grid.GetCell(newLoc);
      if cell.Err? {
        StepFails(grid.lines, grid.width, current);
        assert current[i] == beam;
        return Err(OutOfBounds);
      }
      if cell.value == '.' {
        newBeams.AddBeam(newLoc, beam.strength);
      }
      if cell.value == '^' {
        newBeams.AddBeam(newLoc.MoveIn(Left, 1), beam.strength);
        newBeams.AddBeam(newLoc.MoveIn(Right, 1), beam.strength);
        splits := splits + 1;
      }
    }
    assert current[..|current|] == current;
    StepFails(grid.lines, grid.width, current);
    r := Ok((newBeams, splits));
  }

  // ====================================================== the step loops

  /** `t` steps from the beams `start`: the beams then and the splits so
      far, or the first error. */
  function Run(lines: seq<string>, w: nat, start: seq<Beam>, t: nat): Result<(seq<Beam>, nat), Error>
    requires Rect(lines, w)
  {
    if t == 0 then Ok((start, 0))
    else
      match Run(lines, w, start, t - 1)
      case Err(e) => Err(e)
      case Ok((beams, splits)) =>
        match Step(lines, w, beams)
        case Err(e) => Err(e)
        case Ok((next, more)) => Ok((next, splits + more))
  }

  /** The number of steps of `range(start_y, height - 1)`. */
  function Steps(height: nat, startY: int): nat
  {
    if startY < height - 1 then height - 1 - startY else 0
  }

  /** An error stays: once a run has failed, running longer gives the same
      error. */
  lemma {:induction false} RunFailed(lines: seq<string>, w: nat, start: seq<Beam>, t: nat, u: nat)
    requires Rect(lines, w) && t <= u
    ensures Run(lines, w, start, t).Err? ==> Run(lines, w, start, u) == Run(lines, w, start, t)
    decreases u
  {
    if t < u {
      RunFailed(lines, w, start, t, u - 1);
    }
  }

  /** After t steps from beams on row y0 the beams are all on row y0 + t,
      keyed, with strength at least one when they started so. */
  lemma {:induction false} RunShape(lines: seq<string>, w: nat, start: seq<Beam>, y0: int, t: nat)
    requires Rect(lines, w) && Keyed(start) && OnRow(start, y0)
    ensures Run(lines, w, start, t).Ok? ==>
              Keyed(Run(lines, w, start, t).value.0) && OnRow(Run(lines, w, start, t).value.0, y0 + t)
    ensures Run(lines, w, start, t).Ok? && Positive(start) ==> Positive(Run(lines, w, start, t).value.0)
    decreases t
  {
    if t > 0 {
      RunShape(lines, w, start, y0, t - 1);
      var r := Run(lines, w, start, t - 1);
      if r.Ok? {
        StepShape(lines, w, r.value.0, y0 + t - 1);
      }
    }
  }

  /** The loops stop a row above the bottom, so no beam is ever looked up
      below the grid: a run that raises does so because a beam left the
      grid sideways, at a step that started inside it. */
  lemma RunFailsSideways(lines: seq<string>, w: nat, start: seq<Beam>, y0: int, t: nat)
    requires Rect(lines, w) && Keyed(start) && OnRow(start, y0)
    requires 0 <= y0 && y0 + t <= |lines| - 1
    ensures Run(lines, w, start, t).Err? ==>
              exists u :: 0 <= u < t && Run(lines, w, start, u).Ok? && Sideways(lines, w, Run(lines, w, start, u).value.0)
  {
    if Run(lines, w, start, t).Err? {
      var u := FirstFailure(lines, w, start, t);
      var beams := Run(lines, w, start, u).value.0;
      RunShape(lines, w, start, y0, u);
      StepFails(lines, w, beams);
      var k :| 0 <= k < |beams| && !InGrid(lines, w, Landing(beams[k]));
      assert beams[k].location.y == y0 + u;
    }
  }

  /** Some beam arrives on a row of the grid but left or right of it. */
  predicate Sideways(lines: seq<string>, w: nat, beams: seq<Beam>)
  {
    exists k :: 0 <= k < |beams| && 0 <= Landing(beams[k]).y < |lines| && !(0 <= Landing(beams[k]).x < w)
  }

  /** The last step a failed run took without error, whose beams then
      escape. */
  lemma {:induction false} FirstFailure(lines: seq<string>, w: nat, start: seq<Beam>, t: nat) returns (u: nat)
    requires Rect(lines, w) && Run(lines, w, start, t).Err?
    ensures u < t && Run(lines, w, start, u).Ok? && Step(lines, w, Run(lines, w, start, u).value.0).Err?
    decreases t
  {
    if Run(lines, w, start, t - 1).Err? {
      u := FirstFailure(lines, w, start, t - 1);
    } else {
      u := t - 1;
    }
  }

  /** `t` steps of the solvers' loop from the beams `start`, stepping while
      the row is above the last one. */
  method Simulate(grid: Grid<char>, start: Vector) returns (r: Result<(seq<Beam>, nat), Error>)
    requires grid.Valid()
    ensures Rect(grid.lines, grid.width)
    ensures r == Run(grid.lines, grid.width, [Beam(start, 1)], Steps(grid.Height(), start.y))
  {
    var beams: seq<Beam> := [Beam(start, 1)];
    var total := 0;
    var y := start.y;
    ghost var t: nat := 0;
    ghost var steps := Steps(grid.Height(), start.y);
    while y < grid.Height() - 1
      invariant y == start.y + t && t <= steps
      invariant Run(grid.lines, grid.width, [Beam(start, 1)], t) == Ok((beams, total))
      decreases grid.Height() - 1 - y
    {
      var stepped := SimulateStep(grid, beams);
      if stepped.Err? {
        assert Run(grid.lines, grid.width, [Beam(start, 1)], t + 1) == Err(OutOfBounds);
        RunFailed(grid.lines, grid.width, [Beam(start, 1)], t + 1, steps);
        return Err(stepped.error);
      }
      beams, total := stepped.value.0.entries, total + stepped.value.1;
      y, t := y + 1, t + 1;
    }
    r := Ok((beams, total));
  }

  // ============================================================== parsing

  /** The number of start markers in the first n lines. */
  function StartCount(lines: seq<string>, n: nat): nat
    requires n <= |lines|
  {
    if n == 0 then 0 else StartCount(lines, n - 1) + |Occurrences(lines[n - 1], 'S')|
  }

  /** `parse_input` after the first n lines: the marker positions recorded,
      or the error raised. The scanner admits one marker and raises on the
      second before the grid sees that line; the grid then refuses a line
      of another width. */
  function Scan(lines: seq<string>, n: nat): Result<seq<Vector>, Error>
    requires n <= |lines|
  {
    if n == 0 then Ok([])
    else
      match Scan(lines, n - 1)
      case Err(e) => Err(e)
      case Ok(found) =>
        var occ := Occurrences(lines[n - 1], 'S');
        if |found| + |occ| > 1 then Err(TooManyMatches)
        else if n - 1 >= 1 && |lines[n - 1]| != |lines[0]| then Err(WidthMismatch)
        else Ok(found + AtRow(occ, n - 1))
  }

  /** The lines with the marker replaced by '.'. */
  function Cleared(lines: seq<string>): seq<string>
  {
    seq(|lines|, y requires 0 <= y < |lines| => ReplaceAll(lines[y], 'S', '.'))
  }

  /** `parse_input`: the cleared grid and the single marker's position. */
  function Parse(lines: seq<string>): Result<(seq<string>, Vector), Error>
  {
    match Scan(lines, |lines|)
    case Err(e) => Err(e)
    case Ok(found) => if |found| == 1 then Ok((Cleared(lines), found[0])) else Err(InvalidResultCount)
  }

  /** The first n lines have the width of the first line. */
  predicate OneWidth(lines: seq<string>, n: nat)
    requires n <= |lines|
  {
    forall y :: 0 <= y < n ==> |lines[y]| == |lines[0]|
  }

  lemma OneWidthStep(lines: seq<string>, n: nat)
    requires 0 < n <= |lines|
    ensures OneWidth(lines, n) <==> OneWidth(lines, n - 1) && |lines[n - 1]| == |lines[0]|
  {
  }

  /** The first n lines scan without error exactly when they have one width
      and at most one marker between them, and then as many positions are
      recorded as there are markers. */
  lemma {:induction false} ScanOk(lines: seq<string>, n: nat)
    requires n <= |lines|
    ensures Scan(lines, n).Ok? <==> OneWidth(lines, n) && StartCount(lines, n) <= 1
    ensures Scan(lines, n).Ok? ==> |Scan(lines, n).value| == StartCount(lines, n)
    decreases n
  {
    if n > 0 {
      ScanOk(lines, n - 1);
      OneWidthStep(lines, n);
      var occ := Occurrences(lines[n - 1], 'S');
      assert StartCount(lines, n) == StartCount(lines, n - 1) + |occ|;
      var prev := Scan(lines, n - 1);
      if prev.Ok? {
        var found := prev.value;
        if |found| + |occ| > 1 {
          assert Scan(lines, n) == Err(TooManyMatches);
        } else if n - 1 >= 1 && |lines[n - 1]| != |lines[0]| {
          assert Scan(lines, n) == Err(WidthMismatch);
        } else {
          assert Scan(lines, n) == Ok(found + AtRow(occ, n - 1));
        }
      }
    }
  }

  /** A scan raises for a second marker or a line of another width; with one
      width, only for a second marker. */
  lemma {:induction false} ScanErrors(lines: seq<string>, n: nat)
    requires n <= |lines|
    ensures Scan(lines, n).Err? ==> Scan(lines, n).error in {TooManyMatches, WidthMismatch}
    ensures Scan(lines, n).Err? && OneWidth(lines, n) ==> Scan(lines, n).error == TooManyMatches
    decreases n
  {
    if n > 0 {
      ScanErrors(lines, n - 1);
      OneWidthStep(lines, n);
    }
  }

  /** The j-th position a line adds to the scan is its j-th marker. */
  lemma ScanRow(lines: seq<string>, n: nat)
    requires 0 < n <= |lines| && Scan(lines, n).Ok?
    ensures Scan(lines, n - 1).Ok?
    ensures var occ := Occurrences(lines[n - 1], 'S');
            && Scan(lines, n).value == Scan(lines, n - 1).value + AtRow(occ, n - 1)
            && forall j :: 0 <= j < |occ| ==> AtRow(occ, n - 1)[j] == Vector(occ[j], n - 1)
  {
    var occ := Occurrences(lines[n - 1], 'S');
    forall j | 0 <= j < |occ|
      ensures AtRow(occ, n - 1)[j] == Vector(occ[j], n - 1)
    {
      AtRowIndex(occ, n - 1, j);
    }
  }

  /** Position p holds a marker within the first n lines. */
  predicate Marker(lines: seq<string>, n: nat, p: Vector)
    requires n <= |lines|
  {
    0 <= p.y < n && 0 <= p.x < |lines[p.y]| && lines[p.y][p.x] == 'S'
  }

  /** The positions recorded for a row hold its markers. */
  lemma RowMarkers(line: string, y: nat)
    ensures var row := AtRow(Occurrences(line, 'S'), y);
            forall j :: 0 <= j < |row| ==> row[j].y == y && 0 <= row[j].x < |line| && line[row[j].x] == 'S'
  {
    var occ := Occurrences(line, 'S');
    forall j | 0 <= j < |occ|
      ensures AtRow(occ, y)[j].y == y && 0 <= AtRow(occ, y)[j].x < |line| && line[AtRow(occ, y)[j].x] == 'S'
    {
      AtRowIndex(occ, y, j);
    }
  }

  /** Markers of the first n - 1 lines followed by markers of line n - 1
      are markers of the first n lines. */
  lemma MarkersAppend(lines: seq<string>, n: nat, prev: seq<Vector>, row: seq<Vector>)
    requires 0 < n <= |lines|
    requires forall k :: 0 <= k < |prev| ==> Marker(lines, n - 1, prev[k])
    requires forall j :: 0 <= j < |row| ==>
               row[j].y == n - 1 && 0 <= row[j].x < |lines[n - 1]| && lines[n - 1][row[j].x] == 'S'
    ensures forall k :: 0 <= k < |prev + row| ==> Marker(lines, n, (prev + row)[k])
  {
    forall k | 0 <= k < |prev + row|
      ensures Marker(lines, n, (prev + row)[k])
    {
      if k < |prev| {
        assert (prev + row)[k] == prev[k] && Marker(lines, n - 1, prev[k]);
      } else {
        assert (prev + row)[k] == row[k - |prev|];
      }
    }
  }

  /** Every position a scan records holds a marker. */
  lemma {:induction false} ScanSound(lines: seq<string>, n: nat)
    requires n <= |lines| && Scan(lines, n).Ok?
    ensures forall k :: 0 <= k < |Scan(lines, n).value| ==> Marker(lines, n, Scan(lines, n).value[k])
    decreases n
  {
    if n > 0 {
      ScanSound(lines, n - 1);
      RowMarkers(lines[n - 1], n - 1);
      MarkersAppend(lines, n, Scan(lines, n - 1).value, AtRow(Occurrences(lines[n - 1], 'S'), n - 1));
    }
  }

  /** Every marker of the lines scanned is recorded. */
  lemma {:induction false} ScanComplete(lines: seq<string>, n: nat)
    requires n <= |lines| && Scan(lines, n).Ok?
    ensures forall y, x :: 0 <= y < n && 0 <= x < |lines[y]| && lines[y][x] == 'S' ==>
              Vector(x, y) in Scan(lines, n).value
    decreases n
  {
    if n > 0 {
      ScanRow(lines, n);
      ScanComplete(lines, n - 1);
      var last := lines[n - 1];
      var occ := Occurrences(last, 'S');
      var row := AtRow(occ, n - 1);
      var prev := Scan(lines, n - 1).value;
      forall y, x | 0 <= y < n && 0 <= x < |lines[y]| && lines[y][x] == 'S'
        ensures Vector(x, y) in prev + row
      {
        if y == n - 1 {
          assert last[x] == 'S';
          var j :| 0 <= j < |occ| && occ[j] == x;
          assert row[j] == Vector(x, n - 1);
        } else {
          assert Vector(x, y) in prev;
        }
      }
    }
  }

  /** The input parses exactly when its lines have one width and hold one
      marker between them; a missing marker and a second marker raise
      their own errors. */
  lemma ParseOk(lines: seq<string>)
    ensures Parse(lines).Ok? <==> Uniform(lines) && StartCount(lines, |lines|) == 1
    ensures Parse(lines).Err? ==> Parse(lines).error in {TooManyMatches, WidthMismatch, InvalidResultCount}
    ensures Uniform(lines) && StartCount(lines, |lines|) == 0 ==> Parse(lines) == Err(InvalidResultCount)
    ensures Uniform(lines) && StartCount(lines, |lines|) > 1 ==> Parse(lines) == Err(TooManyMatches)
  {
    ScanOk(lines, |lines|);
    ScanErrors(lines, |lines|);
  }

  /** The start of a parsed input is where its only marker stood. */
  lemma ParseStart(lines: seq<string>)
    requires Parse(lines).Ok?
    ensures var s := Parse(lines).value.1;
            && 0 <= s.y < |lines| && 0 <= s.x < |lines[s.y]| && lines[s.y][s.x] == 'S'
            && forall y, x :: 0 <= y < |lines| && 0 <= x < |lines[y]| && lines[y][x] == 'S' ==> Vector(x, y) == s
  {
    var found := Scan(lines, |lines|).value;
    assert |found| == 1 && Parse(lines).value.1 == found[0];
    ScanSound(lines, |lines|);
    assert Marker(lines, |lines|, found[0]);
    ScanComplete(lines, |lines|);
    forall y, x | 0 <= y < |lines| && 0 <= x < |lines[y]| && lines[y][x] == 'S'
      ensures Vector(x, y) == found[0]
    {
      assert Vector(x, y) in found;
    }
  }

  /** A parsed grid is the input with its only marker replaced by '.'. */
  lemma ParseGrid(lines: seq<string>)
    requires Parse(lines).Ok?
    ensures var (rows, s) := Parse(lines).value;
            && |rows| == |lines|
            && forall y, x :: 0 <= y < |rows| && 0 <= x < |rows[y]| ==>
                 |rows[y]| == |lines[y]| && rows[y][x] == if Vector(x, y) == s then '.' else lines[y][x]
  {
    ParseStart(lines);
  }

  /** The lines of a parsed input form a grid of their width. */
  lemma ParseShape(lines: seq<string>)
    requires Parse(lines).Ok?
    ensures Rect(Parse(lines).value.0, Width(Parse(lines).value.0))
    ensures Width(Parse(lines).value.0) == Width(lines)
  {
    ScanOk(lines, |lines|);
  }

  /** `parse_input` over the lines: the scanner and the grid fed line by
      line, then the single result. */
  method BuildStart(lines: seq<string>) returns (r: Result<(Grid<char>, Vector), Error>)
    ensures r.Ok? <==> Parse(lines).Ok?
    ensures r.Err? ==> r.error == Parse(lines).error
    ensures r.Ok? ==> fresh(r.value.0) && r.value.0.Valid() &&
                      r.value.0.lines == Parse(lines).value.0 && r.value.0.width == Width(lines) &&
                      r.value.1 == Parse(lines).value.1
  {
    var grid := new Grid<char>();
    var startSearch := new GridSearch('S', '.', Some(1));
    for y := 0 to |lines|
      invariant fresh(grid) && fresh(startSearch) && grid.Valid()
      invariant Scan(lines, y) == Ok(startSearch.results)
      invariant grid.lines == Cleared(lines)[..y] && grid.width == (if y == 0 then 0 else |lines[0]|)
    {
      var fed := FeedLine(grid, startSearch, lines, y);
      if fed.Fail? {
        ScanFailsLater(lines, y + 1);
        return Err(fed.error);
      }
    }
    assert Cleared(lines)[..|lines|] == Cleared(lines);
    var start := startSearch.SingleResult();
    if start.Err? {
      return Err(start.error);
    }
    r := Ok((grid, start.value));
  }

  /** One turn of `parse_input`'s loop: line y through the scanner, then
      onto the grid. */
  method FeedLine(grid: Grid<char>, startSearch: GridSearch, lines: seq<string>, y: nat) returns (r: Outcome<Error>)
    requires y < |lines| && grid.Valid()
    requires startSearch.searchChar == 'S' && startSearch.replaceChar == '.' && startSearch.maxCount == Some(1)
    requires Scan(lines, y) == Ok(startSearch.results)
    requires grid.lines == Cleared(lines)[..y] && grid.width == (if y == 0 then 0 else |lines[0]|)
    modifies grid, startSearch
    ensures grid.Valid()
    ensures r.Fail? <==> Scan(lines, y + 1).Err?
    ensures r.Fail? ==> r.error == Scan(lines, y + 1).error
    ensures r.Pass? ==> Scan(lines, y + 1) == Ok(startSearch.results) &&
                        grid.lines == Cleared(lines)[..y + 1] && grid.width == |lines[0]|
  {
    ghost var found := startSearch.results;
    ScanNext(lines, y, found);
    ClearedLine(lines, y);
    var line := SearchStart(startSearch, lines, y);
    if line.Err? {
      return Fail(line.error);
    }
    assert |line.value| == |lines[y]|;
    var added := grid.AddLine(line.value);
    if added.Fail? {
      return Fail(added.error);
    }
    r := Pass;
  }

  /** A cleared line keeps its length and extends the cleared prefix. */
  lemma ClearedLine(lines: seq<string>, y: nat)
    requires y < |lines|
    ensures |Cleared(lines)[y]| == |lines[y]| && |Cleared(lines)[0]| == |lines[0]|
    ensures Cleared(lines)[..y + 1] == Cleared(lines)[..y] + [Cleared(lines)[y]]
  {
  }

  /** `start_search.search_line(line, y)` with the scanner holding the
      markers of the lines above. */
  method SearchStart(startSearch: GridSearch, lines: seq<string>, y: nat) returns (r: Result<string, Error>)
    requires y < |lines|
    requires startSearch.searchChar == 'S' && startSearch.replaceChar == '.' && startSearch.maxCount == Some(1)
    requires Scan(lines, y).Ok? && Scan(lines, y).value == startSearch.results
    modifies startSearch
    ensures var occ := Occurrences(lines[y], 'S');
            && (r.Err? <==> |old(startSearch.results)| + |occ| > 1)
            && (r.Err? ==> r.error == TooManyMatches)
            && (r.Ok? ==> r.value == Cleared(lines)[y] && startSearch.results == old(startSearch.results) + AtRow(occ, y))
  {
    var occ := Occurrences(lines[y], 'S');
    ScanOk(lines, y);
    startSearch.AdmitOne(|startSearch.results|, |occ|);
    r := startSearch.SearchLine(lines[y], y);
    assert occ[..|occ|] == occ;
  }

  /** One more line of the scan. */
  lemma ScanNext(lines: seq<string>, y: nat, found: seq<Vector>)
    requires y < |lines| && Scan(lines, y) == Ok(found)
    ensures var occ := Occurrences(lines[y], 'S');
            Scan(lines, y + 1) ==
              if |found| + |occ| > 1 then Err(TooManyMatches)
              else if y >= 1 && |lines[y]| != |lines[0]| then Err(WidthMismatch)
              else Ok(found + AtRow(occ, y))
  {
  }

  /** A scan that fails on a prefix fails the same way on all the lines. */
  lemma {:induction false} ScanFailsLater(lines: seq<string>, n: nat)
    requires n <= |lines|
    ensures Scan(lines, n).Err? ==> Scan(lines, |lines|) == Scan(lines, n)
    decreases |lines| - n
  {
    if n < |lines| {
      ScanFailsLater(lines, n + 1);
    }
  }

  /** `parse_input(input_str)`. */
  method ParseInput(input: string) returns (r: Result<(Grid<char>, Vector), Error>)
    ensures r.Ok? <==> Parse(LineIterator(input)).Ok?
    ensures r.Err? ==> r.error == Parse(LineIterator(input)).error
    ensures r.Ok? ==> fresh(r.value.0) && r.value.0.Valid() &&
                      r.value.0.lines == Parse(LineIterator(input)).value.0 &&
                      r.value.1 == Parse(LineIterator(input)).value.1
  {
    r := BuildStart(LineIterator(input));
  }

  // ============================================================== solving

  /** Both parts' loop after parsing: one beam of strength 1 at the start,
      stepped until the row above the last. */
  function Beamed(lines: seq<string>): Result<(seq<Beam>, nat), Error>
  {
    match Parse(lines)
    case Err(e) => Err(e)
    case Ok((rows, s)) =>
      ParseShape(lines);
      Run(rows, Width(rows), [Beam(s, 1)], Steps(|rows|, s.y))
  }

  /** After the loop the beams are on the last row (or still on the start
      row when that is the last one), one entry per location, each with
      strength at least one, so part 2's answer is at least the number of
      beams. */
  lemma BeamedShape(lines: seq<string>)
    ensures Beamed(lines).Ok? ==>
              var (rows, s) := Parse(lines).value;
              var beams := Beamed(lines).value.0;
              && Keyed(beams) && Positive(beams)
              && OnRow(beams, if s.y < |rows| - 1 then |rows| - 1 else s.y)
              && Total(beams) >= |beams|
  {
    if Beamed(lines).Ok? {
      var (rows, s) := Parse(lines).value;
      ParseShape(lines);
      RunShape(rows, Width(rows), [Beam(s, 1)], s.y, Steps(|rows|, s.y));
      TotalAtLeast(Beamed(lines).value.0);
    }
  }

  /** Beams of strength at least one add up to at least their number. */
  lemma {:induction false} TotalAtLeast(beams: seq<Beam>)
    requires Positive(beams)
    ensures Total(beams) >= |beams|
    decreases |beams|
  {
    if |beams| > 0 {
      TotalAtLeast(beams[..|beams| - 1]);
    }
  }

  /** `solve_part1`: the number of splits over all steps. */
  method SolvePart1(input: string) returns (r: Result<nat, Error>)
    ensures r.Ok? <==> Beamed(LineIterator(input)).Ok?
    ensures r.Ok? ==> r.value == Beamed(LineIterator(input)).value.1
    ensures r.Err? ==> r.error == Beamed(LineIterator(input)).error
  {
    var parsed := ParseInput(input);
    if parsed.Err? {
      return Err(parsed.error);
    }
    var (grid, start) := parsed.value;
    var beamed := Simulate(grid, start);
    if beamed.Err? {
      return Err(beamed.error);
    }
    r := Ok(beamed.value.1);
  }

  /** `solve_part2`: the summed strength of the beams after the last step. */
  method SolvePart2(input: string) returns (r: Result<int, Error>)
    ensures r.Ok? <==> Beamed(LineIterator(input)).Ok?
    ensures r.Ok? ==> r.value == Total(Beamed(LineIterator(input)).value.0)
    ensures r.Err? ==> r.error == Beamed(LineIterator(input)).error
  {
    var parsed := ParseInput(input);
    if parsed.Err? {
      return Err(parsed.error);
    }
    var (grid, start) := parsed.value;
    var beamed := Simulate(grid, start);
    if beamed.Err? {
      return Err(beamed.error);
    }
    r := Ok(Total(beamed.value.0));
  }
}
