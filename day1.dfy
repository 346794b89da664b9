/** Day 1: a dial numbered 0..99, starting at 50, is turned by a list of
    rotations. Part 1 counts the rotations that leave the dial at 0; part 2
    counts every click at which the dial passes or stops at 0. */
module Day1 {
  import opened Wrappers
  import opened Text
  import opened Arith

  /** A rotation: the direction character and a distance in clicks. The
      character class `[R|L]` of the rotation pattern also admits '|', a
      direction that moves nothing. */
  datatype Rotation = Rotation(direction: char, distance: nat)

  const DialStart: int := 50

  // ------------------------------------------------------------- parsing

  /** The longest prefix of `s` made of decimal digits (the greedy `\d+`). */
  function DigitPrefix(s: string): (r: string)
    ensures r <= s && AllDigits(r)
    ensures |r| == |s| || !IsDigit(s[|r|])
  {
    if |s| == 0 || !IsDigit(s[0]) then [] else [s[0]] + DigitPrefix(s[1..])
  }

  /** The rotation pattern matched at the start of a line: a direction
      character from `[R|L]` followed by at least one digit; whatever follows
      the digits is ignored. A line that does not match has no rotation. */
  function ParseRotation(line: string): (r: Option<Rotation>)
    ensures r.Some? <==> |line| >= 2 && line[0] in "R|L" && IsDigit(line[1])
    ensures r.Some? ==> r.value.direction == line[0]
    ensures r.Some? ==> var digits := DigitPrefix(line[1..]);
              |digits| >= 1 && r.value.distance == DigitsValue(digits)
  {
    if |line| >= 2 && line[0] in "R|L" && IsDigit(line[1])
    then Some(Rotation(line[0], DigitsValue(DigitPrefix(line[1..]))))
    else None
  }

  /** `parse_input`: one rotation per line of the input; any line that does
      not match fails the whole parse. */
  method ParseInput(input: string) returns (r: Option<seq<Rotation>>)
    ensures var lines := LineIterator(input);
            r.Some? <==> forall i :: 0 <= i < |lines| ==> ParseRotation(lines[i]).Some?
    ensures r.Some? ==> |r.value| == |LineIterator(input)|
    ensures r.Some? ==> forall i :: 0 <= i < |r.value| ==> Some(r.value[i]) == ParseRotation(LineIterator(input)[i])
  {
    var lines := LineIterator(input);
    var rotations: seq<Rotation> := [];
    for i := 0 to |lines|
      invariant |rotations| == i
      invariant forall k :: 0 <= k < i ==> Some(rotations[k]) == ParseRotation(lines[k])
    {
      var parsed := ParseRotation(lines[i]);
      if parsed.None? {
        return None;
      }
      rotations := rotations + [parsed.value];
    }
    r := Some(rotations);
  }

  /** A rotation written back as a line of the input. */
  function FormatRotation(rot: Rotation): string
  {
    [rot.direction] + NatToString(rot.distance)
  }

  /** The digit prefix of a digit string is the whole string. */
  lemma {:induction false} DigitPrefixOfDigits(s: string)
    requires AllDigits(s)
    ensures DigitPrefix(s) == s
    decreases |s|
  {
    if |s| > 0 {
      DigitPrefixOfDigits(s[1..]);
    }
  }

  /** Parsing a formatted rotation gives it back. */
  lemma ParseFormatRotation(rot: Rotation)
    requires rot.direction in "R|L"
    ensures ParseRotation(FormatRotation(rot)) == Some(rot)
  {
    var line := FormatRotation(rot);
    var digits := NatToString(rot.distance);
    assert line[1..] == digits;
    DigitPrefixOfDigits(digits);
    NatToStringRoundTrip(rot.distance);
  }

  /** An input written one rotation per line is read back line by line into
      the same rotations. */
  lemma ParseFormatInput(rots: seq<Rotation>)
    requires |rots| >= 1
    requires forall i :: 0 <= i < |rots| ==> rots[i].direction in "RL"
    ensures var lines := LineIterator(Join(FormatLines(rots), '\n'));
            |lines| == |rots| && forall i :: 0 <= i < |rots| ==> ParseRotation(lines[i]) == Some(rots[i])
  {
    var lines := FormatLines(rots);
    forall i | 0 <= i < |lines|
      ensures '\n' !in lines[i] && '\r' !in lines[i]
    {
      assert AllDigits(lines[i][1..]);
      assert lines[i] == [rots[i].direction] + lines[i][1..];
    }
    LineIteratorOfJoin(lines);
    forall i | 0 <= i < |rots|
      ensures ParseRotation(lines[i]) == Some(rots[i])
    {
      ParseFormatRotation(rots[i]);
    }
  }

  function FormatLines(rots: seq<Rotation>): (r: seq<string>)
    ensures |r| == |rots|
    ensures forall i :: 0 <= i < |rots| ==> r[i] == FormatRotation(rots[i])
  {
    seq(|rots|, i requires 0 <= i < |rots| => FormatRotation(rots[i]))
  }

  // ------------------------------------------------------------ rotating

  /** `rotate`: 'R' adds the distance, 'L' subtracts it, any other
      direction leaves the position as it is. No reduction modulo 100. */
  function Rotate(pos: int, rot: Rotation): int
  {
    if rot.direction == 'R' then pos + rot.distance
    else if rot.direction == 'L' then pos - rot.distance
    else pos
  }

  /** The signed displacement of a rotation. */
  function Movement(rot: Rotation): int
  {
    match rot.direction
    case 'R' => rot.distance as int
    case 'L' => -(rot.distance as int)
    case _ => 0
  }

  /** Rotating is adding the movement, and a left turn undoes a right turn
      of the same distance. */
  lemma RotateProperties(pos: int, d: nat)
    ensures forall rot: Rotation :: Rotate(pos, rot) == pos + Movement(rot)
    ensures Rotate(Rotate(pos, Rotation('R', d)), Rotation('L', d)) == pos
    ensures Rotate(Rotate(pos, Rotation('L', d)), Rotation('R', d)) == pos
    ensures Rotate(pos, Rotation('|', d)) == pos
  {
  }

  /** The total movement of a list of rotations. */
  function NetMovement(rots: seq<Rotation>): int
  {
    if |rots| == 0 then 0 else NetMovement(rots[..|rots| - 1]) + Movement(rots[|rots| - 1])
  }

  /** Where the dial rests after the rotations `rots`. */
  function DialAfter(rots: seq<Rotation>): (r: int)
    ensures 0 <= r < 100
  {
    (DialStart + NetMovement(rots)) % 100
  }

  // -------------------------------------------------------------- part 1

  /** How many of the rotations leave the dial at 0: the prefixes `rots[..k]`,
      1 <= k <= |rots|, after which the dial reads 0. */
  function ZeroStops(rots: seq<Rotation>): nat
  {
    if |rots| == 0 then 0
    else ZeroStops(rots[..|rots| - 1]) + (if DialAfter(rots) == 0 then 1 else 0)
  }

  /** `solve_part1`: the dial is reduced modulo 100 after every rotation and
      each stop at 0 is counted. */
  method SolvePart1(rotations: seq<Rotation>) returns (zeroCount: nat)
    ensures zeroCount == ZeroStops(rotations)
  {
    var curPos := DialStart;
    zeroCount := 0;
    for i := 0 to |rotations|
      invariant curPos == DialAfter(rotations[..i])
      invariant zeroCount == ZeroStops(rotations[..i])
    {
      assert rotations[..i + 1][..i] == rotations[..i];
      ModOfSum(DialStart + NetMovement(rotations[..i]), Movement(rotations[i]), 100);
      curPos := Rotate(curPos, rotations[i]) % 100;
      if curPos == 0 {
        zeroCount := zeroCount + 1;
      }
    }
    assert rotations[..|rotations|] == rotations;
  }

  /** Reducing after every rotation lands where the total movement does. */
  lemma {:induction false} DialAfterSteps(rots: seq<Rotation>)
    ensures |rots| > 0 ==> DialAfter(rots) == Rotate(DialAfter(rots[..|rots| - 1]), rots[|rots| - 1]) % 100
  {
    if |rots| > 0 {
      var init := rots[..|rots| - 1];
      ModOfSum(DialStart + NetMovement(init), Movement(rots[|rots| - 1]), 100);
    }
  }

  // -------------------------------------------------------------- part 2

  /** The clicks at which a dial at `pos` reads 0 while turning right by d,
      counted one click at a time. */
  function ClicksRight(pos: int, d: nat): nat
  {
    if d == 0 then 0 else ClicksRight(pos, d - 1) + (if (pos + d) % 100 == 0 then 1 else 0)
  }

  /** The same, turning left. */
  function ClicksLeft(pos: int, d: nat): nat
  {
    if d == 0 then 0 else ClicksLeft(pos, d - 1) + (if (pos - d) % 100 == 0 then 1 else 0)
  }

  /** The clicks at 0 during one rotation from `pos`; '|' does not turn. */
  function ClicksDuring(pos: int, rot: Rotation): nat
  {
    if rot.direction == 'R' then ClicksRight(pos, rot.distance)
    else if rot.direction == 'L' then ClicksLeft(pos, rot.distance)
    else 0
  }

  /** All clicks at 0 over the rotations, each rotation starting where the
      previous ones left the dial. */
  function TotalClicks(rots: seq<Rotation>): nat
  {
    if |rots| == 0 then 0
    else
      var init := rots[..|rots| - 1];
      TotalClicks(init) + ClicksDuring(DialAfter(init), rots[|rots| - 1])
  }

  /** The right-turn formula `new_pos // 100` counts the multiples of 100 in
      (pos, new_pos]. */
  lemma {:induction false} RightFormula(pos: int, d: nat)
    requires 0 <= pos < 100
    ensures (pos + d) / 100 == ClicksRight(pos, d)
  {
    if d > 0 {
      RightFormula(pos, d - 1);
      FloorStep(pos + d, 100);
    }
  }

  /** The left-turn formula `ceil((1 - new_pos) / 100) - int(pos == 0)`
      counts the multiples of 100 in [new_pos, pos). */
  lemma {:induction false} LeftFormula(pos: int, d: nat)
    requires 0 <= pos < 100
    ensures CeilDiv(1 - (pos - d), 100) - (if pos == 0 then 1 else 0) == ClicksLeft(pos, d)
  {
    if d > 0 {
      LeftFormula(pos, d - 1);
      FloorStep(pos - d, 100);
    }
  }

  /** The clicks one step of `solve_part2` adds for a rotation from `pos`:
      the right-turn formula for 'R' and the left-turn formula otherwise. */
  function StepClicks(pos: int, rot: Rotation): int
  {
    var newPos := Rotate(pos, rot);
    if rot.direction == 'R' then newPos / 100
    else CeilDiv(1 - newPos, 100) - (if pos == 0 then 1 else 0)
  }

  /** From any dial position, each step's formula counts exactly the clicks
      at 0 during the rotation, including the '|' rotation that counts none. */
  lemma StepClicksCounts(pos: int, rot: Rotation)
    requires 0 <= pos < 100
    ensures StepClicks(pos, rot) == ClicksDuring(pos, rot)
  {
    if rot.direction == 'R' {
      RightFormula(pos, rot.distance);
    } else if rot.direction == 'L' {
      LeftFormula(pos, rot.distance);
    } else {
      LeftFormula(pos, 0);
    }
  }

  /** `solve_part2`. */
  method SolvePart2(rotations: seq<Rotation>) returns (clickCount: int)
    ensures clickCount == TotalClicks(rotations)
  {
    var curPos := DialStart;
    clickCount := 0;
    for i := 0 to |rotations|
      invariant curPos == DialAfter(rotations[..i])
      invariant clickCount == TotalClicks(rotations[..i])
    {
      var rotation := rotations[i];
      assert rotations[..i + 1][..i] == rotations[..i];
      StepClicksCounts(curPos, rotation);
      DialAfterSteps(rotations[..i + 1]);
      var newPos := Rotate(curPos, rotation);
      if rotation.direction == 'R' {
        clickCount := clickCount + newPos / 100;
      } else {
        clickCount := clickCount + CeilDiv(1 - newPos, 100) - (if curPos == 0 then 1 else 0);
      }
      curPos := newPos % 100;
    }
    assert rotations[..|rotations|] == rotations;
  }
}
