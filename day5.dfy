/** Day 5: inclusive ranges of ingredient ids. Part 1 counts the available
    ids that fall in some range; part 2 merges overlapping ranges until no
    merge happens and adds up their lengths. */
module Day5 {
  import opened Wrappers
  import opened Text

  /** The exceptions the solver lets escape. */
  datatype Error =
    | RuntimeError  // `Range(low, high)` with low > high
    | TypeError     // a range line that does not match `(\d+)-(\d+)`
    | ValueError    // an available-id line that `int` refuses

  // ============================================================== ranges

  /** A `Range` object: inclusive bounds. */
  datatype Range = Range(low: int, high: int)

  /** The ranges the constructor lets through: it raises when low > high,
      so every `Range` in the program has low <= high. */
  type ValidRange = r: Range | r.low <= r.high witness Range(0, 0)

  /** `Range(low, high)`. */
  function NewRange(low: int, high: int): (r: Result<ValidRange, Error>)
    ensures r.Ok? <==> low <= high
    ensures r.Ok? ==> r.value.low == low && r.value.high == high
    ensures r.Err? ==> r.error == RuntimeError
  {
    if low > high then Err(RuntimeError) else Ok(Range(low, high))
  }

  /** `n in r`. */
  predicate Contains(r: ValidRange, n: int)
  {
    r.low <= n <= r.high
  }

  /** `len(r)`. */
  function Len(r: ValidRange): (k: int)
    ensures k >= 1
  {
    r.high - r.low + 1
  }

  /** The ids of a range. */
  ghost function Ids(r: ValidRange): set<int>
  {
    set n | r.low <= n <= r.high && Contains(r, n)
  }

  /** `iter(r)`: the ids from low to high, ascending. */
  function Iter(r: ValidRange): (s: seq<int>)
    ensures |s| == Len(r)
    ensures forall n :: n in s <==> Contains(r, n)
    ensures forall i, j :: 0 <= i < j < |s| ==> s[i] < s[j]
  {
    var s := seq(r.high - r.low + 1, i => r.low + i);
    assert forall n :: Contains(r, n) ==> s[n - r.low] == n;
    s
  }

  /** `a.overlaps(b)`, by the source's two-way comparison. */
  predicate Overlaps(a: ValidRange, b: ValidRange)
  {
    if a.low < b.low then a.high >= b.low else a.low <= b.high
  }

  function Max(a: int, b: int): int { if a < b then b else a }

  function Min(a: int, b: int): int { if a < b then a else b }

  /** Two ranges overlap exactly when they share an id, that is when the
      larger low is at most the smaller high; overlap is symmetric. */
  lemma OverlapsMeaning(a: ValidRange, b: ValidRange)
    ensures Overlaps(a, b) <==> Max(a.low, b.low) <= Min(a.high, b.high)
    ensures Overlaps(a, b) ==> Contains(a, Max(a.low, b.low)) && Contains(b, Max(a.low, b.low))
    ensures forall n :: Contains(a, n) && Contains(b, n) ==> Overlaps(a, b)
    ensures Overlaps(a, b) == Overlaps(b, a)
  {
  }

  /** `a.combine(b)`: nothing for disjoint ranges, otherwise the smallest
      range holding both. */
  function Combine(a: ValidRange, b: ValidRange): (r: Option<ValidRange>)
    ensures r.None? <==> !Overlaps(a, b)
    ensures r.Some? ==> r.value.low == Min(a.low, b.low) && r.value.high == Max(a.high, b.high)
  {
    if !Overlaps(a, b) then None else Some(Range(Min(a.low, b.low), Max(a.high, b.high)))
  }

  /** Combining overlapping ranges neither loses nor adds an id. */
  lemma CombineIds(a: ValidRange, b: ValidRange)
    requires Overlaps(a, b)
    ensures forall n :: Contains(Combine(a, b).value, n) <==> Contains(a, n) || Contains(b, n)
  {
    OverlapsMeaning(a, b);
  }

  /** `a.intersect_with(b)`: the constructor raises when the ranges are
      disjoint. */
  function IntersectWith(a: ValidRange, b: ValidRange): (r: Result<ValidRange, Error>)
    ensures r.Ok? <==> Overlaps(a, b)
    ensures r.Ok? ==> forall n :: Contains(r.value, n) <==> Contains(a, n) && Contains(b, n)
    ensures r.Err? ==> r.error == RuntimeError
  {
    OverlapsMeaning(a, b);
    NewRange(Max(a.low, b.low), Min(a.high, b.high))
  }

  /** A range has `len` ids. */
  lemma {:induction false} IdsSize(r: ValidRange)
    ensures |Ids(r)| == Len(r)
    decreases r.high - r.low
  {
    if r.low < r.high {
      var shorter := Range(r.low, r.high - 1);
      IdsSize(shorter);
      assert Ids(r) == Ids(shorter) + {r.high};
    } else {
      assert Ids(r) == {r.low};
    }
  }

  // ========================================================= collections

  /** Some range of `ranges` holds `n`. */
  ghost predicate Covered(ranges: seq<ValidRange>, n: int)
  {
    exists i :: 0 <= i < |ranges| && Contains(ranges[i], n)
  }

  /** The ids the ranges hold, each once. */
  ghost function CoveredIds(ranges: seq<ValidRange>): set<int>
  {
    set i, n | 0 <= i < |ranges| && ranges[i].low <= n <= ranges[i].high && Contains(ranges[i], n) :: n
  }

  /** No range overlaps a range after it. */
  ghost predicate NoOverlaps(ranges: seq<ValidRange>)
  {
    forall a, b :: 0 <= a < b < |ranges| ==> !Overlaps(ranges[a], ranges[b])
  }

  /** `sum(len(r) for r in ranges)`. */
  function TotalLen(ranges: seq<ValidRange>): int
  {
    if |ranges| == 0 then 0 else TotalLen(ranges[..|ranges| - 1]) + Len(ranges[|ranges| - 1])
  }

  /** Ranges that cover the same ids have the same set of ids. */
  lemma CoveredIdsSame(a: seq<ValidRange>, b: seq<ValidRange>)
    requires forall n :: Covered(a, n) <==> Covered(b, n)
    ensures CoveredIds(a) == CoveredIds(b)
  {
    forall n | n in CoveredIds(a)
      ensures n in CoveredIds(b)
    {
      var i :| 0 <= i < |a| && a[i].low <= n <= a[i].high;
      assert Covered(a, n);
      var j :| 0 <= j < |b| && Contains(b[j], n);
    }
    forall n | n in CoveredIds(b)
      ensures n in CoveredIds(a)
    {
      var i :| 0 <= i < |b| && b[i].low <= n <= b[i].high;
      assert Covered(b, n);
      var j :| 0 <= j < |a| && Contains(a[j], n);
    }
  }

  /** The ids of a list are those of all but its last range plus those of
      the last. */
  lemma CoveredIdsSplit(ranges: seq<ValidRange>)
    requires |ranges| > 0
    ensures CoveredIds(ranges) == CoveredIds(ranges[..|ranges| - 1]) + Ids(ranges[|ranges| - 1])
  {
    var m := |ranges| - 1;
    var init := ranges[..m];
    forall n | n in CoveredIds(ranges)
      ensures n in CoveredIds(init) + Ids(ranges[m])
    {
      var i :| 0 <= i < |ranges| && ranges[i].low <= n <= ranges[i].high;
      if i < m {
        assert init[i] == ranges[i];
      }
    }
    forall n | n in CoveredIds(init)
      ensures n in CoveredIds(ranges)
    {
      var i :| 0 <= i < |init| && init[i].low <= n <= init[i].high;
      assert ranges[i] == init[i];
    }
  }

  /** The last range of a list without overlaps shares no id with the
      others. */
  lemma LastApart(ranges: seq<ValidRange>)
    requires |ranges| > 0 && NoOverlaps(ranges)
    ensures CoveredIds(ranges[..|ranges| - 1]) * Ids(ranges[|ranges| - 1]) == {}
  {
    var m := |ranges| - 1;
    var init := ranges[..m];
    forall n | n in CoveredIds(init)
      ensures n !in Ids(ranges[m])
    {
      var i :| 0 <= i < |init| && init[i].low <= n <= init[i].high;
      assert !Overlaps(ranges[i], ranges[m]);
      OverlapsMeaning(ranges[i], ranges[m]);
    }
  }

  /** For ranges that do not overlap, the sum of the lengths is the number
      of distinct ids covered. */
  lemma {:induction false} DisjointTotal(ranges: seq<ValidRange>)
    requires NoOverlaps(ranges)
    ensures TotalLen(ranges) == |CoveredIds(ranges)|
    decreases |ranges|
  {
    if |ranges| > 0 {
      var m := |ranges| - 1;
      var init := ranges[..m];
      assert NoOverlaps(init);
      DisjointTotal(init);
      IdsSize(ranges[m]);
      CoveredIdsSplit(ranges);
      LastApart(ranges);
    }
  }

  // ============================================================== parsing

  /** A `(\d+)-(\d+)` line: `Range(int(m[1]), int(m[2]))`; a line that does
      not match makes the subscript of the failed match raise. */
  function ParseRangeLine(line: string): (r: Result<ValidRange, Error>)
    ensures r.Ok? <==> var parts := SplitOn(line, '-');
              |parts| == 2 && ParseNat(parts[0]).Some? && ParseNat(parts[1]).Some? &&
              ParseNat(parts[0]).value <= ParseNat(parts[1]).value
    ensures r.Ok? ==> 0 <= r.value.low
    ensures r.Err? ==> r.error in {TypeError, RuntimeError}
  {
    var parts := SplitOn(line, '-');
    if |parts| == 2 && ParseNat(parts[0]).Some? && ParseNat(parts[1]).Some?
    then NewRange(ParseNat(parts[0]).value, ParseNat(parts[1]).value)
    else Err(TypeError)
  }

  function FormatRange(low: nat, high: nat): string
  {
    NatToString(low) + "-" + NatToString(high)
  }

  /** Reading a written range gives back its bounds, or the constructor's
      error when they are the wrong way round. */
  lemma ParseFormatRange(low: nat, high: nat)
    ensures low <= high ==> ParseRangeLine(FormatRange(low, high)) == Ok(Range(low, high))
    ensures low > high ==> ParseRangeLine(FormatRange(low, high)) == Err(RuntimeError)
  {
    var a, b := NatToString(low), NatToString(high);
    NatToStringRoundTrip(low);
    NatToStringRoundTrip(high);
    assert '-' !in a && '-' !in b;
    assert FormatRange(low, high) == Join([a, b], '-');
    SplitOnJoin([a, b], '-');
    ParseIntOfString(low);
    ParseIntOfString(high);
  }

  /** The index of the first empty line, or the number of lines. */
  function FirstBlank(lines: seq<string>): (k: nat)
    ensures k <= |lines|
    ensures forall i :: 0 <= i < k ==> lines[i] != ""
    ensures k < |lines| ==> lines[k] == ""
  {
    if |lines| == 0 then 0
    else if lines[0] == "" then 0
    else 1 + FirstBlank(lines[1..])
  }

  /** The lines read by the first loop: those before the first empty line. */
  function RangeLines(lines: seq<string>): seq<string>
  {
    lines[..FirstBlank(lines)]
  }

  /** The lines read by the second loop: those after the first empty line,
      which the first loop consumed. */
  function AvailableLines(lines: seq<string>): seq<string>
  {
    var k := FirstBlank(lines);
    if k < |lines| then lines[k + 1..] else []
  }

  /** Every line of both sections is read without an exception. */
  predicate WellFormed(lines: seq<string>)
  {
    (forall i :: 0 <= i < |RangeLines(lines)| ==> ParseRangeLine(RangeLines(lines)[i]).Ok?) &&
    forall i :: 0 <= i < |AvailableLines(lines)| ==> ParseInt(AvailableLines(lines)[i]).Some?
  }

  /** The ranges of well-formed lines. */
  function ParsedRanges(lines: seq<string>): (r: seq<ValidRange>)
    requires WellFormed(lines)
    ensures |r| == |RangeLines(lines)|
  {
    var rl := RangeLines(lines);
    seq(|rl|, i requires 0 <= i < |rl| => ParseRangeLine(rl[i]).value)
  }

  /** The available ids of well-formed lines. */
  function ParsedAvailable(lines: seq<string>): (r: seq<int>)
    requires WellFormed(lines)
    ensures |r| == |AvailableLines(lines)|
  {
    var al := AvailableLines(lines);
    seq(|al|, i requires 0 <= i < |al| => ParseInt(al[i]).value)
  }

  /** The first loop of `parse_input`: one range per line up to the first
      empty line. */
  method ReadRanges(lines: seq<string>) returns (r: Result<seq<ValidRange>, Error>)
    ensures r.Ok? <==> forall k :: 0 <= k < |RangeLines(lines)| ==> ParseRangeLine(RangeLines(lines)[k]).Ok?
    ensures r.Ok? ==> |r.value| == |RangeLines(lines)|
    ensures r.Ok? ==> forall k :: 0 <= k < |r.value| ==> ParseRangeLine(RangeLines(lines)[k]) == Ok(r.value[k])
    ensures r.Err? ==> r.error in {TypeError, RuntimeError}
  {
    var ranges: seq<ValidRange> := [];
    var i := 0;
    while i < |lines| && lines[i] != ""
      invariant i <= FirstBlank(lines)
      invariant |ranges| == i
      invariant forall k :: 0 <= k < i ==> ParseRangeLine(lines[k]) == Ok(ranges[k])
    {
      var parsed := ParseRangeLine(lines[i]);
      if parsed.Err? {
        assert RangeLines(lines)[i] == lines[i];
        return Err(parsed.error);
      }
      ranges := ranges + [parsed.value];
      i := i + 1;
    }
    assert i == FirstBlank(lines);
    forall k | 0 <= k < i
      ensures ParseRangeLine(RangeLines(lines)[k]) == Ok(ranges[k])
    {
      assert RangeLines(lines)[k] == lines[k];
    }
    r := Ok(ranges);
  }

  /** The second loop of `parse_input`: one id per line from `start` on. */
  method ReadAvailable(lines: seq<string>, start: nat) returns (r: Option<seq<int>>)
    requires start <= |lines|
    ensures r.Some? <==> forall k :: start <= k < |lines| ==> ParseInt(lines[k]).Some?
    ensures r.Some? ==> |r.value| == |lines| - start
    ensures r.Some? ==> forall k :: 0 <= k < |r.value| ==> ParseInt(lines[start + k]) == Some(r.value[k])
  {
    var available: seq<int> := [];
    for j := start to |lines|
      invariant |available| == j - start
      invariant forall k :: 0 <= k < j - start ==> ParseInt(lines[start + k]) == Some(available[k])
    {
      var parsed := ParseInt(lines[j]);
      if parsed.None? {
        return None;
      }
      available := available + [parsed.value];
    }
    forall k | start <= k < |lines|
      ensures ParseInt(lines[k]).Some?
    {
      assert ParseInt(lines[start + (k - start)]) == Some(available[k - start]);
    }
    r := Some(available);
  }

  /** Where the second loop starts: after the first empty line, if any. */
  function AvailableStart(lines: seq<string>): (start: nat)
    ensures start <= |lines| && AvailableLines(lines) == lines[start..]
  {
    var k := FirstBlank(lines);
    if k < |lines| then k + 1 else k
  }

  /** An id line from the second section that `int` refuses makes the input
      ill-formed. */
  lemma BadAvailable(lines: seq<string>, k: nat)
    requires AvailableStart(lines) <= k < |lines| && ParseInt(lines[k]).None?
    ensures !WellFormed(lines)
  {
    assert AvailableLines(lines)[k - AvailableStart(lines)] == lines[k];
  }

  /** What the two loops read is the parse of well-formed lines. */
  lemma ReadBoth(lines: seq<string>, rs: seq<ValidRange>, vs: seq<int>)
    requires |rs| == |RangeLines(lines)|
    requires forall k :: 0 <= k < |rs| ==> ParseRangeLine(RangeLines(lines)[k]) == Ok(rs[k])
    requires |vs| == |lines| - AvailableStart(lines)
    requires forall k :: 0 <= k < |vs| ==> ParseInt(lines[AvailableStart(lines) + k]) == Some(vs[k])
    ensures WellFormed(lines) && rs == ParsedRanges(lines) && vs == ParsedAvailable(lines)
  {
    var start := AvailableStart(lines);
    forall k | 0 <= k < |AvailableLines(lines)|
      ensures ParseInt(AvailableLines(lines)[k]) == Some(vs[k])
    {
      assert AvailableLines(lines)[k] == lines[start + k];
    }
  }

  /** `parse_input` on the lines of the input: ranges up to the first empty
      line, then one id per line. */
  method ParseLines(lines: seq<string>) returns (r: Result<(seq<ValidRange>, seq<int>), Error>)
    ensures r.Ok? <==> WellFormed(lines)
    ensures r.Ok? ==> r.value.0 == ParsedRanges(lines) && r.value.1 == ParsedAvailable(lines)
    ensures r.Err? ==> r.error in {TypeError, RuntimeError, ValueError}
  {
    var ranges := ReadRanges(lines);
    if ranges.Err? {
      return Err(ranges.error);
    }
    var available := ReadAvailable(lines, AvailableStart(lines));
    if available.None? {
      ghost var k :| AvailableStart(lines) <= k < |lines| && ParseInt(lines[k]).None?;
      BadAvailable(lines, k);
      return Err(ValueError);
    }
    ReadBoth(lines, ranges.value, available.value);
    r := Ok((ranges.value, available.value));
  }

  /** `parse_input`. */
  method ParseInput(input: string) returns (r: Result<(seq<ValidRange>, seq<int>), Error>)
    ensures r.Ok? <==> WellFormed(LineIterator(input))
    ensures r.Ok? ==> r.value.0 == ParsedRanges(LineIterator(input))
    ensures r.Ok? ==> r.value.1 == ParsedAvailable(LineIterator(input))
  {
    r := ParseLines(LineIterator(input));
  }

  // ============================================================= part 1

  /** `solve_part1`'s loops: each available id is counted once when some
      range holds it (the inner loop stops at the first such range). */
  method CountFresh(ranges: seq<ValidRange>, available: seq<int>) returns (res: nat)
    ensures res == |set i | 0 <= i < |available| && Covered(ranges, available[i])|
  {
    res := 0;
    ghost var counted: set<nat> := {};
    for i := 0 to |available|
      invariant counted == set k | 0 <= k < i && Covered(ranges, available[k])
      invariant res == |counted|
    {
      var ingId := available[i];
      var found := false;
      for j := 0 to |ranges|
        invariant !found ==> forall k :: 0 <= k < j ==> !Contains(ranges[k], ingId)
        invariant found ==> Covered(ranges, ingId)
      {
        if Contains(ranges[j], ingId) {
          found := true;
          break;
        }
      }
      assert (set k | 0 <= k < i + 1 && Covered(ranges, available[k]))
          == counted + (if Covered(ranges, ingId) then {i} else {});
      if found {
        res := res + 1;
      }
      counted := counted + (if found then {i} else {});
    }
  }

  /** `solve_part1`. */
  method SolvePart1(input: string) returns (r: Result<nat, Error>)
    ensures r.Ok? <==> WellFormed(LineIterator(input))
    ensures r.Ok? ==> var lines := LineIterator(input);
              var available := ParsedAvailable(lines);
              r.value == |set i | 0 <= i < |available| && Covered(ParsedRanges(lines), available[i])|
  {
    var parsed := ParseInput(input);
    if parsed.Err? {
      return Err(parsed.error);
    }
    var count := CountFresh(parsed.value.0, parsed.value.1);
    r := Ok(count);
  }

  // ============================================================= part 2

  /** The inner loop of a pass: `r` is combined into the first range of
      `newRanges` that overlaps it, if there is one. */
  method MergeInto(newRanges: seq<ValidRange>, r: ValidRange) returns (updated: seq<ValidRange>, merged: bool)
    ensures merged ==> |updated| == |newRanges|
    ensures merged ==> forall n :: Covered(updated, n) <==> Covered(newRanges, n) || Contains(r, n)
    ensures !merged ==> updated == newRanges
    ensures !merged ==> forall i :: 0 <= i < |newRanges| ==> !Overlaps(newRanges[i], r)
  {
    updated := newRanges;
    merged := false;
    for i := 0 to |newRanges|
      invariant forall k :: 0 <= k < i ==> !Overlaps(newRanges[k], r)
    {
      var nr := newRanges[i];
      if Overlaps(nr, r) {
        updated := newRanges[i := Combine(nr, r).value];
        merged := true;
        CombinedCovers(newRanges, i, r);
        return;
      }
    }
  }

  /** Replacing range i by its combination with `r` adds exactly `r`'s ids. */
  lemma CombinedCovers(ranges: seq<ValidRange>, i: nat, r: ValidRange)
    requires i < |ranges| && Overlaps(ranges[i], r)
    ensures forall n :: Covered(ranges[i := Combine(ranges[i], r).value], n) <==> Covered(ranges, n) || Contains(r, n)
  {
    var updated := ranges[i := Combine(ranges[i], r).value];
    CombineIds(ranges[i], r);
    forall n
      ensures Covered(updated, n) <==> Covered(ranges, n) || Contains(r, n)
    {
      if Covered(updated, n) {
        var k :| 0 <= k < |updated| && Contains(updated[k], n);
        if k != i {
          assert Contains(ranges[k], n);
        }
      }
      if Covered(ranges, n) {
        var k :| 0 <= k < |ranges| && Contains(ranges[k], n);
        if k != i {
          assert Contains(updated[k], n);
        }
      }
      if Contains(r, n) {
        assert Contains(updated[i], n);
      }
    }
  }

  /** One pass of the merge loop: every range is merged into an earlier
      output range it overlaps, or appended. The ids covered stay the same,
      each merge shortens the list by one, and a pass without merges
      returns its input, which then has no overlaps. */
  method MergePass(ranges: seq<ValidRange>) returns (newRanges: seq<ValidRange>, mergeCount: nat)
    ensures |newRanges| + mergeCount == |ranges|
    ensures forall n :: Covered(newRanges, n) <==> Covered(ranges, n)
    ensures mergeCount == 0 ==> newRanges == ranges && NoOverlaps(ranges)
  {
    newRanges := [];
    mergeCount := 0;
    for k := 0 to |ranges|
      invariant |newRanges| + mergeCount == k
      invariant forall n :: Covered(newRanges, n) <==> Covered(ranges[..k], n)
      invariant mergeCount == 0 ==> newRanges == ranges[..k] && NoOverlaps(newRanges)
    {
      var r := ranges[k];
      PrefixCovers(ranges, k);
      var updated, merged := MergeInto(newRanges, r);
      if merged {
        mergeCount := mergeCount + 1;
        newRanges := updated;
      } else {
        AppendCovers(newRanges, r);
        assert ranges[..k + 1] == ranges[..k] + [r];
        newRanges := newRanges + [r];
      }
    }
    assert ranges[..|ranges|] == ranges;
  }

  /** One more input range covers its own ids on top of the prefix. */
  lemma PrefixCovers(ranges: seq<ValidRange>, k: nat)
    requires k < |ranges|
    ensures forall n :: Covered(ranges[..k + 1], n) <==> Covered(ranges[..k], n) || Contains(ranges[k], n)
  {
    AppendCovers(ranges[..k], ranges[k]);
    assert ranges[..k + 1] == ranges[..k] + [ranges[k]];
  }

  lemma AppendCovers(ranges: seq<ValidRange>, r: ValidRange)
    ensures forall n :: Covered(ranges + [r], n) <==> Covered(ranges, n) || Contains(r, n)
  {
    forall n
      ensures Covered(ranges + [r], n) <==> Covered(ranges, n) || Contains(r, n)
    {
      if Covered(ranges, n) {
        var k :| 0 <= k < |ranges| && Contains(ranges[k], n);
        assert (ranges + [r])[k] == ranges[k];
      }
      if Contains(r, n) {
        assert (ranges + [r])[|ranges|] == r;
      }
    }
  }

  /** `solve_part2`'s loops: passes repeat until one merges nothing; the
      answer, the total length of the merged ranges, is the number of
      distinct ids the input ranges cover. */
  method MergedSize(input: seq<ValidRange>) returns (res: int)
    ensures res == |CoveredIds(input)|
  {
    var ranges := input;
    while true
      invariant forall n :: Covered(ranges, n) <==> Covered(input, n)
      decreases |ranges|
    {
      var newRanges, mergeCount := MergePass(ranges);
      ranges := newRanges;
      if mergeCount == 0 {
        break;
      }
    }
    res := TotalLen(ranges);
    DisjointTotal(ranges);
    CoveredIdsSame(ranges, input);
  }

  /** `solve_part2`. */
  method SolvePart2(input: string) returns (r: Result<int, Error>)
    ensures r.Ok? <==> WellFormed(LineIterator(input))
    ensures r.Ok? ==> r.value == |CoveredIds(ParsedRanges(LineIterator(input)))|
  {
    var parsed := ParseInput(input);
    if parsed.Err? {
      return Err(parsed.error);
    }
    var total := MergedSize(parsed.value.0);
    r := Ok(total);
  }
}
