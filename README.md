# Advent of Code 2025 solutions, days 1 to 10, in Dafny

This project models the ten puzzle solutions of a Python Advent of Code 2025
repository (`solutions/day1.py` … `solutions/day10.py`) together with the
helpers they share in `common.py`: the eight grid directions with their
inverses and cardinal turns, the integer `Vector`, the row-list `Grid` and
its mutable `LGrid` variant, the marker scanner `GridSearch`, and
`line_iterator`. Every parse step, every loop and every error the Python
code can raise is modelled, except as listed under "Left out" below, and
each operation is proved against a specification of what it computes.

Layout, one module per file:

- `wrappers.dfy` (`Wrappers`): `Option`, `Result` and `Outcome` (success or error, no value), and `Collect`, which turns a list of results into a result of a list and models "raise on the first bad line".
- `text.dfy` (`Text`): the Python string built-ins the solutions use. These are `StringIO` line reading, `rstrip('\r\n')`, `str.split(sep)`, `str.split()`, `rstrip()`, `str(n)` and `int(s)`, each with its round-trip lemmas.
- `arith.dfy` (`Arith`): Python's floor division and `math.ceil` on integers.
- `sorting.dfy` (`Sorting`): `sorted(..., key=...)` and `heapq.nsmallest`, as a stable insertion sort.
- `common.dfy` (`Common`): `common.py`. `Grid`, `LGrid` and `GridSearch` are classes whose methods update their fields in place. `Direction` and `Vector` are datatypes.
- `day1.dfy` … `day10.dfy` (`Day1` … `Day10`): one module per solution file.

Errors become values. A Python `raise` becomes an `Err` of the module's
`Error` datatype (`RuntimeError`, `ValueError`, `KeyError`, `IndexError`,
`TypeError`, `OutOfBounds`, …), and every contract says when it happens.
Python's unbounded `int` is Dafny's `int`, so no wrap-around is involved.
Where a solution uses floating point on integers (`log10`, `sqrt`,
`math.ceil` of a quotient), the model uses the exact integer function that
the float expression approximates.

## Model

| member | source | states |
|---|---|---|
| Common.FirstOpposite | common.py:59-62 | the direction chosen from a list is in the list and its offset is the negation of the given direction's |
| Common.OppositeListed | common.py:53-62 | every direction has an opposite in `DIRECTIONS_ALL`, so the inverse table is defined for every direction |
| Common.ValueInjective | common.py:26-34 | two directions with the same offset are the same direction |
| Common.InverseProperties | common.py:36-38 | `inverse` negates the offset, applying it twice gives the direction back, no direction is its own inverse, and it keeps cardinality |
| Common.Turn | common.py:63-68 | a turn lookup succeeds exactly for a cardinal direction and the keys right, left and around; anything else is a `KeyError` |
| Common.TurnProperties | common.py:63-68 | for a cardinal direction, the three turns are cardinal, pairwise distinct and distinct from it; around is the inverse; turning left after right (and right after left, around after around) gives it back |
| Common.TurnsAre | common.py:63-68 | the turn table entries of a cardinal direction are found by `Turn`, their reverse turns lead back, and around is the inverse |
| Common.Vector.ManhattanDistance | common.py:85-87 | the Manhattan distance is never negative and is zero only for the zero vector |
| Common.MoveInIsScaledAdd | common.py:78-92 | `move_in(d, dist)` adds the direction's unit vector times dist; distance 0 stays put; `v + d` is a unit step |
| Common.MoveInCompose | common.py:82-83 | moving a then b in one direction is moving a + b |
| Common.MoveInNegative | common.py:82-83 | moving a negative distance is moving that distance in the inverse direction |
| Common.MoveInOpposite | common.py:82-83 | moving a negative distance in a direction is moving that distance in its opposite |
| Common.DirectionPlusInverse | common.py:36-38 | a direction's vector plus its inverse's is zero; a step there and back returns to the start |
| Common.VectorAlgebra | common.py:89-98 | `+` and `-` undo each other; the Manhattan distance obeys the triangle inequality and ignores sign |
| Common.Grid.constructor | common.py:114-116 | a new grid has no lines and width 0 |
| Common.Grid.AddLine | common.py:126-132 | a line is appended when the grid is empty (which sets the width) or when it has the grid's width; otherwise the grid is unchanged and the error is the width mismatch |
| Common.Grid.GetCell | common.py:134-140 | a cell is read exactly when the position is inside width × height, and gives the cell at row y, column x; otherwise `OutOfBounds` |
| Common.Grid.LookAround | common.py:142-146 | yields, in the order of the directions, each neighbour inside the grid with its cell |
| Common.Grid.NeighboursInOrder | common.py:142-146 | the k-th direction's neighbour, when inside the grid, sits right after those of the directions before it |
| Common.Grid.ScanRow | common.py:148-151 | a row scan fails only for a missing row of a non-empty-width grid; otherwise it yields each (x, y) and its cell, left to right |
| Common.Grid.ScanColumn | common.py:153-156 | a column scan fails only for a missing column of a grid with rows; otherwise it yields each (x, y) and its cell, top to bottom |
| Common.Grid.ScanAll | common.py:158-162 | the full scan has width × height items; cell (x, y) is at row-major index y·width + x |
| Common.RowMajorInjective | common.py:158-162 | two cells of the scan never share an index |
| Common.LGrid.constructor | common.py:166-169 | a new mutable grid is empty, over a fresh row list |
| Common.LGrid.AddLine | common.py:171-174 | adding a line to a mutable grid behaves as `Grid.add_line` |
| Common.LGrid.SetCell | common.py:176-181 | an in-bounds write changes exactly that cell and keeps the shape; out of bounds it is `OutOfBounds` and nothing changes |
| Common.LGrid.InsertRow | common.py:183-188 | a row is inserted at y when 0 ≤ y ≤ height and its length is the width; the index is checked first (`BadIndex`), then the width (`WidthMismatch`) |
| Common.LGrid.InsertColumn | common.py:190-197 | a column is inserted at x in every row when 0 ≤ x ≤ width and its length is the height; cells left of x stay, cells right of x shift by one; failures leave the grid unchanged |
| Common.Occurrences | common.py:207-217 | the positions of a character in a line, ascending, each holding it, and none missing |
| Common.Find | common.py:210-216 | `str.find` from a start index returns the first position at or after it holding the character, or -1 |
| Common.ReplaceAll | common.py:215 | every occurrence of the character is replaced and nothing else changes |
| Common.GridSearch.constructor | common.py:201-205 | a new scanner keeps its characters and maximum count and has no results |
| Common.GridSearch.Admitted | common.py:211-213 | the number of matches recorded before the maximum count is exceeded: all of them without a maximum; otherwise up to the maximum |
| Common.GridSearch.AdmitOne | common.py:211-213 | with maximum count 1, every match of a line is recorded exactly when at most one match has been seen overall |
| Common.GridSearch.SearchLine | common.py:207-217 | records the positions of the search character in order, up to the maximum count, and returns the line with all of them replaced; past the maximum it is `TooManyMatches` |
| Common.GridSearch.ScanStep | common.py:211-216 | one iteration of the search loop records the next occurrence, replaces it and finds the following one |
| Common.GridSearch.ScanStop | common.py:212-213 | the loop raises after recording exactly the admitted occurrences |
| Common.GridSearch.ScanDone | common.py:211-217 | when `find` returns -1 every occurrence is recorded and replaced |
| Common.GridSearch.SingleResult | common.py:219-222 | the single result exists exactly when one match was recorded, and is that match; otherwise `InvalidResultCount` |
| Text.StripLineEnd | common.py:19-20 | `rstrip('\r\n')` removes exactly the trailing carriage returns and newlines |
| Text.StreamLinesShape | common.py:18 | reading lines from a string gives none for the empty string, and every line but the last ends in its only newline |
| Text.StreamLinesConcat | common.py:18 | the lines read from a string concatenate back to the string |
| Text.LineIteratorClean | common.py:17-21 | no line yielded by `line_iterator` contains a newline |
| Text.LineIteratorIsSplit | common.py:17-21 | on text without carriage returns, the lines are the text split on newlines, minus the empty piece after a final newline |
| Text.LineIteratorOfJoin | common.py:17-21 | lines joined with newlines are given back by `line_iterator` |
| Text.SplitOn | solutions/day8.py:70 | `str.split(sep)` gives at least one piece and no piece contains the separator |
| Text.JoinSplitOn | solutions/day8.py:70 | joining the pieces of a split with the separator gives back the string |
| Text.SplitOnJoin | solutions/day8.py:70 | splitting pieces joined by a separator they do not contain gives back the pieces |
| Text.SplitWhitespace | solutions/day6.py:18 | `str.split()` gives non-empty words without whitespace, whitespace being every character `str.isspace()` accepts, Unicode spaces included |
| Text.SplitWhitespaceKeepsText | solutions/day6.py:18 | the words concatenate to the string's non-space characters |
| Text.SplitWhitespaceJoin | solutions/day6.py:18 | words joined by spaces split back into the same words |
| Text.RStrip | solutions/day6.py:26 | `rstrip()` removes exactly the trailing whitespace, with the same whitespace characters as `str.split()` |
| Text.ParseNat | solutions/day5.py:55 | a `\d+` group converts exactly when it is a non-empty string of ASCII digits |
| Text.ParseInt | solutions/day5.py:57 | `int(s)` accepts exactly an optional sign followed by digits, with the sign deciding the sign of the value |
| Text.NatToStringRoundTrip | solutions/day2.py:58 | `str(n)` is digits whose value is n, without a leading zero |
| Text.ParseIntOfIntString | solutions/day8.py:70 | `int(str(n)) == n` for every integer |
| Text.DecimalLengthBounds | solutions/day2.py:31 | the decimal length k of n satisfies 10^(k-1) ≤ n < 10^k, which is what `int(log10(n)) + 1` computes |
| Arith.CeilDiv | solutions/day1.py:54 | the ceiling of a / m is the least r with a ≤ m·r |
| Sorting.SortBy | solutions/day8.py:114-117 | `sorted(key=...)` returns a permutation of its input in ascending key order |
| Sorting.SmallestMeaning | solutions/day8.py:87-91 | `nsmallest(n)` takes min(n, size) elements in ascending key order, and no key left behind is smaller than one taken |
| Sorting.SmallestOfDistinct | solutions/day8.py:105-106 | from distinct elements the n smallest are distinct elements of the input, ascending, and none left behind is smaller |
| Day1.ParseRotation | solutions/day1.py:22-23 | a line is a rotation exactly when it starts with a character of the class `[R\|L]` followed by a digit; the distance is the longest digit prefix |
| Day1.ParseInput | solutions/day1.py:19-24 | the input parses exactly when every line does, into one rotation per line in order |
| Day1.ParseFormatRotation | solutions/day1.py:22-23 | a written rotation parses back to itself |
| Day1.ParseFormatInput | solutions/day1.py:19-24 | the lines of written rotations parse back to the rotations |
| Day1.RotateProperties | solutions/day1.py:27-32 | R adds the distance and L subtracts it, so each undoes the other; the `\|` direction the pattern lets through leaves the dial where it is |
| Day1.DialAfter | solutions/day1.py:36-39 | the dial position after a sequence of rotations is always in 0..99 |
| Day1.DialAfterSteps | solutions/day1.py:38-39 | each position is the previous one rotated, modulo 100 |
| Day1.SolvePart1 | solutions/day1.py:34-42 | the answer counts the rotations after which the dial points at 0 |
| Day1.RightFormula | solutions/day1.py:50-51 | for a right turn, `new_pos // 100` is the number of clicks that pass 0 |
| Day1.LeftFormula | solutions/day1.py:52-54 | for a left turn, `ceil((1 - new_pos) / 100) - (cur_pos == 0)` is the number of clicks that land on 0 |
| Day1.StepClicksCounts | solutions/day1.py:49-55 | each rotation adds exactly the clicks at 0 made while turning |
| Day1.SolvePart2 | solutions/day1.py:44-56 | the answer is the total number of clicks at 0 over all rotations |
| Day2.ISqrt | solutions/day2.py:16 | `int(sqrt(n))` is the r with r² ≤ n < (r+1)² |
| Day2.IterDivs | solutions/day2.py:13-21 | the proper divisors of n in ascending order; for n = 0 the removal of n raises `KeyError` |
| Day2.Ids | solutions/day2.py:36-37 | iterating a range gives min..max ascending, each once |
| Day2.DigitCount | solutions/day2.py:29-34 | the common decimal length of both bounds, or none when they differ; `log10(0)` fails for a zero bound |
| Day2.SameLengthBetween | solutions/day2.py:70-72 | every id between two bounds of one decimal length has that length, so the range's count is the id's own |
| Day2.RemoveAll | solutions/day2.py:42 | removing newlines leaves every other character and no newline |
| Day2.ParseRange | solutions/day2.py:45-46 | a piece parses exactly when it is two digit strings joined by `-` |
| Day2.ParseInput | solutions/day2.py:41-47 | the input parses exactly when every comma-separated piece does, into one range per piece; otherwise the match fails |
| Day2.ParsePieces | solutions/day2.py:44-46 | the loop over the pieces parses all of them exactly when each matches, one range per piece, and otherwise fails with the match error |
| Day2.ParseFormatRange | solutions/day2.py:45-46 | a written range parses back to itself |
| Day2.ParseFormatInput | solutions/day2.py:41-47 | written ranges joined by commas parse back to the ranges |
| Day2.InvalidP1Meaning | solutions/day2.py:49-54 | the part 1 test holds exactly when the id's decimal form is one block written twice |
| Day2.MatchBlocksFollows | solutions/day2.py:60-62 | the batches after the first all equal it exactly when the rest of the string repeats the first block |
| Day2.BatchesMatchPeriodic | solutions/day2.py:60-62 | with a block size dividing the length, all batches equal the first exactly when the string has that period |
| Day2.IsInvalidP2 | solutions/day2.py:56-64 | the part 2 test holds exactly when the id's decimal form is a block repeated at least twice; a zero digit count raises `KeyError` |
| Day2.DoubledIsRepeated | solutions/day2.py:49-64 | every id invalid in part 1 is invalid in part 2 |
| Day2.RangeDoubledSum | solutions/day2.py:69-73 | sums the ids of one range whose decimal form is doubled |
| Day2.RangeRepeatedSum | solutions/day2.py:79-83 | sums the ids of one range whose decimal form is repeated |
| Day2.SolvePart1 | solutions/day2.py:66-74 | the sum of all doubled ids of all ranges; fails exactly when a bound is 0 |
| Day2.SolvePart2 | solutions/day2.py:76-84 | the sum of all repeated ids of all ranges; fails with the `log10` domain error exactly when a bound is 0 |
| Day2.Part2AtLeastPart1 | solutions/day2.py:66-84 | the part 2 sum is never below the part 1 sum |
| Day3.LargestDigit | solutions/day3.py:18-24 | the largest digit at most mdv at or after min_index, at its leftmost position, or none when there is no such digit |
| Day3.LargestNum | solutions/day3.py:13-34 | returns the largest number formed by `digits` digits of the bank taken in order from min_index on, with its first digit at most mdv, and the index of its last digit; none exactly when no such choice exists |
| Day3.GreedyNone | solutions/day3.py:27-29 | when no first digit is left, no selection exists |
| Day3.GreedyLower | solutions/day3.py:30-33 | lowering mdv below a first digit that cannot be completed loses no selection |
| Day3.GreedyBest | solutions/day3.py:26-34 | the leftmost largest first digit followed by the best completion is the best selection |
| Day3.Dominated | solutions/day3.py:26-34 | no selection beats the greedy choice |
| Day3.SelValueBound | solutions/day3.py:34 | a value made of k digits is below 10^k |
| Day3.ParseBank | solutions/day3.py:9 | a line is a bank exactly when it is all digits, one value per character |
| Day3.ParseInput | solutions/day3.py:6-10 | the input parses exactly when every line is all digits, into one bank per line |
| Day3.ParseBankOfDigits | solutions/day3.py:9 | a written bank parses back to itself |
| Day3.SolveWith | solutions/day3.py:39-42 | sums, over all banks, the largest joltage with the given number of digits |
| Day3.SolvePart1 | solutions/day3.py:36-43 | the sum over banks of the largest two-digit joltage |
| Day3.SolvePart2 | solutions/day3.py:45-52 | the sum over banks of the largest twelve-digit joltage |
| Day4.BuildGrid | solutions/day4.py:9-11 | the lines form a grid exactly when they all have one width; otherwise the width mismatch |
| Day4.ParseInput | solutions/day4.py:8-12 | the input's lines become a fresh grid exactly when they have one width |
| Day4.NeighbourRolls | solutions/day4.py:20 | counting `@` among the in-grid neighbours counts the rolls around a position |
| Day4.RollsAround | solutions/day4.py:31 | the adjacent rolls are listed, one per neighbouring roll, none being the position itself |
| Day4.AccessibleCount | solutions/day4.py:16-22 | counts the rolls with fewer than four rolls around them |
| Day4.SolvePart1 | solutions/day4.py:14-23 | the number of accessible rolls of the input grid; fails exactly when rows differ in width |
| Day4.AllRollPositions | solutions/day4.py:28 | the work set holds exactly the roll positions |
| Day4.RemoveCounts | solutions/day4.py:33-34 | removing a roll lowers the roll count by one |
| Day4.RemovalStep | solutions/day4.py:29-35 | after a removal, the work set still holds every roll that might have become accessible |
| Day4.KeepsStableStep | solutions/day4.py:32-33 | removing an accessible roll never removes a roll of a stable sub-grid |
| Day4.PeeledUnique | solutions/day4.py:29-35 | the final grid does not depend on the order in which `set.pop` hands out positions |
| Day4.AccessibleRemoved | solutions/day4.py:25-36 | every roll accessible at the start is gone at the end |
| Day4.RemoveAccessible | solutions/day4.py:27-35 | the loop ends with the largest stable grid of remaining rolls, and the count is the number of rolls removed |
| Day4.SolvePart2 | solutions/day4.py:25-36 | the answer is the number of rolls removed to reach the largest stable grid |
| Day5.NewRange | solutions/day5.py:15-19 | a range is built exactly when low ≤ high; otherwise `RuntimeError` |
| Day5.OverlapsMeaning | solutions/day5.py:21-25 | two ranges overlap exactly when they share an id; the test is symmetric |
| Day5.Combine | solutions/day5.py:27-30 | overlapping ranges combine into the range from the lower low to the higher high; others give none |
| Day5.CombineIds | solutions/day5.py:27-30 | the combined range holds exactly the ids of the two ranges |
| Day5.IntersectWith | solutions/day5.py:32-33 | the intersection holds exactly the shared ids; disjoint ranges raise `RuntimeError` |
| Day5.Iter | solutions/day5.py:35-36 | iterating a range gives its ids ascending, each once |
| Day5.IdsSize | solutions/day5.py:41-42 | `len` of a range is the number of ids it holds |
| Day5.Len | solutions/day5.py:41-42 | a range holds at least one id |
| Day5.ParseRangeLine | solutions/day5.py:54-55 | a range line parses exactly when it is two digit strings joined by `-` with the first not larger |
| Day5.ParseFormatRange | solutions/day5.py:54-55 | a written range parses back to itself, or raises `RuntimeError` when its bounds are reversed |
| Day5.FirstBlank | solutions/day5.py:51-53 | the first loop stops at the first empty line |
| Day5.ReadRanges | solutions/day5.py:51-55 | the lines before the first empty line are read as ranges, failing at the first bad one |
| Day5.ReadAvailable | solutions/day5.py:56-57 | the lines after it are read as integers, failing with `ValueError` on the first bad one |
| Day5.ParseLines | solutions/day5.py:47-58 | the input parses exactly when both sections do, into the ranges and the ids in order |
| Day5.ParseInput | solutions/day5.py:47-58 | `parse_input` on the input's lines succeeds exactly when they are well formed, giving the ranges and the available ids |
| Day5.CountFresh | solutions/day5.py:62-67 | counts the available ids (with repeats) that some range contains |
| Day5.SolvePart1 | solutions/day5.py:60-68 | the number of available ids that lie in some range |
| Day5.MergeInto | solutions/day5.py:77-87 | when some list range overlaps the range, the list keeps its length and covers exactly its own ids plus the range's; when none does, the list is unchanged |
| Day5.MergePass | solutions/day5.py:74-88 | one pass keeps the covered ids, shortens the list by its merge count, and a pass without merges means no two ranges overlap |
| Day5.DisjointTotal | solutions/day5.py:92 | for pairwise disjoint ranges the sum of lengths is the number of covered ids |
| Day5.MergedSize | solutions/day5.py:73-92 | the final sum is the number of ids covered by the input ranges |
| Day5.SolvePart2 | solutions/day5.py:70-93 | the number of distinct fresh ids covered by the ranges |
| Day6.Evaluate | solutions/day6.py:49-54 | `+` sums the numbers; `*` multiplies them, failing with `TypeError` on an empty list; any other operator is `ValueError` |
| Day6.TotalOfFails | solutions/day6.py:46-55 | the total fails exactly when some problem does, with the first failing problem's error |
| Day6.TotalOfConcat | solutions/day6.py:46-55 | the total of two lists of problems is the sum of their totals |
| Day6.SolveAll | solutions/day6.py:46-55 | the loop computes the total of all problems, or the first error |
| Day6.ColumnNums | solutions/day6.py:21 | a column's numbers convert exactly when each token does |
| Day6.ColumnProblems | solutions/day6.py:20-21 | each column becomes a problem with the last row's operator and the numbers above it |
| Day6.ParseInputPart1 | solutions/day6.py:17-22 | the non-blank lines split into words parse exactly when they have one width and every number converts; the problems are the columns |
| Day6.ParseWorksheet | solutions/day6.py:17-22 | a worksheet written from problems, one column per problem, parses back to those problems |
| Day6.StrippedLines | solutions/day6.py:26 | the kept lines are right-stripped and non-empty |
| Day6.MaxLength | solutions/day6.py:27 | the line length is the longest line's |
| Day6.PadRight | solutions/day6.py:29 | `ljust` keeps the line and pads it with spaces to the length |
| Day6.PadLines | solutions/day6.py:28-29 | every line is padded to the length |
| Day6.ColumnTextShape | solutions/day6.py:40 | a column's text has at most one character per line and no spaces |
| Day6.NumbersMeaning | solutions/day6.py:40 | a problem's numbers are the columns from its left edge to the previous problem's, read right to left; they exist exactly when each column converts |
| Day6.OpColumnsMeaning | solutions/day6.py:34-36 | the operator columns are exactly the non-space columns of the last line, right to left |
| Day6.ReadFromProblems | solutions/day6.py:34-42 | each problem carries its column's operator, `+` or `*`, and the numbers of the columns it spans |
| Day6.ReadFromFails | solutions/day6.py:38-40 | reading fails, with `ValueError`, exactly when some operator is not `+` or `*` or some column's number does not convert |
| Day6.ReadColumns | solutions/day6.py:33-43 | the column loop computes the problems read from the right edge |
| Day6.ReadLines | solutions/day6.py:25-43 | part 2 parsing computes the problems read from the stripped, padded lines, or the error |
| Day6.ParseInputPart2 | solutions/day6.py:25-43 | part 2 reads the stripped, padded lines column by column; no line is `max` of nothing, a `ValueError` |
| Day6.ReadSheetError | solutions/day6.py:25-43 | every failure of part 2 parsing is a `ValueError` |
| Day6.SolvePart1 | solutions/day6.py:57-59 | the total of the part 1 problems, or the parse error |
| Day6.SolvePart2 | solutions/day6.py:61-63 | the total of the part 2 problems, or the parse error |
| Day7.IndexOf | solutions/day7.py:25 | the position of the beam at a location, or -1 exactly when there is none |
| Day7.AddBeamSums | solutions/day7.py:24-29 | adding a beam raises the strength at its location by its strength and the total by the same amount |
| Day7.AddBeamEntries | solutions/day7.py:24-29 | adding a beam keeps one entry per location, keeps the others in place, and leaves an entry at the location |
| Day7.KeyedStrength | solutions/day7.py:24-29 | the strength at a location is the strength of its entry, or 0 without one |
| Day7.BeamDict.constructor | solutions/day7.py:35 | a new beam dictionary is empty and keeps one entry per location |
| Day7.BeamDict.AddBeam | solutions/day7.py:24-29 | `add_beam` updates the dictionary as the beam-adding function does and keeps one entry per location |
| Day7.AdvanceCounts | solutions/day7.py:36-42 | a beam falling below the grid raises `OutOfBounds`; on `^` it counts a split and sends its strength left and right, on `.` it goes on down |
| Day7.StepFails | solutions/day7.py:32-43 | a step fails exactly when some beam falls out of the grid |
| Day7.StepCounts | solutions/day7.py:32-43 | a step counts the beams landing on a splitter; the total strength is the strength landing on `.` plus twice that landing on `^` |
| Day7.StepStrength | solutions/day7.py:32-43 | after a step, the strength at each location is the sum of what flows into it |
| Day7.StepShape | solutions/day7.py:32-43 | a step keeps one beam per location, keeps strengths positive, and moves beams one row down |
| Day7.SimulateStep | solutions/day7.py:32-43 | `simulate_step` returns the new beams and the split count of one step, or `OutOfBounds` |
| Day7.RunShape | solutions/day7.py:49-51 | after t steps every beam is on row start + t, one per location, with positive strength |
| Day7.RunFailsSideways | solutions/day7.py:49-51 | a run inside the grid can only fail through a beam that splits off the side |
| Day7.Simulate | solutions/day7.py:47-51 | the loop runs one step per row from the start's row to the last row but one |
| Day7.ScanOk | solutions/day7.py:15-21 | scanning the lines succeeds exactly when they have one width and hold at most one `S` |
| Day7.ScanErrors | solutions/day7.py:17-20 | a scan fails with `TooManyMatches` or the width mismatch; lines of one width fail only with `TooManyMatches` |
| Day7.ScanSound | solutions/day7.py:17-19 | every recorded marker is an `S` of the lines |
| Day7.ScanComplete | solutions/day7.py:17-19 | every `S` of the lines is recorded |
| Day7.ParseOk | solutions/day7.py:15-21 | parsing succeeds exactly for lines of one width with exactly one `S`; no `S` is `InvalidResultCount` and several are `TooManyMatches` |
| Day7.ParseStart | solutions/day7.py:15-21 | the start is the one position holding `S` |
| Day7.ParseGrid | solutions/day7.py:17-20 | the grid is the lines with the `S` replaced by `.` |
| Day7.BuildStart | solutions/day7.py:15-21 | the grid-building loop returns that grid and start, or the scan's error |
| Day7.FeedLine | solutions/day7.py:18-20 | one line is searched, then added to the grid, extending both as the scan does |
| Day7.SearchStart | solutions/day7.py:19 | the search of one line records its `S`s and clears them, or raises `TooManyMatches` past one |
| Day7.ParseInput | solutions/day7.py:15-21 | `parse_input` returns the grid and start parsed from the input's lines, or the error |
| Day7.BeamedShape | solutions/day7.py:54-59 | the final beams sit on the last row (or on the start's row when that is the last), one per location, with positive strengths adding up to at least their number |
| Day7.SolvePart1 | solutions/day7.py:45-52 | the number of splits over the whole run, or the error |
| Day7.SolvePart2 | solutions/day7.py:54-59 | the total strength of the final beams, or the error |
| Day8.Vector3D.Sub | solutions/day8.py:31-32 | subtracting then adding the same vector gives the vector back |
| Day8.Vector3D.Manhattan | solutions/day8.py:16-18 | the Manhattan distance is never negative and zero only for the zero vector |
| Day8.Vector3D.DistSquare | solutions/day8.py:20-22 | the squared distance is never negative and zero only for the zero vector |
| Day8.DistanceSymmetric | solutions/day8.py:75-77 | the squared distance between two boxes is symmetric and zero only for the same box |
| Day8.ParseBox | solutions/day8.py:70-71 | every failure to read a box is a `ValueError` |
| Day8.ParseFormatBox | solutions/day8.py:70-71 | a written box parses back to itself |
| Day8.ParseAllMeaning | solutions/day8.py:67-72 | the lines parse exactly when each does, into one box per line in order |
| Day8.ParseLines | solutions/day8.py:69-71 | the loop computes the parsed lines or the first error |
| Day8.ParseInput | solutions/day8.py:67-72 | `parse_input` on the input's lines |
| Day8.ParseFormatInput | solutions/day8.py:67-72 | written boxes, one per line, parse back to the boxes |
| Day8.IndexPairs | solutions/day8.py:76 | every pair (i, j) drawn has i < j, both in range |
| Day8.IndexPairsCount | solutions/day8.py:76 | n boxes give n(n-1)/2 pairs |
| Day8.IndexPairsComplete | solutions/day8.py:76 | every pair i < j is drawn |
| Day8.IndexPairsOrdered | solutions/day8.py:76 | the pairs come in lexicographic order, as `combinations` yields them |
| Day8.PairDistancesMeaning | solutions/day8.py:74-77 | one entry per pair of positions, each holding both boxes and their squared distance, without repeats |
| Day8.SortedPairs | solutions/day8.py:114-117 | the sorted pairs are pairs of the input's boxes |
| Day8.SingletonsPartition | solutions/day8.py:94 | at the start each box is its own circuit, and the circuits partition the boxes |
| Day8.Singletons | solutions/day8.py:94 | the starting circuits have one entry per box |
| Day8.Connect | solutions/day8.py:95-102 | connecting two boxes keeps the set of boxes |
| Day8.ConnectAll | solutions/day8.py:95-102 | connecting a list of pairs keeps the set of boxes |
| Day8.ConnectMeaning | solutions/day8.py:95-102 | connecting two boxes gives both the union of their circuits, leaves other circuits alone and keeps a partition |
| Day8.ConnectKeepsJoined | solutions/day8.py:98-99 | boxes in one circuit stay in one circuit |
| Day8.ConnectAllMeaning | solutions/day8.py:95-102 | after the connection loop the circuits still partition the boxes and both boxes of every pair share a circuit |
| Day8.Rewire | solutions/day8.py:101-102 | the relabelling loop points every box of the new circuit at it |
| Day8.Closest | solutions/day8.py:84-91 | the chosen pairs are pairs of the input's boxes |
| Day8.ConnectPairs | solutions/day8.py:94-102 | the loop connects the pairs in order, starting from single-box circuits |
| Day8.DistinctClasses | solutions/day8.py:105 | the distinct circuits, each once |
| Day8.ClassesAreValues | solutions/day8.py:105 | the distinct circuits are exactly the values of the dictionary |
| Day8.TopThree | solutions/day8.py:105-106 | the first three by size are distinct circuits, largest first, and none left out is larger |
| Day8.Part1Joined | solutions/day8.py:94-102 | after connecting the closest pairs the circuits partition the boxes and join every chosen pair |
| Day8.Part1Meaning | solutions/day8.py:104-106 | the circuits multiplied are the (up to) three largest distinct circuits |
| Day8.SolvePart1 | solutions/day8.py:79-108 | the product of the sizes of the three largest circuits, or the parse error |
| Day8.StateStep | solutions/day8.py:123-133 | the circuits after k + 1 connections are those after k with the k-th pair connected |
| Day8.FirstFull | solutions/day8.py:123-131 | the first connection whose circuits together hold all boxes, with no earlier one doing so |
| Day8.SearchStep | solutions/day8.py:123-133 | one iteration of the connection loop either stops at a covering pair or connects it and goes on |
| Day8.StaysSmall | solutions/day8.py:126-133 | before the stop every circuit is smaller than the number of boxes |
| Day8.Part2Found | solutions/day8.py:134-135 | the search finds a last connection exactly when there are at least two boxes, all distinct |
| Day8.FoundNeedsDistinct | solutions/day8.py:123-135 | if a last connection is found there are at least two boxes and they are distinct |
| Day8.DistinctIsFound | solutions/day8.py:123-135 | with at least two distinct boxes a last connection is always found |
| Day8.AllJoined | solutions/day8.py:123-135 | connecting every pair joins all boxes into one circuit |
| Day8.Part2Meaning | solutions/day8.py:128-131 | the last connection joins two circuits that together hold every box |
| Day8.FindLastConnection | solutions/day8.py:119-137 | the loop finds that connection and returns the product of its boxes' x coordinates |
| Day8.SolvePart2 | solutions/day8.py:110-137 | the product for the last connection, the parse error, or `RuntimeError` |
| Day9.ParseTile | solutions/day9.py:13-14 | every failure to read a tile is a `ValueError` |
| Day9.ParseFormatTile | solutions/day9.py:13-14 | a written tile parses back to itself |
| Day9.ParseAllMeaning | solutions/day9.py:10-15 | the lines parse exactly when each does, into one tile per line in order |
| Day9.ParseFormatLines | solutions/day9.py:10-15 | written tiles parse back to the tiles |
| Day9.ParseLines | solutions/day9.py:12-14 | the loop computes the parsed lines or the first error |
| Day9.ParseInput | solutions/day9.py:10-15 | `parse_input` on the input's lines |
| Day9.SegmentDirection | solutions/day9.py:43-50 | two tiles give a direction exactly when they differ and share a row or column; it is cardinal and moving the distance between them gets from one to the other |
| Day9.WalkSegment | solutions/day9.py:51-56 | the inner loop yields one item per cell from the first tile up to the second, plus the second when `last_step` |
| Day9.SegmentMeaning | solutions/day9.py:51-56 | a segment starts at the first tile, keeps its direction, moves one cell per item and ends at (or next to) the second tile |
| Day9.SegmentCorners | solutions/day9.py:53-56 | an item is marked as a corner exactly when it is at one of the two red tiles |
| Day9.Pairs | solutions/day9.py:41 | one pair per red tile: it and the next, the last with the first |
| Day9.WalkRedGreenTiles | solutions/day9.py:39-56 | the walk yields the segments between consecutive red tiles in order, or the first error |
| Day9.SegmentsSucceed | solutions/day9.py:43-50 | the segment from a tile fails exactly when the next tile is equal or not in line with it |
| Day9.WalkSucceeds | solutions/day9.py:40-50 | the walk succeeds exactly for a non-empty list whose consecutive tiles are distinct and in line; an empty list is an `IndexError`, otherwise a `RuntimeError` |
| Day9.ConcatChained | solutions/day9.py:41-56 | joined segments between chained tiles form one path of unit steps |
| Day9.WalkClosed | solutions/day9.py:41-56 | without `last_step` the walk is a closed path of unit steps from the first red tile back to it |
| Day9.FillingSkip | solutions/day9.py:65-66 | popping a position that is blocked keeps the fill invariant |
| Day9.FillingFill | solutions/day9.py:67-68 | writing the fill character and pushing the four neighbours keeps the fill invariant |
| Day9.FillsStep | solutions/day9.py:67 | the fill only ever writes the fill character, at in-grid positions that were not blocked |
| Day9.UnfilledSet | solutions/day9.py:67 | each write lowers the number of unfilled overlay cells, so the fill ends |
| Day9.EdgeWitness | solutions/day9.py:63-64 | a position off the grid next to a filled cell shows a filled cell at the grid's edge |
| Day9.FillArea | solutions/day9.py:58-69 | the flood fill writes only the fill character; True means the start is blocked and every filled cell is enclosed; False means the start is off the grid or the fill reached the grid's edge; `OutOfBounds` only when the overlay is smaller than the grid |
| Day9.IsRectangleFilled | solutions/day9.py:71-78 | True exactly when every cell of the box holds the fill character; False at the first cell (row by row) that does not; `OutOfBounds` at the first cell outside the grid |
| Day10.ParseLights | solutions/day10.py:25 | a lights token is `[` then `#` and `.` then `]`, and each light is on exactly where the token has `#` |
| Day10.ParseNats | solutions/day10.py:27 | a list of numbers converts exactly when every piece does, piece by piece |
| Day10.ParseButtons | solutions/day10.py:26 | the buttons convert exactly when every parenthesised list does, one button per list |
| Day10.ParseMachine | solutions/day10.py:24-31 | a parsed machine has at least one button and as many lights as joltage values; a failure is the `TypeError` of a failed match or the `RuntimeError` of a length mismatch |
| Day10.ParseFormatMachine | solutions/day10.py:24-31 | a written machine parses back to itself, or is the `RuntimeError` when lights and joltage differ in number |
| Day10.ParseAllMeaning | solutions/day10.py:20-32 | the lines parse exactly when each does, into one machine per line; an error is some line's error |
| Day10.ParseLines | solutions/day10.py:23-31 | the loop computes the parsed lines or the first error |
| Day10.ParseInput | solutions/day10.py:20-32 | `parse_input` on the input's lines |
| Day10.CheckLights | solutions/day10.py:34-40 | every light index of every press is in range exactly when the result exists; a light is on exactly when the presses toggle it an odd number of times; otherwise `IndexError` |
| Day10.FlipLights | solutions/day10.py:38-39 | one press flips exactly the lights it names, each once per mention |
| Day10.CountAppend | solutions/day10.py:37-39 | toggles of two press sequences add up |
| Day10.ToggledAppend | solutions/day10.py:34-40 | the lights after two press sequences are the exclusive or of the lights after each |
| Day10.PressTwice | solutions/day10.py:34-40 | pressing a button twice more changes nothing |
| Day10.CombinationsSound | solutions/day10.py:49 | every sequence enumerated has the requested length and non-decreasing button indices |
| Day10.CombinationsComplete | solutions/day10.py:49 | every non-decreasing sequence of that length is enumerated |
| Day10.OutOfRange | solutions/day10.py:39 | a press naming a missing light means some button names a missing light |
| Day10.TryLength | solutions/day10.py:49-53 | True exactly when some sequence of that length lights the machine's pattern; an `IndexError` comes from a button naming a missing light, and a machine with such a button never gives False for a length of one or more |
| Day10.FewestPresses | solutions/day10.py:46-54 | the least number of presses that lights the pattern, or the `IndexError` of a bad button; it stops for every machine that can be solved or has a bad button |
| Day10.SumFewest | solutions/day10.py:44-55 | the sum over machines of their fewest presses, or the `IndexError` of a bad button, for machines whose searches each stop |
| Day10.SolvePart1 | solutions/day10.py:42-55 | the sum of fewest presses over the parsed machines, the parse error, or the `IndexError`, for inputs whose machines' searches each stop |
| Day10.BadButtonCaught | solutions/day10.py:38-39 | pressing a bad button k ≥ 1 times is one of the enumerated candidates and raises, so a search of that length cannot end without a match or an error |

## Left out

- main.py, the `Day` base class, `str()` of the answers and all file and console I/O are not part of this model. Each solution is modelled from its parsed input, or from the input string as a parameter.
- Common: Python raises `RuntimeError` for several different grid failures; the model names each by its cause (`WidthMismatch`, `HeightMismatch`, `OutOfBounds`, `BadIndex`, `TooManyMatches`, `InvalidResultCount`). `Vector.__repr__`, `__eq__` and `__hash__` are covered by datatype equality. `Direction.only_vertical`, `only_horizontal` and `is_cardinal` are predicates used by the lemmas above.
- Common.Grid.LookAround, Common.Grid.ScanRow, Common.Grid.ScanColumn and Common.Grid.ScanAll return their whole output as a sequence instead of yielding lazily.
- Common.LGrid.AddLine: the `__setitem__` check is always satisfied because rows are sequences; a row is updated in place by reassigning it.
- `Common.LGrid` holds its `Grid` as a field instead of subclassing it.
- Text.LineIterator: the `strip_newline=False` mode is never used by the solutions and is not modelled.
- Text.ParseInt: Python's `int()` also accepts surrounding whitespace and `_` digit separators; the model accepts a plain optional sign and digits only.
- Text.IsDigit, Text.ParseNat and Text.ParseInt: Python's `\d` and `int()` also accept the non-ASCII Unicode decimal digits (Arabic-Indic, Devanagari and the like); the model accepts only '0' to '9', so a line using such digits fails to parse here where Python parses it. The regex patterns of days 1, 2, 5 and 10 share this gap.
- Day1.ParseRotation: `re.match` is modelled as a direction character followed by the longest run of digits. A line that does not match makes the subscript of `None` raise; the model reports it as `None`.
- Day2.DigitCount, Day2.SolvePart1 and Day2.SolvePart2: `int(log10(n)) + 1` is modelled as the exact decimal length. For ids beyond about 10^15, float rounding can make Python's value differ.
- Day2.ISqrt: `int(sqrt(n))` is modelled as the exact integer square root, which float rounding can miss for very large n.
- Day2.IterDivs: the `@cache` memoisation does not change results and is left out.
- Day3.LargestNum: the optional arguments' defaults are passed explicitly.
- Day4.RemoveAccessible: `set.pop` picks an arbitrary element; the model lets any element be picked and proves the result does not depend on the choice.
- Day6.ParseInputPart1: `zip(*lines, strict=True)` is modelled as a check that all rows have one width (`ValueError` otherwise).
- Day7: `Beam` objects are modelled as values. The dictionary of beams is an insertion-ordered sequence of entries, one per location, and `b.strength += s` rewrites that entry.
- Day8: `euclidean_dist` is floating point and is not used by the solutions, so it is left out. `__repr__`, `__eq__` and `__hash__` are covered by datatype equality, and `__add__` appears only in the inverse law of `Sub`.
- Day8.SortedPairs and Day8.Closest: `sorted` and `heapq.nsmallest` are modelled by a stable insertion sort. The ordering of pairs with equal distances is that stable order; only sortedness and permutation are proved about it.
- Day8: `JuncBoxCircuit` objects compared by identity are modelled as box sets compared by equality. Because the circuits always partition the boxes, the two comparisons agree.
- Day8.DistinctClasses: the iteration order of `set(circuits.values())` is unspecified in Python. The model lists the circuits in the order of the boxes, and only the choice of the three largest sizes matters.
- Day9: `find_largest_rectangle`, `solve_part1` and `solve_part2` call `Vector.area`, `LGrid.create` and `LGrid.merge_overlay`, which `common.py` does not define, so they cannot run and are not modelled.
- Day9.WalkRedGreenTiles: the `print` of each pair is left out. The generator is modelled as the list of everything it yields, or the error it raises; items yielded before a later segment's error are not modelled.
- Day9.FillArea: requires that the overlay is not the grid itself (no aliasing). The `deque` is modelled as a sequence popped from the end.
- Day10.ParseMachine: `line_regex.fullmatch` is modelled as a parser of the space-separated tokens `[lights]`, `(buttons)…` and `{joltage}`. A line the pattern rejects becomes `TypeError`, the subscript of `None`.
- Day10.FewestPresses, Day10.SumFewest and Day10.SolvePart1: when every button of a machine names only existing lights and no sequence of presses lights its pattern, the source searches forever. These members require each machine's search to stop (`SearchStops`: the machine can be solved, or it has a bad button, which raises `IndexError` by length 1), a ghost condition. Day10.SumFewest and Day10.SolvePart1 ask this of every machine, although the source never reaches the machines after the first one that raises.
- Day10: `solve_part2` is a stub that returns `None`, and the parsed joltage values are not used by part 1; neither is modelled beyond parsing.
