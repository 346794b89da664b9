/** Day 6: a worksheet of arithmetic problems laid out in columns. The last
    non-blank line holds the operators; the lines above it hold the numbers.
    Part 1 reads each whitespace-separated column as one problem; part 2
    reads the numbers column by column, right to left, one digit per line. */
module Day6 {
  import opened Wrappers
  import opened Text

  /** `MathProblem`: an operator token and its operands. Part 1 keeps the
      operator token as written, so it may be any token. */
  datatype MathProblem = MathProblem(operator: string, nums: seq<int>)

  /** `ValueError` from `int`, `zip(strict=True)`, `max` of nothing or a bad
      operator; `TypeError` from `reduce` over no operands. */
  datatype Error = ValueError | TypeError

  // =============================================================== solve_all

  function Sum(ns: seq<int>): int
  {
    if |ns| == 0 then 0 else Sum(ns[..|ns| - 1]) + ns[|ns| - 1]
  }

  /** `reduce(operator.mul, ns)`: the first operand times the others, in
      order; there is no starting value, so it needs an operand. */
  function Product(ns: seq<int>): int
    requires |ns| >= 1
  {
    if |ns| == 1 then ns[0] else Product(ns[..|ns| - 1]) * ns[|ns| - 1]
  }

  /** The value one problem adds to the result in `solve_all`. */
  function Evaluate(p: MathProblem): (r: Result<int, Error>)
    ensures r.Err? <==> p.operator != "+" && (p.operator != "*" || |p.nums| == 0)
    ensures r.Err? ==> (r.error == TypeError <==> p.operator == "*")
    ensures r.Ok? && p.operator == "+" ==> r.value == Sum(p.nums)
    ensures r.Ok? && p.operator == "*" ==> r.value == Product(p.nums)
  {
    if p.operator == "+" then Ok(Sum(p.nums))
    else if p.operator == "*" then
      if |p.nums| == 0 then Err(TypeError) else Ok(Product(p.nums))
    else Err(ValueError)
  }

  /** The result of `solve_all`: the problems evaluated in order, stopping at
      the first one that raises. */
  function TotalOf(problems: seq<MathProblem>): Result<int, Error>
  {
    if |problems| == 0 then Ok(0)
    else
      match TotalOf(problems[..|problems| - 1])
      case Err(e) => Err(e)
      case Ok(t) =>
        match Evaluate(problems[|problems| - 1])
        case Err(e) => Err(e)
        case Ok(v) => Ok(t + v)
  }

  /** `solve_all` fails exactly when some problem cannot be evaluated, and
      then with the error of the first such problem. */
  lemma {:induction false} TotalOfFails(problems: seq<MathProblem>)
    ensures TotalOf(problems).Err? <==> exists i :: 0 <= i < |problems| && Evaluate(problems[i]).Err?
    ensures TotalOf(problems).Err? ==>
              exists i :: 0 <= i < |problems| && Evaluate(problems[i]).Err? &&
                (forall j :: 0 <= j < i ==> Evaluate(problems[j]).Ok?) &&
                TotalOf(problems).error == Evaluate(problems[i]).error
  {
    if |problems| > 0 {
      var init := problems[..|problems| - 1];
      TotalOfFails(init);
      if TotalOf(init).Err? {
        var i :| 0 <= i < |init| && Evaluate(init[i]).Err? &&
                 (forall j :: 0 <= j < i ==> Evaluate(init[j]).Ok?) &&
                 TotalOf(init).error == Evaluate(init[i]).error;
        assert problems[i] == init[i];
        assert forall j :: 0 <= j < i ==> problems[j] == init[j];
      } else {
        assert forall j :: 0 <= j < |init| ==> Evaluate(problems[j]).Ok? by {
          forall j | 0 <= j < |init|
            ensures Evaluate(problems[j]).Ok?
          {
            assert problems[j] == init[j];
          }
        }
      }
    }
  }

  /** The result over two lists of problems is the sum of their results. */
  lemma {:induction false} TotalOfConcat(a: seq<MathProblem>, b: seq<MathProblem>)
    ensures TotalOf(a + b).Ok? <==> TotalOf(a).Ok? && TotalOf(b).Ok?
    ensures TotalOf(a + b).Ok? ==> TotalOf(a + b).value == TotalOf(a).value + TotalOf(b).value
    decreases |b|
  {
    if |b| == 0 {
      assert a + b == a;
    } else {
      var b' := b[..|b| - 1];
      assert (a + b)[..|a + b| - 1] == a + b';
      assert (a + b)[|a + b| - 1] == b[|b| - 1];
      TotalOfConcat(a, b');
    }
  }

  /** A problem that raises after earlier ones that do not is the error of
      the whole result. */
  lemma {:induction false} TotalOfFailsAt(problems: seq<MathProblem>, i: nat)
    requires i < |problems| && TotalOf(problems[..i]).Ok? && Evaluate(problems[i]).Err?
    ensures TotalOf(problems) == Err(Evaluate(problems[i]).error)
    decreases |problems|
  {
    var init := problems[..|problems| - 1];
    if i < |init| {
      assert init[..i] == problems[..i];
      assert init[i] == problems[i];
      TotalOfFailsAt(init, i);
    } else {
      assert init == problems[..i];
    }
  }

  /** `solve_all`. */
  method SolveAll(problems: seq<MathProblem>) returns (r: Result<int, Error>)
    ensures r == TotalOf(problems)
  {
    var result := 0;
    for i := 0 to |problems|
      invariant TotalOf(problems[..i]) == Ok(result)
    {
      assert problems[..i + 1][..i] == problems[..i];
      var problem := problems[i];
      if problem.operator == "+" {
        result := result + Sum(problem.nums);
      } else if problem.operator == "*" {
        if |problem.nums| == 0 {
          TotalOfFailsAt(problems, i);
          return Err(TypeError);
        }
        result := result + Product(problem.nums);
      } else {
        TotalOfFailsAt(problems, i);
        return Err(ValueError);
      }
    }
    assert problems[..|problems|] == problems;
    r := Ok(result);
  }

  // ======================================================= parse_input_part1

  predicate Blank(line: string)
  {
    forall i :: 0 <= i < |line| ==> IsSpace(line[i])
  }

  /** The token rows of `parse_input_part1`: `line.split()` of every line
      that is not blank, in order. */
  function TokenRows(lines: seq<string>): (r: seq<seq<string>>)
    ensures |r| <= |lines|
  {
    if |lines| == 0 then []
    else TokenRows(lines[..|lines| - 1]) +
         (if Blank(lines[|lines| - 1]) then [] else [SplitWhitespace(lines[|lines| - 1])])
  }

  /** `zip(strict=True)` accepts the rows: all have the same token count. */
  predicate SameWidth(rows: seq<seq<string>>)
  {
    forall i :: 0 <= i < |rows| ==> |rows[i]| == |rows[0]|
  }

  /** `int(n)` for the tokens of column `k` in the first `n` rows. */
  function ColumnNums(rows: seq<seq<string>>, k: nat, n: nat): (r: Option<seq<int>>)
    requires n <= |rows| && forall i :: 0 <= i < |rows| ==> k < |rows[i]|
    ensures r.Some? <==> forall j :: 0 <= j < n ==> ParseInt(rows[j][k]).Some?
    ensures r.Some? ==> |r.value| == n && forall j :: 0 <= j < n ==> r.value[j] == ParseInt(rows[j][k]).value
  {
    if n == 0 then Some([])
    else
      match ColumnNums(rows, k, n - 1)
      case None => None
      case Some(ns) =>
        match ParseInt(rows[n - 1][k])
        case None => None
        case Some(v) => Some(ns + [v])
  }

  /** The problems of the first `m` columns: the last row's token is the
      operator, the tokens above it are the operands. */
  function ColumnProblems(rows: seq<seq<string>>, m: nat): (r: Option<seq<MathProblem>>)
    requires |rows| >= 1 && SameWidth(rows) && m <= |rows[0]|
    ensures r.Some? <==> forall k, j :: 0 <= k < m && 0 <= j < |rows| - 1 ==> ParseInt(rows[j][k]).Some?
    ensures r.Some? ==> |r.value| == m && forall k :: 0 <= k < m ==>
              r.value[k].operator == rows[|rows| - 1][k] && |r.value[k].nums| == |rows| - 1 &&
              forall j :: 0 <= j < |rows| - 1 ==> r.value[k].nums[j] == ParseInt(rows[j][k]).value
  {
    if m == 0 then Some([])
    else
      match ColumnProblems(rows, m - 1)
      case None => None
      case Some(ps) =>
        ColumnInRows(rows, m - 1);
        match ColumnNums(rows, m - 1, |rows| - 1)
        case None => None
        case Some(ns) => Some(ps + [MathProblem(rows[|rows| - 1][m - 1], ns)])
  }

  lemma ColumnInRows(rows: seq<seq<string>>, k: nat)
    requires |rows| >= 1 && SameWidth(rows) && k < |rows[0]|
    ensures forall i :: 0 <= i < |rows| ==> k < |rows[i]|
  {
  }

  /** `parse_input_part1`: a `ValueError` when the rows differ in length or
      an operand is not an integer; no rows, no problems. */
  function ParseInputPart1(input: string): (r: Result<seq<MathProblem>, Error>)
    ensures r.Err? ==> r.error == ValueError
    ensures var rows := TokenRows(SplitOn(input, '\n'));
            r.Ok? <==> |rows| == 0 || (SameWidth(rows) && ColumnProblems(rows, |rows[0]|).Some?)
    ensures var rows := TokenRows(SplitOn(input, '\n'));
            r.Ok? && |rows| > 0 ==> r.value == ColumnProblems(rows, |rows[0]|).value
  {
    var rows := TokenRows(SplitOn(input, '\n'));
    if |rows| == 0 then Ok([])
    else if !SameWidth(rows) then Err(ValueError)
    else
      match ColumnProblems(rows, |rows[0]|)
      case None => Err(ValueError)
      case Some(ps) => Ok(ps)
  }

  /** Row `j` of a part 1 worksheet: operand `j` of every problem, written
      out and separated by single spaces. */
  function OperandRow(problems: seq<MathProblem>, j: nat): string
    requires forall i :: 0 <= i < |problems| ==> j < |problems[i].nums|
  {
    Join(seq(|problems|, i requires 0 <= i < |problems| => IntToString(problems[i].nums[j])), ' ')
  }

  /** The last row of a part 1 worksheet: the operators. */
  function OperatorRow(problems: seq<MathProblem>): string
  {
    Join(seq(|problems|, i requires 0 <= i < |problems| => problems[i].operator), ' ')
  }

  /** A part 1 worksheet for problems with `k` operands each: one row per
      operand position, then the operator row. */
  function Worksheet(problems: seq<MathProblem>, k: nat): seq<string>
    requires forall i :: 0 <= i < |problems| ==> |problems[i].nums| == k
  {
    seq(k, j requires 0 <= j < k => OperandRow(problems, j)) + [OperatorRow(problems)]
  }

  /** A token with no whitespace in it. */
  predicate Word(s: string)
  {
    s != [] && forall i :: 0 <= i < |s| ==> !IsSpace(s[i])
  }

  /** Words joined by spaces: no line break, not blank, and split back into
      the same words. */
  lemma JoinedWords(words: seq<string>)
    requires |words| >= 1 && forall k :: 0 <= k < |words| ==> Word(words[k])
    ensures '\n' !in Join(words, ' ')
    ensures !Blank(Join(words, ' '))
    ensures SplitWhitespace(Join(words, ' ')) == words
  {
    JoinAvoids(words, ' ', '\n');
    SplitWhitespaceJoin(words);
    JoinStart(words);
  }

  /** Joined words start with the first word's first character. */
  lemma JoinStart(words: seq<string>)
    requires |words| >= 1 && words[0] != []
    ensures Join(words, ' ') != [] && Join(words, ' ')[0] == words[0][0]
  {
    if |words| > 1 {
      assert Join(words, ' ') == words[0] + ([' '] + Join(words[1..], ' '));
    }
  }

  /** Lines none of which is blank keep all their token rows. */
  lemma {:induction false} TokenRowsAll(lines: seq<string>)
    requires forall i :: 0 <= i < |lines| ==> !Blank(lines[i])
    ensures |TokenRows(lines)| == |lines|
    ensures forall i :: 0 <= i < |lines| ==> TokenRows(lines)[i] == SplitWhitespace(lines[i])
  {
    if |lines| > 0 {
      TokenRowsAll(lines[..|lines| - 1]);
    }
  }

  /** The token rows of a worksheet are the written operands, row by row,
      and then the operators. */
  lemma WorksheetRows(problems: seq<MathProblem>, k: nat)
    requires |problems| >= 1
    requires forall i :: 0 <= i < |problems| ==> |problems[i].nums| == k && Word(problems[i].operator)
    ensures var rows := TokenRows(SplitOn(Join(Worksheet(problems, k), '\n'), '\n'));
            |rows| == k + 1 &&
            (forall j :: 0 <= j < k + 1 ==> |rows[j]| == |problems|) &&
            (forall j, i :: 0 <= j < k && 0 <= i < |problems| ==> rows[j][i] == IntToString(problems[i].nums[j])) &&
            forall i :: 0 <= i < |problems| ==> rows[k][i] == problems[i].operator
  {
    var lines := Worksheet(problems, k);
    forall j | 0 <= j < k
      ensures '\n' !in lines[j] && !Blank(lines[j])
      ensures SplitWhitespace(lines[j]) == seq(|problems|, i requires 0 <= i < |problems| => IntToString(problems[i].nums[j]))
    {
      JoinedWords(seq(|problems|, i requires 0 <= i < |problems| => IntToString(problems[i].nums[j])));
    }
    JoinedWords(seq(|problems|, i requires 0 <= i < |problems| => problems[i].operator));
    SplitOnJoin(lines, '\n');
    TokenRowsAll(lines);
  }

  /** Written operands parse back to themselves. */
  lemma WrittenOperands(rows: seq<seq<string>>, problems: seq<MathProblem>)
    requires |rows| >= 1 && forall j :: 0 <= j < |rows| ==> |rows[j]| == |problems|
    requires forall i :: 0 <= i < |problems| ==> |problems[i].nums| == |rows| - 1
    requires forall j, i :: 0 <= j < |rows| - 1 && 0 <= i < |problems| ==> rows[j][i] == IntToString(problems[i].nums[j])
    ensures forall j, i :: 0 <= j < |rows| - 1 && 0 <= i < |problems| ==> ParseInt(rows[j][i]) == Some(problems[i].nums[j])
  {
    forall j, i | 0 <= j < |rows| - 1 && 0 <= i < |problems|
      ensures ParseInt(rows[j][i]) == Some(problems[i].nums[j])
    {
      ParseIntOfIntString(problems[i].nums[j]);
    }
  }

  /** Token rows whose operand tokens parse to the operands of `problems`,
      column by column, with their operators in the last row, read back as
      exactly those problems. */
  lemma ColumnProblemsOf(rows: seq<seq<string>>, problems: seq<MathProblem>)
    requires |rows| >= 1 && forall j :: 0 <= j < |rows| ==> |rows[j]| == |problems|
    requires forall i :: 0 <= i < |problems| ==> |problems[i].nums| == |rows| - 1
    requires forall j, i :: 0 <= j < |rows| - 1 && 0 <= i < |problems| ==> ParseInt(rows[j][i]) == Some(problems[i].nums[j])
    requires forall i :: 0 <= i < |problems| ==> rows[|rows| - 1][i] == problems[i].operator
    ensures SameWidth(rows) && ColumnProblems(rows, |problems|) == Some(problems)
  {
    assert SameWidth(rows);
    forall k, j | 0 <= k < |problems| && 0 <= j < |rows| - 1
      ensures ParseInt(rows[j][k]).Some?
    {
      assert |problems[k].nums| == |rows| - 1;
      assert ParseInt(rows[j][k]) == Some(problems[k].nums[j]);
    }
    var r := ColumnProblems(rows, |problems|);
    assert r.Some?;
    forall i | 0 <= i < |problems|
      ensures r.value[i] == problems[i]
    {
      forall j | 0 <= j < |rows| - 1
        ensures r.value[i].nums[j] == problems[i].nums[j]
      {
        assert ParseInt(rows[j][i]) == Some(problems[i].nums[j]);
      }
      assert r.value[i].nums == problems[i].nums;
    }
    assert r.value == problems;
  }

  /** Writing problems out as a part 1 worksheet and parsing it gives them
      back, provided every problem has the same number of operands and its
      operator is a single token. */
  lemma ParseWorksheet(problems: seq<MathProblem>, k: nat)
    requires |problems| >= 1
    requires forall i :: 0 <= i < |problems| ==> |problems[i].nums| == k && Word(problems[i].operator)
    ensures ParseInputPart1(Join(Worksheet(problems, k), '\n')) == Ok(problems)
  {
    var rows := TokenRows(SplitOn(Join(Worksheet(problems, k), '\n'), '\n'));
    WorksheetRows(problems, k);
    WrittenOperands(rows, problems);
    ColumnProblemsOf(rows, problems);
  }

  // ======================================================= parse_input_part2

  /** The lines of `parse_input_part2`: right-stripped, the empty ones
      dropped. */
  function StrippedLines(lines: seq<string>): (r: seq<string>)
    ensures |r| <= |lines|
    ensures forall i :: 0 <= i < |r| ==> r[i] != [] && !IsSpace(r[i][|r[i]| - 1])
  {
    if |lines| == 0 then []
    else StrippedLines(lines[..|lines| - 1]) +
         (if RStrip(lines[|lines| - 1]) == [] then [] else [RStrip(lines[|lines| - 1])])
  }

  function Sheet(input: string): seq<string>
  {
    StrippedLines(SplitOn(input, '\n'))
  }

  /** `max(len(l) for l in lines)`. */
  function MaxLength(lines: seq<string>): (r: nat)
    requires |lines| >= 1
    ensures forall i :: 0 <= i < |lines| ==> |lines[i]| <= r
    ensures exists i :: 0 <= i < |lines| && |lines[i]| == r
  {
    if |lines| == 1 then |lines[0]|
    else
      var m := MaxLength(lines[..|lines| - 1]);
      assert forall i :: 0 <= i < |lines| - 1 ==> lines[..|lines| - 1][i] == lines[i];
      if |lines[|lines| - 1]| > m then |lines[|lines| - 1]| else m
  }

  /** `s.ljust(n, ' ')`. */
  function PadRight(s: string, n: nat): (r: string)
    requires |s| <= n
    ensures |r| == n && r[..|s|] == s
    ensures forall i :: |s| <= i < n ==> r[i] == ' '
  {
    s + seq(n - |s|, _ => ' ')
  }

  /** Every line padded to width `n`. */
  ghost function PadAll(lines: seq<string>, n: nat): (r: seq<string>)
    requires forall i :: 0 <= i < |lines| ==> |lines[i]| <= n
    ensures |r| == |lines| && Wide(r, n)
    ensures forall i :: 0 <= i < |r| ==> r[i] == PadRight(lines[i], n)
  {
    seq(|lines|, i requires 0 <= i < |lines| => PadRight(lines[i], n))
  }

  /** The padding loop of `parse_input_part2`, assigning each line in place. */
  method PadLines(lines: seq<string>, n: nat) returns (padded: seq<string>)
    requires forall i :: 0 <= i < |lines| ==> |lines[i]| <= n
    ensures padded == PadAll(lines, n)
  {
    padded := lines;
    for i := 0 to |lines|
      invariant |padded| == |lines|
      invariant forall k :: 0 <= k < i ==> padded[k] == PadRight(lines[k], n)
      invariant forall k :: i <= k < |lines| ==> padded[k] == lines[k]
    {
      padded := padded[i := PadRight(padded[i], n)];
    }
  }

  /** All lines have exactly `n` characters. */
  predicate Wide(lines: seq<string>, n: nat)
  {
    forall i :: 0 <= i < |lines| ==> |lines[i]| == n
  }

  /** `''.join(nl[j] for nl in lines if nl[j] != ' ')`: column `j` read top
      to bottom, spaces skipped. The lines it is given are padded, so every
      one of them reaches column `j`. */
  function ColumnText(lines: seq<string>, j: nat): string
  {
    if |lines| == 0 then ""
    else
      var line := lines[|lines| - 1];
      ColumnText(lines[..|lines| - 1], j) + (if j < |line| && line[j] != ' ' then [line[j]] else "")
  }

  /** A column's text holds no space, and at most one character per line. */
  lemma {:induction false} ColumnTextShape(lines: seq<string>, j: nat)
    ensures |ColumnText(lines, j)| <= |lines| && ' ' !in ColumnText(lines, j)
  {
    if |lines| > 0 {
      ColumnTextShape(lines[..|lines| - 1], j);
    }
  }

  /** `int` of every column's text; None where `int` raises. */
  function ColumnNumbers(lines: seq<string>, w: nat): (r: seq<Option<int>>)
    ensures |r| == w
  {
    seq(w, j requires 0 <= j < w => ParseInt(ColumnText(lines, j)))
  }

  /** The operands of one part 2 problem: the numbers of columns `hi` down to
      `lo`; None when one of them is no integer. */
  function Numbers(nums: seq<Option<int>>, hi: int, lo: nat): Option<seq<int>>
    requires hi < |nums|
    decreases hi - lo
  {
    if hi < lo then Some([])
    else
      match nums[hi]
      case None => None
      case Some(n) =>
        match Numbers(nums, hi - 1, lo)
        case None => None
        case Some(ns) => Some([n] + ns)
  }

  /** The operands are read from column `hi` down to column `lo`, one number
      per column, and exist exactly when every one of those columns holds an
      integer. */
  lemma {:induction false} NumbersMeaning(nums: seq<Option<int>>, hi: int, lo: nat)
    requires hi < |nums|
    ensures var r := Numbers(nums, hi, lo);
            r.Some? <==> forall j :: lo <= j <= hi ==> nums[j].Some?
    ensures var r := Numbers(nums, hi, lo);
            r.Some? ==> |r.value| == (if hi < lo then 0 else hi - lo + 1) &&
                        forall t :: 0 <= t < |r.value| ==> Some(r.value[t]) == nums[hi - t]
    decreases hi - lo
  {
    if lo <= hi {
      NumbersMeaning(nums, hi - 1, lo);
      var r := Numbers(nums, hi, lo);
      if r.Some? {
        var rest := Numbers(nums, hi - 1, lo).value;
        assert r.value == [nums[hi].value] + rest;
        forall t | 1 <= t < |r.value|
          ensures Some(r.value[t]) == nums[hi - t]
        {
          assert r.value[t] == rest[t - 1];
        }
      }
    }
  }

  /** Every column index is below `n`. */
  predicate Below(cols: seq<nat>, n: nat)
  {
    forall t :: 0 <= t < |cols| ==> cols[t] < n
  }

  /** The operator columns among the first `n` columns of the operator line,
      right to left. */
  function OpColumns(ops: string, n: nat): (r: seq<nat>)
    requires n <= |ops|
    ensures Below(r, n)
  {
    if n == 0 then []
    else if ops[n - 1] != ' ' then [n - 1] + OpColumns(ops, n - 1)
    else OpColumns(ops, n - 1)
  }

  /** The operator columns are exactly the non-blank columns of the operator
      line, each once, right to left. */
  lemma OpColumnsMeaning(ops: string, n: nat)
    requires n <= |ops|
    ensures forall t :: 0 <= t < |OpColumns(ops, n)| ==> ops[OpColumns(ops, n)[t]] != ' '
    ensures forall t, u :: 0 <= t < u < |OpColumns(ops, n)| ==> OpColumns(ops, n)[t] > OpColumns(ops, n)[u]
    ensures forall c :: 0 <= c < n && ops[c] != ' ' ==> c in OpColumns(ops, n)
  {
    OpColumnsNonBlank(ops, n);
    OpColumnsDecreasing(ops, n);
    OpColumnsComplete(ops, n);
  }

  /** Every operator column holds a character. */
  lemma {:induction false} OpColumnsNonBlank(ops: string, n: nat)
    requires n <= |ops|
    ensures forall t :: 0 <= t < |OpColumns(ops, n)| ==> ops[OpColumns(ops, n)[t]] != ' '
  {
    if n > 0 {
      OpColumnsNonBlank(ops, n - 1);
      var rest := OpColumns(ops, n - 1);
      if ops[n - 1] != ' ' {
        var r := [n - 1] + rest;
        assert OpColumns(ops, n) == r;
        forall t | 0 <= t < |r|
          ensures ops[r[t]] != ' '
        {
          if t > 0 {
            assert r[t] == rest[t - 1];
          }
        }
      }
    }
  }

  /** The operator columns run strictly right to left. */
  lemma {:induction false} OpColumnsDecreasing(ops: string, n: nat)
    requires n <= |ops|
    ensures forall t, u :: 0 <= t < u < |OpColumns(ops, n)| ==> OpColumns(ops, n)[t] > OpColumns(ops, n)[u]
  {
    if n > 0 {
      OpColumnsDecreasing(ops, n - 1);
      var rest := OpColumns(ops, n - 1);
      if ops[n - 1] != ' ' {
        var r := [n - 1] + rest;
        assert OpColumns(ops, n) == r;
        forall t, u | 0 <= t < u < |r|
          ensures r[t] > r[u]
        {
          assert r[u] == rest[u - 1];
          if t > 0 {
            assert r[t] == rest[t - 1];
          }
        }
      }
    }
  }

  /** Every non-blank column of the operator line is an operator column. */
  lemma {:induction false} OpColumnsComplete(ops: string, n: nat)
    requires n <= |ops|
    ensures forall c :: 0 <= c < n && ops[c] != ' ' ==> c in OpColumns(ops, n)
  {
    if n > 0 {
      OpColumnsComplete(ops, n - 1);
      if ops[n - 1] != ' ' {
        assert OpColumns(ops, n) == [n - 1] + OpColumns(ops, n - 1);
      } else {
        assert OpColumns(ops, n) == OpColumns(ops, n - 1);
      }
    }
  }

  /** Some problems already read, followed by what the rest of the sheet
      gives. */
  function Prefixed(done: seq<MathProblem>, rest: Result<seq<MathProblem>, Error>): Result<seq<MathProblem>, Error>
  {
    if rest.Ok? then Ok(done + rest.value) else rest
  }

  /** The problems of part 2 by operator column, right to left: the problem
      at operator column `cols[0]` takes its operands from column `hi` down
      to that operator column, and the column just left of it separates it
      from the next problem. */
  function ReadFrom(nums: seq<Option<int>>, ops: string, cols: seq<nat>, hi: int): Result<seq<MathProblem>, Error>
    requires |nums| == |ops| && hi < |ops|
    requires Below(cols, |ops|)
  {
    if |cols| == 0 then Ok([])
    else
      var c := cols[0];
      if ops[c] != '+' && ops[c] != '*' then Err(ValueError)
      else
        match Numbers(nums, hi, c)
        case None => Err(ValueError)
        case Some(ns) => Prefixed([MathProblem([ops[c]], ns)], ReadFrom(nums, ops, cols[1..], c as int - 2))
  }

  /** The top column of problem `t`: the right edge for the first problem,
      otherwise two columns left of the previous operator. */
  function Top(cols: seq<nat>, t: nat, hi: int): int
    requires t < |cols|
  {
    if t == 0 then hi else cols[t - 1] as int - 2
  }

  /** What part 2 reads, problem by problem: the t-th operator column from
      the right gives a problem with that operator, whose operands are the
      column numbers from `Top` down to the operator column. */
  lemma {:induction false} ReadFromProblems(nums: seq<Option<int>>, ops: string, cols: seq<nat>, hi: int)
    requires |nums| == |ops| && hi < |ops|
    requires Below(cols, |ops|)
    requires ReadFrom(nums, ops, cols, hi).Ok?
    ensures var ps := ReadFrom(nums, ops, cols, hi).value;
            |ps| == |cols| &&
            forall t :: 0 <= t < |cols| ==>
              (ops[cols[t]] == '+' || ops[cols[t]] == '*') && ps[t].operator == [ops[cols[t]]] &&
              Numbers(nums, Top(cols, t, hi), cols[t]) == Some(ps[t].nums)
    decreases |cols|
  {
    if |cols| > 0 {
      var c := cols[0];
      ReadFromProblems(nums, ops, cols[1..], c as int - 2);
      var ps := ReadFrom(nums, ops, cols, hi).value;
      var rest := ReadFrom(nums, ops, cols[1..], c as int - 2).value;
      assert ps == [ps[0]] + rest;
      forall t | 1 <= t < |cols|
        ensures Top(cols, t, hi) == Top(cols[1..], t - 1, c as int - 2)
      {
      }
    }
  }

  /** Problem `t` of part 2 raises: its operator is neither '+' nor '*', or
      one of its columns is no integer. */
  predicate Fails(nums: seq<Option<int>>, ops: string, cols: seq<nat>, t: nat, hi: int)
    requires |nums| == |ops| && hi < |ops| && t < |cols|
    requires Below(cols, |ops|)
  {
    (ops[cols[t]] != '+' && ops[cols[t]] != '*') || Numbers(nums, Top(cols, t, hi), cols[t]).None?
  }

  /** Part 2 fails exactly when an operator column holds something other
      than '+' or '*', or a column that a problem reads is no integer; the
      error is then a `ValueError`. */
  lemma {:induction false} ReadFromFails(nums: seq<Option<int>>, ops: string, cols: seq<nat>, hi: int)
    requires |nums| == |ops| && hi < |ops|
    requires Below(cols, |ops|)
    ensures var r := ReadFrom(nums, ops, cols, hi);
            r.Err? <==> exists t :: 0 <= t < |cols| && Fails(nums, ops, cols, t, hi)
    ensures ReadFrom(nums, ops, cols, hi).Err? ==> ReadFrom(nums, ops, cols, hi).error == ValueError
    decreases |cols|
  {
    if |cols| > 0 {
      var c := cols[0];
      var rest := cols[1..];
      ReadFromFails(nums, ops, rest, c as int - 2);
      forall t | 1 <= t < |cols|
        ensures Fails(nums, ops, cols, t, hi) == Fails(nums, ops, rest, t - 1, c as int - 2)
      {
        assert cols[t] == rest[t - 1];
      }
      if Fails(nums, ops, cols, 0, hi) {
        assert ReadFrom(nums, ops, cols, hi) == Err(ValueError);
      } else {
        assert ReadFrom(nums, ops, cols, hi).Err? == ReadFrom(nums, ops, rest, c as int - 2).Err?;
        if ReadFrom(nums, ops, rest, c as int - 2).Err? {
          var t' :| 0 <= t' < |rest| && Fails(nums, ops, rest, t', c as int - 2);
          assert Fails(nums, ops, cols, t' + 1, hi);
        } else {
          forall t | 0 <= t < |cols|
            ensures !Fails(nums, ops, cols, t, hi)
          {
            if t > 0 {
              assert !Fails(nums, ops, rest, t - 1, c as int - 2);
            }
          }
        }
      }
    }
  }

  /** What part 2 reads from lines all `w` wide: the last line holds the
      operators, the lines above it the digits, and the columns are read
      from the right edge. */
  function ReadPadded(padded: seq<string>, w: nat): Result<seq<MathProblem>, Error>
    requires |padded| > 0 && Wide(padded, w)
  {
    var ops := padded[|padded| - 1];
    ReadFrom(ColumnNumbers(padded[..|padded| - 1], w), ops, OpColumns(ops, w), w as int - 1)
  }

  /** `ReadPadded` in the terms of the column loop: the operator line is
      exactly `w` wide. */
  lemma ReadPaddedColumns(padded: seq<string>, w: nat)
    requires |padded| > 0 && Wide(padded, w)
    ensures var ops := padded[|padded| - 1];
            ReadPadded(padded, w) ==
              ReadFrom(ColumnNumbers(padded[..|padded| - 1], w), ops, OpColumns(ops, |ops|), |ops| - 1)
  {
  }

  /** What `parse_input_part2` promises for the stripped lines of a sheet:
      no line is a `ValueError` (from `max`); otherwise every line padded
      to the longest one, then read. */
  ghost function ReadSheet(sheet: seq<string>): Result<seq<MathProblem>, Error>
  {
    if |sheet| == 0 then Err(ValueError)
    else ReadPadded(PadAll(sheet, MaxLength(sheet)), MaxLength(sheet))
  }

  /** Every failure of reading padded lines is a `ValueError`. */
  lemma ReadPaddedError(padded: seq<string>, w: nat)
    requires |padded| > 0 && Wide(padded, w)
    ensures ReadPadded(padded, w).Err? ==> ReadPadded(padded, w).error == ValueError
  {
    var ops := padded[|padded| - 1];
    ReadFromFails(ColumnNumbers(padded[..|padded| - 1], w), ops, OpColumns(ops, w), w as int - 1);
  }

  /** Every failure of part 2's parsing is a `ValueError`. */
  lemma ReadSheetError(sheet: seq<string>)
    ensures ReadSheet(sheet).Err? ==> ReadSheet(sheet).error == ValueError
  {
    if |sheet| > 0 {
      ReadPaddedError(PadAll(sheet, MaxLength(sheet)), MaxLength(sheet));
    }
  }

  /** `Prefixed` nests: reading one more problem extends what is done. */
  lemma PrefixedStep(done: seq<MathProblem>, p: MathProblem, rest: Result<seq<MathProblem>, Error>)
    ensures Prefixed(done, Prefixed([p], rest)) == Prefixed(done + [p], rest)
  {
    if rest.Ok? {
      assert done + ([p] + rest.value) == (done + [p]) + rest.value;
    }
  }

  /** Reading nothing first changes nothing. */
  lemma PrefixedNone(rest: Result<seq<MathProblem>, Error>)
    ensures Prefixed([], rest) == rest
  {
    if rest.Ok? {
      assert [] + rest.value == rest.value;
    }
  }

  /** One more column of the operator line: a blank adds no operator column,
      anything else is the next one, right to left. */
  lemma OpColumnsStep(ops: string, i: nat)
    requires i < |ops|
    ensures ops[i] == ' ' ==> OpColumns(ops, i + 1) == OpColumns(ops, i)
    ensures ops[i] != ' ' ==> OpColumns(ops, i + 1) == [i] + OpColumns(ops, i)
  {
  }

  /** Reading from an operator column that holds neither '+' nor '*'
      raises. */
  lemma ReadFromBadOperator(nums: seq<Option<int>>, ops: string, i: nat, hi: int)
    requires |nums| == |ops| && i < |ops| && hi < |ops| && ops[i] != ' '
    requires ops[i] != '+' && ops[i] != '*'
    ensures ReadFrom(nums, ops, OpColumns(ops, i + 1), hi) == Err(ValueError)
  {
    OpColumnsStep(ops, i);
  }

  /** Reading from an operator column whose operands are not all integers
      raises. */
  lemma ReadFromBadNumber(nums: seq<Option<int>>, ops: string, i: nat, hi: int)
    requires |nums| == |ops| && i < |ops| && hi < |ops| && ops[i] != ' '
    requires Numbers(nums, hi, i).None?
    ensures ReadFrom(nums, ops, OpColumns(ops, i + 1), hi) == Err(ValueError)
  {
    OpColumnsStep(ops, i);
  }

  /** Reading from an operator column: its problem, then the rest of the
      operator columns to its left, whose first problem tops out two columns
      left of this one. */
  lemma ReadFromNext(nums: seq<Option<int>>, ops: string, i: nat, hi: int, ns: seq<int>)
    requires |nums| == |ops| && i < |ops| && hi < |ops|
    requires ops[i] == '+' || ops[i] == '*'
    requires Numbers(nums, hi, i) == Some(ns)
    ensures ReadFrom(nums, ops, OpColumns(ops, i + 1), hi) ==
              Prefixed([MathProblem([ops[i]], ns)], ReadFrom(nums, ops, OpColumns(ops, i), i as int - 2))
  {
    OpColumnsStep(ops, i);
    ReadFromCons(nums, ops, i, OpColumns(ops, i), hi, ns);
  }

  /** One column of operators read, then the rest to its left. */
  lemma ReadFromCons(nums: seq<Option<int>>, ops: string, c: nat, rest: seq<nat>, hi: int, ns: seq<int>)
    requires |nums| == |ops| && hi < |ops| && c < |ops| && Below(rest, |ops|)
    requires ops[c] == '+' || ops[c] == '*'
    requires Numbers(nums, hi, c) == Some(ns)
    ensures Below([c] + rest, |ops|)
    ensures ReadFrom(nums, ops, [c] + rest, hi) ==
              Prefixed([MathProblem([ops[c]], ns)], ReadFrom(nums, ops, rest, c as int - 2))
  {
    assert ([c] + rest)[1..] == rest;
  }

  /** Nothing left to read adds nothing. */
  lemma PrefixedEnd(done: seq<MathProblem>)
    ensures Prefixed(done, Ok([])) == Ok(done)
  {
    assert done + [] == done;
  }

  /** The column loop of `parse_input_part2`: from the rightmost column to
      the left, skipping blank operator columns; `lgi` is one past the top
      column of the next problem. */
  method ReadColumns(nums: seq<Option<int>>, ops: string) returns (r: Result<seq<MathProblem>, Error>)
    requires |nums| == |ops|
    ensures r == ReadFrom(nums, ops, OpColumns(ops, |ops|), |ops| - 1)
  {
    var problems: seq<MathProblem> := [];
    var lgi: int := |ops|;
    var i: int := |ops| - 1;
    ghost var spec := ReadFrom(nums, ops, OpColumns(ops, |ops|), |ops| - 1);
    PrefixedNone(spec);
    while i >= 0
      invariant -1 <= i < |ops| && lgi <= |ops|
      invariant spec == Prefixed(problems, ReadFrom(nums, ops, OpColumns(ops, i + 1), lgi - 1))
      decreases i
    {
      if ops[i] == ' ' {
        OpColumnsStep(ops, i);
        i := i - 1;
        continue;
      }
      var opr := ops[i];
      if opr != '+' && opr != '*' {
        ReadFromBadOperator(nums, ops, i, lgi - 1);
        return Err(ValueError);
      }
      var operands := Numbers(nums, lgi - 1, i);
      if operands.None? {
        ReadFromBadNumber(nums, ops, i, lgi - 1);
        return Err(ValueError);
      }
      var problem := MathProblem([opr], operands.value);
      ghost var rest := ReadFrom(nums, ops, OpColumns(ops, i), i - 2);
      ReadFromNext(nums, ops, i, lgi - 1, operands.value);
      PrefixedStep(problems, problem, rest);
      problems := problems + [problem];
      lgi := i - 1;
      i := i - 1;
    }
    PrefixedEnd(problems);
    r := Ok(problems);
  }

  /** `parse_input_part2`: the stripped lines of the input, read as a
      sheet. */
  method ParseInputPart2(input: string) returns (r: Result<seq<MathProblem>, Error>)
    ensures r == ReadSheet(Sheet(input))
  {
    r := ReadLines(Sheet(input));
  }

  /** The body of `parse_input_part2` once the lines are stripped: no line
      is a `ValueError` (from `max`); otherwise the lines are padded in
      place to the longest one and the columns read right to left. */
  method ReadLines(sheet: seq<string>) returns (r: Result<seq<MathProblem>, Error>)
    ensures r == ReadSheet(sheet)
  {
    var lines := sheet;
    if |lines| == 0 {
      return Err(ValueError);
    }
    var lineLength := MaxLength(lines);
    lines := PadLines(lines, lineLength);
    var numsLines := lines[..|lines| - 1];
    var opsLine := lines[|lines| - 1];
    var nums := ColumnNumbers(numsLines, lineLength);
    ReadPaddedColumns(lines, lineLength);
    r := ReadColumns(nums, opsLine);
  }

  // ================================================================ solving

  /** `solve_part1`, before the answer is turned into text. */
  method SolvePart1(input: string) returns (r: Result<int, Error>)
    ensures ParseInputPart1(input).Err? ==> r == Err(ParseInputPart1(input).error)
    ensures ParseInputPart1(input).Ok? ==> r == TotalOf(ParseInputPart1(input).value)
  {
    var problems := ParseInputPart1(input);
    if problems.Err? {
      return Err(problems.error);
    }
    r := SolveAll(problems.value);
  }

  /** `solve_part2`, before the answer is turned into text. */
  method SolvePart2(input: string) returns (r: Result<int, Error>)
    ensures ReadSheet(Sheet(input)).Err? ==> r == Err(ValueError)
    ensures ReadSheet(Sheet(input)).Ok? ==> r == TotalOf(ReadSheet(Sheet(input)).value)
  {
    var problems := ParseInputPart2(input);
    ReadSheetError(Sheet(input));
    if problems.Err? {
      return Err(problems.error);
    }
    r := SolveAll(problems.value);
  }
}
