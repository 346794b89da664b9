/** Day 3: battery banks. Each bank is a line of decimal digits; the joltage
    of a bank is the largest number spelled by picking a fixed count of its
    digits in their original order (2 in part 1, 12 in part 2). */
module Day3 {
  import opened Wrappers
  import opened Text

  /** A bank digit, as `int(c)` yields it for a digit character. */
  type Digit = x: nat | x < 10

  /** `(value, index)`: a picked number and the index of its last digit. */
  datatype Found = Found(value: nat, index: nat)

  /** `int(c)` on a character that is not a digit. */
  datatype Error = ValueError

  // ============================================================ selections

  ghost predicate Increasing(sel: seq<nat>)
  {
    forall i, j :: 0 <= i < j < |sel| ==> sel[i] < sel[j]
  }

  ghost predicate InBank(bank: seq<Digit>, sel: seq<nat>)
  {
    forall i :: 0 <= i < |sel| ==> sel[i] < |bank|
  }

  /** `sel` picks k digits of `bank` at strictly increasing indices, all at
      or after `minIndex`, the first of them at most `mdv`. */
  ghost predicate IsSelection(bank: seq<Digit>, sel: seq<nat>, k: nat, minIndex: nat, mdv: int)
  {
    |sel| == k >= 1 && Increasing(sel) && InBank(bank, sel) && minIndex <= sel[0] && bank[sel[0]] <= mdv
  }

  /** The number the picked digits spell, most significant first. */
  ghost function SelValue(bank: seq<Digit>, sel: seq<nat>): nat
    requires InBank(bank, sel)
  {
    if |sel| == 0 then 0 else bank[sel[0]] * Pow10(|sel| - 1) + SelValue(bank, sel[1..])
  }

  /** A number of k digits is below 10^k. */
  lemma {:induction false} SelValueBound(bank: seq<Digit>, sel: seq<nat>)
    requires InBank(bank, sel)
    ensures SelValue(bank, sel) < Pow10(|sel|)
    decreases |sel|
  {
    if |sel| > 0 {
      SelValueBound(bank, sel[1..]);
      var p := Pow10(|sel| - 1);
      MulMonotone(bank[sel[0]], 9, p);
    }
  }

  /** Increasing indices from `sel[0]` on climb at least one per step. */
  lemma {:induction false} IncreasingClimbs(sel: seq<nat>, i: nat)
    requires Increasing(sel) && i < |sel|
    ensures sel[0] + i <= sel[i]
    decreases i
  {
    if i > 0 {
      IncreasingClimbs(sel, i - 1);
    }
  }

  /** No selection is longer than the bank. */
  lemma SelectionFits(bank: seq<Digit>, sel: seq<nat>, k: nat, minIndex: nat, mdv: int)
    requires IsSelection(bank, sel, k, minIndex, mdv)
    ensures k <= |bank|
  {
    IncreasingClimbs(sel, k - 1);
  }

  /** A one-digit selection is one index and its digit. */
  lemma SingleSelection(bank: seq<Digit>, sel: seq<nat>, minIndex: nat, mdv: int)
    requires |sel| == 1
    ensures IsSelection(bank, sel, 1, minIndex, mdv) <==>
              minIndex <= sel[0] < |bank| && bank[sel[0]] <= mdv
    ensures IsSelection(bank, sel, 1, minIndex, mdv) ==> SelValue(bank, sel) == bank[sel[0]]
  {
  }

  /** A longer selection is its first pick followed by a selection of the
      rest after it, with no bound on the rest's first digit. */
  lemma SplitSelection(bank: seq<Digit>, sel: seq<nat>, k: nat, minIndex: nat, mdv: int)
    requires k >= 2 && IsSelection(bank, sel, k, minIndex, mdv)
    ensures IsSelection(bank, sel[1..], k - 1, sel[0] + 1, 9)
    ensures SelValue(bank, sel) == bank[sel[0]] * Pow10(k - 1) + SelValue(bank, sel[1..])
  {
  }

  /** Conversely, a first pick and a selection after it make a selection. */
  lemma JoinSelection(bank: seq<Digit>, j: nat, rest: seq<nat>, k: nat, minIndex: nat, mdv: int)
    requires k >= 2 && minIndex <= j < |bank| && bank[j] <= mdv
    requires IsSelection(bank, rest, k - 1, j + 1, 9)
    ensures IsSelection(bank, [j] + rest, k, minIndex, mdv)
    ensures SelValue(bank, [j] + rest) == bank[j] * Pow10(k - 1) + SelValue(bank, rest)
  {
    var sel := [j] + rest;
    assert sel[1..] == rest;
    forall a, b | 0 <= a < b < |sel|
      ensures sel[a] < sel[b]
    {
      if a == 0 {
        IncreasingClimbs(rest, b - 1);
      }
    }
  }

  /** A selection's first digit, taken alone, is a one-digit selection. */
  lemma FirstOfSelection(bank: seq<Digit>, sel: seq<nat>, k: nat, minIndex: nat, mdv: int, m: int)
    requires IsSelection(bank, sel, k, minIndex, mdv) && bank[sel[0]] <= m
    ensures IsSelection(bank, [sel[0]], 1, minIndex, m)
  {
  }

  lemma MulMonotone(a: nat, b: nat, p: nat)
    requires a <= b
    ensures a * p <= b * p
  {
  }

  // ======================================================== largest_num

  /** `sel` is a selection spelling `f.value` whose last index is `f.index`. */
  ghost predicate Achieves(bank: seq<Digit>, sel: seq<nat>, k: nat, minIndex: nat, mdv: int, f: Found)
  {
    IsSelection(bank, sel, k, minIndex, mdv) && SelValue(bank, sel) == f.value && sel[k - 1] == f.index
  }

  ghost predicate NoSelection(bank: seq<Digit>, k: nat, minIndex: nat, mdv: int)
  {
    forall sel :: !IsSelection(bank, sel, k, minIndex, mdv)
  }

  /** `f` is spelled by some selection and no selection spells more. */
  ghost predicate IsBest(bank: seq<Digit>, k: nat, minIndex: nat, mdv: int, f: Found)
  {
    (exists sel :: Achieves(bank, sel, k, minIndex, mdv, f)) &&
    forall sel :: IsSelection(bank, sel, k, minIndex, mdv) ==> SelValue(bank, sel) <= f.value
  }

  /** Every admissible digit before `f.index` is smaller than `f.value`: the
      leftmost of the largest. */
  ghost predicate LeftmostBest(bank: seq<Digit>, minIndex: nat, mdv: int, f: Found)
  {
    forall i :: minIndex <= i < f.index && i < |bank| ==> bank[i] > mdv || bank[i] < f.value
  }

  /** Every selection starts with a digit at most m. */
  ghost predicate FirstAtMost(bank: seq<Digit>, k: nat, minIndex: nat, mdv: int, m: int)
  {
    forall sel :: IsSelection(bank, sel, k, minIndex, mdv) ==> bank[sel[0]] <= m
  }

  /** The greedy finds no first digit: no selection at all. */
  lemma GreedyNone(bank: seq<Digit>, k: nat, minIndex: nat, mdv: int, m: int)
    requires FirstAtMost(bank, k, minIndex, mdv, m) && NoSelection(bank, 1, minIndex, m)
    ensures NoSelection(bank, k, minIndex, mdv)
  {
    forall sel | IsSelection(bank, sel, k, minIndex, mdv)
      ensures false
    {
      FirstOfSelection(bank, sel, k, minIndex, mdv, m);
    }
  }

  /** The rest cannot be completed after the greedy first digit: no
      selection starts with that digit, so the bound drops below it. */
  lemma GreedyLower(bank: seq<Digit>, k: nat, minIndex: nat, mdv: int, m: int, f: Found)
    requires k >= 2 && FirstAtMost(bank, k, minIndex, mdv, m)
    requires IsBest(bank, 1, minIndex, m, f) && LeftmostBest(bank, minIndex, m, f)
    requires NoSelection(bank, k - 1, f.index + 1, 9)
    ensures FirstAtMost(bank, k, minIndex, mdv, f.value - 1)
  {
    forall sel | IsSelection(bank, sel, k, minIndex, mdv)
      ensures bank[sel[0]] <= f.value - 1
    {
      FirstOfSelection(bank, sel, k, minIndex, mdv, m);
      SingleSelection(bank, [sel[0]], minIndex, m);
      if bank[sel[0]] == f.value {
        var fs :| Achieves(bank, fs, 1, minIndex, m, f);
        SingleSelection(bank, fs, minIndex, m);
        SplitSelection(bank, sel, k, minIndex, mdv);
        assert IsSelection(bank, sel[1..], k - 1, f.index + 1, 9);
      }
    }
  }

  /** The rest is completed after the greedy first digit: the greedy pick is
      the best one. */
  lemma GreedyBest(bank: seq<Digit>, k: nat, minIndex: nat, mdv: int, m: int, f: Found, g: Found)
    requires k >= 2 && m <= mdv && FirstAtMost(bank, k, minIndex, mdv, m)
    requires IsBest(bank, 1, minIndex, m, f) && LeftmostBest(bank, minIndex, m, f)
    requires IsBest(bank, k - 1, f.index + 1, 9, g)
    ensures IsBest(bank, k, minIndex, mdv, Found(f.value * Pow10(k - 1) + g.value, g.index))
  {
    var fs :| Achieves(bank, fs, 1, minIndex, m, f);
    SingleSelection(bank, fs, minIndex, m);
    var j := f.index;
    var gs :| Achieves(bank, gs, k - 1, j + 1, 9, g);
    JoinSelection(bank, j, gs, k, minIndex, mdv);
    assert ([j] + gs)[k - 1] == g.index;
    assert Achieves(bank, [j] + gs, k, minIndex, mdv, Found(f.value * Pow10(k - 1) + g.value, g.index));
    forall sel | IsSelection(bank, sel, k, minIndex, mdv)
      ensures SelValue(bank, sel) <= f.value * Pow10(k - 1) + g.value
    {
      Dominated(bank, sel, k, minIndex, mdv, m, f, g);
    }
  }

  /** One selection against the greedy pick: a smaller first digit loses
      whatever follows it, the same first digit starts no earlier than the
      greedy one and so its rest is no better than the best rest. */
  lemma Dominated(bank: seq<Digit>, sel: seq<nat>, k: nat, minIndex: nat, mdv: int, m: int, f: Found, g: Found)
    requires k >= 2 && IsSelection(bank, sel, k, minIndex, mdv) && bank[sel[0]] <= m
    requires IsBest(bank, 1, minIndex, m, f) && LeftmostBest(bank, minIndex, m, f)
    requires IsBest(bank, k - 1, f.index + 1, 9, g)
    ensures SelValue(bank, sel) <= f.value * Pow10(k - 1) + g.value
  {
    FirstOfSelection(bank, sel, k, minIndex, mdv, m);
    SingleSelection(bank, [sel[0]], minIndex, m);
    SplitSelection(bank, sel, k, minIndex, mdv);
    var d := bank[sel[0]];
    assert d <= f.value;
    if d < f.value {
      SelValueBound(bank, sel[1..]);
      SmallerFirstLoses(d, f.value, Pow10(k - 1), SelValue(bank, sel[1..]), g.value);
    } else {
      SameFirstNoBetter(bank, sel[0], sel[1..], k, minIndex, m, f, g);
    }
  }

  /** A smaller leading digit loses whatever digits follow it. */
  lemma SmallerFirstLoses(d: nat, e: nat, p: nat, rest: nat, best: nat)
    requires d < e && rest < p
    ensures d * p + rest <= e * p + best
  {
    MulMonotone(d + 1, e, p);
    assert (d + 1) * p == d * p + p;
  }

  /** A selection starting with the greedy digit starts no earlier than the
      greedy pick, so its rest is a selection after that pick. */
  lemma SameFirstNoBetter(bank: seq<Digit>, first: nat, rest: seq<nat>, k: nat, minIndex: nat, m: int, f: Found, g: Found)
    requires k >= 2 && IsSelection(bank, rest, k - 1, first + 1, 9)
    requires minIndex <= first < |bank| && bank[first] == f.value <= m
    requires LeftmostBest(bank, minIndex, m, f)
    requires IsBest(bank, k - 1, f.index + 1, 9, g)
    ensures SelValue(bank, rest) <= g.value
  {
    assert f.index <= first;
    LaterStart(bank, rest, k - 1, first + 1, f.index + 1);
  }

  /** A selection from some index on is also one from any earlier index. */
  lemma LaterStart(bank: seq<Digit>, sel: seq<nat>, k: nat, from: nat, earlier: nat)
    requires IsSelection(bank, sel, k, from, 9) && earlier <= from
    ensures IsSelection(bank, sel, k, earlier, 9)
  {
  }

  /** `largest_num(bank, digits, min_index, mdv)`: the largest number spelled
      by `digits` digits of the bank at increasing indices from `minIndex`
      on, whose first digit is at most `mdv`, with the index of its last
      digit; None when there is no such pick. One digit is the leftmost
      largest admissible digit; more digits take that first digit greedily
      and, when the rest cannot be completed after it, retry with a smaller
      first digit. */
  method LargestNum(bank: seq<Digit>, digits: nat, minIndex: nat, mdv: int) returns (r: Option<Found>)
    ensures digits == 0 || |bank| < digits ==> r.None?
    ensures digits >= 1 ==> (r.None? <==> NoSelection(bank, digits, minIndex, mdv))
    ensures r.Some? ==> IsBest(bank, digits, minIndex, mdv, r.value)
    ensures digits == 1 && r.Some? ==> LeftmostBest(bank, minIndex, mdv, r.value)
    decreases digits
  {
    if |bank| < digits || digits == 0 {
      forall sel | digits >= 1
        ensures !IsSelection(bank, sel, digits, minIndex, mdv)
      {
        if IsSelection(bank, sel, digits, minIndex, mdv) {
          SelectionFits(bank, sel, digits, minIndex, mdv);
        }
      }
      return None;
    }
    if digits == 1 {
      r := LargestDigit(bank, minIndex, mdv);
      return;
    }
    var m := mdv;
    while true
      invariant m <= mdv
      invariant FirstAtMost(bank, digits, minIndex, mdv, m)
      decreases if m < 0 then 0 else m + 1
    {
      var first := LargestNum(bank, 1, minIndex, m);
      if first.None? {
        GreedyNone(bank, digits, minIndex, mdv, m);
        return None;
      }
      ghost var fs :| Achieves(bank, fs, 1, minIndex, m, first.value);
      SingleSelection(bank, fs, minIndex, m);
      var rest := LargestNum(bank, digits - 1, first.value.index + 1, 9);
      if rest.None? {
        GreedyLower(bank, digits, minIndex, mdv, m, first.value);
        m := first.value.value - 1;
      } else {
        GreedyBest(bank, digits, minIndex, mdv, m, first.value, rest.value);
        return Some(Found(first.value.value * Pow10(digits - 1) + rest.value.value, rest.value.index));
      }
    }
  }

  /** The one-digit case of `largest_num`: the `for` loop keeping the largest
      admissible digit seen so far, replaced only by a strictly larger one. */
  method LargestDigit(bank: seq<Digit>, minIndex: nat, mdv: int) returns (r: Option<Found>)
    ensures r.None? <==> NoSelection(bank, 1, minIndex, mdv)
    ensures r.Some? ==> IsBest(bank, 1, minIndex, mdv, r.value) && LeftmostBest(bank, minIndex, mdv, r.value)
  {
    var val: int := -1;
    var ind: Option<nat> := None;
    var i := minIndex;
    while i < |bank|
      invariant minIndex <= i
      invariant ind.None? ==> val == -1 && forall t :: minIndex <= t < i && t < |bank| ==> bank[t] > mdv
      invariant ind.Some? ==> minIndex <= ind.value < i && ind.value < |bank| && bank[ind.value] == val <= mdv
      invariant ind.Some? ==> forall t :: minIndex <= t < i && t < |bank| && bank[t] <= mdv ==> bank[t] <= val
      invariant ind.Some? ==> forall t :: minIndex <= t < ind.value ==> bank[t] > mdv || bank[t] < val
    {
      if val < bank[i] <= mdv {
        val := bank[i];
        ind := Some(i);
      }
      i := i + 1;
    }
    if ind.None? {
      forall sel
        ensures !IsSelection(bank, sel, 1, minIndex, mdv)
      {
        if |sel| == 1 {
          SingleSelection(bank, sel, minIndex, mdv);
        }
      }
      return None;
    }
    r := Some(Found(val, ind.value));
    SingleSelection(bank, [ind.value], minIndex, mdv);
    assert Achieves(bank, [ind.value], 1, minIndex, mdv, r.value);
    forall sel | IsSelection(bank, sel, 1, minIndex, mdv)
      ensures SelValue(bank, sel) <= val
    {
      SingleSelection(bank, sel, minIndex, mdv);
    }
  }

  // ============================================================ parsing

  /** `list(map(int, line))`: the digits of a line of digit characters. */
  function ParseBank(line: string): (r: Result<seq<Digit>, Error>)
    ensures r.Ok? <==> AllDigits(line)
    ensures r.Ok? ==> |r.value| == |line| && forall i :: 0 <= i < |line| ==> r.value[i] == DigitValue(line[i])
  {
    if AllDigits(line) then Ok(seq(|line|, i requires 0 <= i < |line| => DigitValue(line[i]) as Digit))
    else Err(ValueError)
  }

  /** `parse_input`: one bank per line. */
  method ParseInput(input: string) returns (r: Result<seq<seq<Digit>>, Error>)
    ensures var lines := LineIterator(input);
            r.Ok? <==> forall i :: 0 <= i < |lines| ==> AllDigits(lines[i])
    ensures r.Ok? ==> |r.value| == |LineIterator(input)|
    ensures r.Ok? ==> forall i :: 0 <= i < |r.value| ==> Ok(r.value[i]) == ParseBank(LineIterator(input)[i])
  {
    var lines := LineIterator(input);
    var banks: seq<seq<Digit>> := [];
    for i := 0 to |lines|
      invariant |banks| == i
      invariant forall k :: 0 <= k < i ==> Ok(banks[k]) == ParseBank(lines[k])
    {
      var bank := ParseBank(lines[i]);
      if bank.Err? {
        assert !(forall k :: 0 <= k < |lines| ==> AllDigits(lines[k]));
        return Err(bank.error);
      }
      banks := banks + [bank.value];
    }
    r := Ok(banks);
  }

  /** Parsing a line written from digits gives the digits back. */
  lemma ParseBankOfDigits(bank: seq<Digit>)
    ensures ParseBank(DigitString(bank)) == Ok(bank)
  {
    var parsed := ParseBank(DigitString(bank));
    assert parsed.value == bank;
  }

  function DigitString(bank: seq<Digit>): (r: string)
    ensures |r| == |bank| && AllDigits(r)
    ensures forall i :: 0 <= i < |bank| ==> DigitValue(r[i]) == bank[i]
  {
    seq(|bank|, i requires 0 <= i < |bank| => DigitChar(bank[i]))
  }

  // ============================================================= solves

  /** `v` is what a bank adds: its best pick of k digits, or 0 when it has
      fewer than k digits. */
  ghost predicate Joltage(bank: seq<Digit>, k: nat, v: nat)
  {
    if NoSelection(bank, k, 0, 9) then v == 0
    else exists index :: IsBest(bank, k, 0, 9, Found(v, index))
  }

  function Sum(vs: seq<nat>): nat
  {
    if |vs| == 0 then 0 else Sum(vs[..|vs| - 1]) + vs[|vs| - 1]
  }

  /** The sum over the banks of `largest_num(bank, digits)`, banks with no
      pick adding nothing: `solve_part1` with 2 digits, `solve_part2` with 12. */
  method SolveWith(banks: seq<seq<Digit>>, digits: nat) returns (res: nat)
    requires digits >= 1
    ensures exists vs: seq<nat> :: |vs| == |banks| && Sum(vs) == res &&
              forall i :: 0 <= i < |banks| ==> Joltage(banks[i], digits, vs[i])
  {
    res := 0;
    ghost var vs: seq<nat> := [];
    for i := 0 to |banks|
      invariant |vs| == i && Sum(vs) == res
      invariant forall k :: 0 <= k < i ==> Joltage(banks[k], digits, vs[k])
    {
      var jtg := LargestNum(banks[i], digits, 0, 9);
      var add := if jtg.Some? then jtg.value.value else 0;
      assert Joltage(banks[i], digits, add);
      assert (vs + [add])[..i] == vs;
      vs := vs + [add];
      res := res + add;
    }
    assert |vs| == |banks| && Sum(vs) == res;
  }

  method SolvePart1(banks: seq<seq<Digit>>) returns (res: nat)
    ensures exists vs: seq<nat> :: |vs| == |banks| && Sum(vs) == res &&
              forall i :: 0 <= i < |banks| ==> Joltage(banks[i], 2, vs[i])
  {
    res := SolveWith(banks, 2);
  }

  method SolvePart2(banks: seq<seq<Digit>>) returns (res: nat)
    ensures exists vs: seq<nat> :: |vs| == |banks| && Sum(vs) == res &&
              forall i :: 0 <= i < |banks| ==> Joltage(banks[i], 12, vs[i])
  {
    res := SolveWith(banks, 12);
  }
}
