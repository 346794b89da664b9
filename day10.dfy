/** Day 10: machines with indicator lights and buttons. Each button
    toggles a list of lights; part 1 adds up, over the machines, the
    fewest button presses that turn on exactly the lights the machine's
    diagram shows, searching press counts 1, 2, ... and, for each count,
    the button multisets in `combinations_with_replacement` order. */
module Day10 {
  import opened Wrappers
  import opened Text

  /** The exceptions the solver lets escape. */
  datatype Error =
    | TypeError     // a line the machine pattern does not match (`None[1]`)
    | RuntimeError  // as many lights as joltage values required, and they differ
    | IndexError    // a pressed button names a light the machine does not have

  /** The light numbers a button toggles. */
  type Button = seq<nat>

  /** A `MachineDescription`: the target light pattern, the buttons and
      the joltage requirements. */
  datatype Machine = Machine(lights: seq<bool>, buttons: seq<Button>, joltage: seq<nat>)

  // ============================================================= parsing

  /** `[#.]+` between '[' and ']': '#' is a lit light, '.' a dark one. */
  function ParseLights(token: string): (r: Option<seq<bool>>)
    ensures r.Some? <==> && |token| >= 3 && token[0] == '[' && token[|token| - 1] == ']'
                         && forall i :: 1 <= i < |token| - 1 ==> token[i] in "#."
    ensures r.Some? ==> |r.value| == |token| - 2
                        && forall i :: 0 <= i < |r.value| ==> (r.value[i] <==> token[i + 1] == '#')
  {
    if |token| >= 3 && token[0] == '[' && token[|token| - 1] == ']'
       && forall i :: 1 <= i < |token| - 1 ==> token[i] in "#."
    then Some(seq(|token| - 2, i requires 0 <= i < |token| - 2 => token[i + 1] == '#'))
    else None
  }

  /** The values of a list of options, when each holds one. */
  function AllSome<T>(os: seq<Option<T>>): (r: Option<seq<T>>)
    ensures r.Some? ==> |r.value| == |os|
    decreases |os|
  {
    if |os| == 0 then Some([])
    else
      match AllSome(os[..|os| - 1])
      case None => None
      case Some(vs) =>
        match os[|os| - 1]
        case None => None
        case Some(v) => Some(vs + [v])
  }

  /** The options give values exactly when each holds one, and then
      those values in order. */
  lemma {:induction false} AllSomeMeaning<T>(os: seq<Option<T>>)
    ensures AllSome(os).Some? <==> forall i :: 0 <= i < |os| ==> os[i].Some?
    ensures AllSome(os).Some? ==> forall i :: 0 <= i < |os| ==> Some(AllSome(os).value[i]) == os[i]
    decreases |os|
  {
    if |os| > 0 {
      var init := os[..|os| - 1];
      AllSomeMeaning(init);
      assert forall i :: 0 <= i < |init| ==> init[i] == os[i];
    }
  }

  /** Options that each hold the matching value give the values. */
  lemma {:induction false} AllSomeOf<T>(os: seq<Option<T>>, vs: seq<T>)
    requires |os| == |vs| && forall i :: 0 <= i < |os| ==> os[i] == Some(vs[i])
    ensures AllSome(os) == Some(vs)
    decreases |os|
  {
    if |os| > 0 {
      var n := |os| - 1;
      AllSomeOf(os[..n], vs[..n]);
      assert vs == vs[..n] + [vs[n]];
    }
  }

  /** The numbers of pieces that are each a run of digits. */
  function ParseNats(pieces: seq<string>): (r: Option<seq<nat>>)
    ensures r.Some? <==> forall i :: 0 <= i < |pieces| ==> ParseNat(pieces[i]).Some?
    ensures r.Some? ==> |r.value| == |pieces|
                        && forall i :: 0 <= i < |pieces| ==> Some(r.value[i]) == ParseNat(pieces[i])
  {
    var os := seq(|pieces|, i requires 0 <= i < |pieces| => ParseNat(pieces[i]));
    assert forall i :: 0 <= i < |pieces| ==> os[i] == ParseNat(pieces[i]);
    AllSomeMeaning(os);
    AllSome(os)
  }

  /** `\d+(?:,\d+)*` between `open` and `close`: the comma-separated
      numbers. */
  function ParseList(token: string, open: char, close: char): Option<seq<nat>>
  {
    if |token| >= 2 && token[0] == open && token[|token| - 1] == close
    then ParseNats(SplitOn(token[1..|token| - 1], ','))
    else None
  }

  /** The buttons, one `(...)` token each. */
  function ParseButtons(tokens: seq<string>): (r: Option<seq<Button>>)
    ensures r.Some? <==> forall i :: 0 <= i < |tokens| ==> ParseList(tokens[i], '(', ')').Some?
    ensures r.Some? ==> |r.value| == |tokens|
                        && forall i :: 0 <= i < |tokens| ==> Some(r.value[i]) == ParseList(tokens[i], '(', ')')
  {
    var os := seq(|tokens|, i requires 0 <= i < |tokens| => ParseList(tokens[i], '(', ')'));
    assert forall i :: 0 <= i < |tokens| ==> os[i] == ParseList(tokens[i], '(', ')');
    AllSomeMeaning(os);
    AllSome(os)
  }

  /** One line of the input, as `line_regex.fullmatch` and the tuple
      builders read it: a `[...]` light diagram, one or more `(...)`
      buttons and a `{...}` joltage list, separated by single spaces. A
      line the pattern does not match raises TypeError; a diagram whose
      number of lights differs from the number of joltage values raises
      RuntimeError. */
  function ParseMachine(line: string): (r: Result<Machine, Error>)
    ensures r.Ok? ==> |r.value.lights| == |r.value.joltage| >= 1 && |r.value.buttons| >= 1
    ensures r.Err? ==> r.error == TypeError || r.error == RuntimeError
  {
    var tokens := SplitOn(line, ' ');
    if |tokens| < 3 then Err(TypeError)
    else
      var lights := ParseLights(tokens[0]);
      var buttons := ParseButtons(tokens[1..|tokens| - 1]);
      var joltage := ParseList(tokens[|tokens| - 1], '{', '}');
      if lights.None? || buttons.None? || joltage.None? then Err(TypeError)
      else if |lights.value| != |joltage.value| then Err(RuntimeError)
      else Ok(Machine(lights.value, buttons.value, joltage.value))
  }

  // --------------------------------------------------------- formatting

  function LightsText(lights: seq<bool>): string
  {
    seq(|lights|, i requires 0 <= i < |lights| => if lights[i] then '#' else '.')
  }

  function NatsText(ns: seq<nat>): string
  {
    Join(seq(|ns|, i requires 0 <= i < |ns| => NatToString(ns[i])), ',')
  }

  function Tokens(m: Machine): seq<string>
  {
    ["[" + LightsText(m.lights) + "]"]
      + seq(|m.buttons|, i requires 0 <= i < |m.buttons| => "(" + NatsText(m.buttons[i]) + ")")
      + ["{" + NatsText(m.joltage) + "}"]
  }

  /** A machine written as a line of the input. */
  function FormatMachine(m: Machine): string
  {
    Join(Tokens(m), ' ')
  }

  /** A machine the pattern can describe: at least one light, at least
      one button, every button and the joltage list non-empty. */
  predicate Describable(m: Machine)
  {
    && |m.lights| >= 1 && |m.buttons| >= 1 && |m.joltage| >= 1
    && forall i :: 0 <= i < |m.buttons| ==> |m.buttons[i]| >= 1
  }

  /** A printed number holds neither separator and reads back. */
  lemma NatText(n: nat)
    ensures ',' !in NatToString(n) && ' ' !in NatToString(n)
    ensures ParseNat(NatToString(n)) == Some(n)
  {
    NatToStringRoundTrip(n);
    var s := NatToString(n);
    assert forall j :: 0 <= j < |s| ==> IsDigit(s[j]);
  }

  /** Pieces that each read back as the matching number read back as
      the numbers. */
  lemma ParseNatsOf(pieces: seq<string>, ns: seq<nat>)
    requires |pieces| == |ns| && forall i :: 0 <= i < |ns| ==> ParseNat(pieces[i]) == Some(ns[i])
    ensures ParseNats(pieces) == Some(ns)
  {
    AllSomeOf(seq(|pieces|, i requires 0 <= i < |pieces| => ParseNat(pieces[i])), ns);
  }

  /** A written number list holds neither separator, and reads back. */
  lemma NatsTextRoundTrip(ns: seq<nat>)
    requires |ns| >= 1
    ensures ' ' !in NatsText(ns)
    ensures ParseNats(SplitOn(NatsText(ns), ',')) == Some(ns)
  {
    var pieces := seq(|ns|, i requires 0 <= i < |ns| => NatToString(ns[i]));
    forall i | 0 <= i < |ns|
      ensures ',' !in pieces[i] && ' ' !in pieces[i] && ParseNat(pieces[i]) == Some(ns[i])
    {
      NatText(ns[i]);
    }
    JoinAvoids(pieces, ',', ' ');
    SplitOnJoin(pieces, ',');
    ParseNatsOf(pieces, ns);
  }

  /** A delimited number list reads back. */
  lemma ListRoundTrip(ns: seq<nat>, open: char, close: char)
    requires |ns| >= 1 && open != ' ' && close != ' '
    ensures ' ' !in [open] + NatsText(ns) + [close]
    ensures ParseList([open] + NatsText(ns) + [close], open, close) == Some(ns)
  {
    NatsTextRoundTrip(ns);
    var t := [open] + NatsText(ns) + [close];
    assert t[1..|t| - 1] == NatsText(ns);
  }

  /** A written light diagram reads back. */
  lemma LightsRoundTrip(lights: seq<bool>)
    requires |lights| >= 1
    ensures ' ' !in "[" + LightsText(lights) + "]"
    ensures ParseLights("[" + LightsText(lights) + "]") == Some(lights)
  {
    var t := "[" + LightsText(lights) + "]";
    forall i | 1 <= i < |t| - 1
      ensures t[i] in "#." && (t[i] == '#' <==> lights[i - 1])
    {
      assert t[i] == LightsText(lights)[i - 1];
    }
    var r := ParseLights(t);
    assert r.Some?;
    forall i | 0 <= i < |lights|
      ensures r.value[i] == lights[i]
    {
      assert r.value[i] <==> t[i + 1] == '#';
    }
    assert r.value == lights;
  }

  /** Tokens that each read back as the matching button read back as the
      buttons. */
  lemma ParseButtonsOf(tokens: seq<string>, bs: seq<Button>)
    requires |tokens| == |bs| && forall i :: 0 <= i < |bs| ==> ParseList(tokens[i], '(', ')') == Some(bs[i])
    ensures ParseButtons(tokens) == Some(bs)
  {
    AllSomeOf(seq(|tokens|, i requires 0 <= i < |tokens| => ParseList(tokens[i], '(', ')')), bs);
  }

  /** No token of a written machine holds a space, and each reads back. */
  lemma TokensRoundTrip(m: Machine)
    requires Describable(m)
    ensures var t := Tokens(m);
            && |t| == |m.buttons| + 2
            && (forall i :: 0 <= i < |t| ==> ' ' !in t[i])
            && ParseLights(t[0]) == Some(m.lights)
            && ParseButtons(t[1..|t| - 1]) == Some(m.buttons)
            && ParseList(t[|t| - 1], '{', '}') == Some(m.joltage)
  {
    var t := Tokens(m);
    var middle := t[1..|t| - 1];
    LightsRoundTrip(m.lights);
    ListRoundTrip(m.joltage, '{', '}');
    forall i | 0 <= i < |m.buttons|
      ensures middle[i] == "(" + NatsText(m.buttons[i]) + ")"
      ensures ' ' !in middle[i] && ParseList(middle[i], '(', ')') == Some(m.buttons[i])
    {
      assert middle[i] == t[i + 1];
      ListRoundTrip(m.buttons[i], '(', ')');
    }
    ParseButtonsOf(middle, m.buttons);
    forall i | 0 <= i < |t|
      ensures ' ' !in t[i]
    {
      if 0 < i < |t| - 1 {
        assert t[i] == middle[i - 1];
      }
    }
  }

  /** A machine written as a line reads back; a diagram with another
      number of lights than joltage values is refused with RuntimeError. */
  lemma ParseFormatMachine(m: Machine)
    requires Describable(m)
    ensures ParseMachine(FormatMachine(m)) == if |m.lights| == |m.joltage| then Ok(m) else Err(RuntimeError)
  {
    TokensRoundTrip(m);
    SplitOnJoin(Tokens(m), ' ');
  }

  /** Each line parsed on its own. */
  function ParsedLines(lines: seq<string>): (rs: seq<Result<Machine, Error>>)
    ensures |rs| == |lines| && forall i :: 0 <= i < |lines| ==> rs[i] == ParseMachine(lines[i])
  {
    seq(|lines|, i requires 0 <= i < |lines| => ParseMachine(lines[i]))
  }

  /** The machines of the lines, or the error of the first bad line. */
  function ParseAll(lines: seq<string>): Result<seq<Machine>, Error>
  {
    Collect(ParsedLines(lines))
  }

  /** The lines parse exactly when each of them does, into the machines
      the lines describe, in order; otherwise into the error of a bad line. */
  lemma ParseAllMeaning(lines: seq<string>)
    ensures var r := ParseAll(lines);
            && (r.Ok? <==> forall i :: 0 <= i < |lines| ==> ParseMachine(lines[i]).Ok?)
            && (r.Err? ==> exists i :: 0 <= i < |lines| && ParseMachine(lines[i]) == Err(r.error))
            && (r.Ok? ==> |r.value| == |lines| && forall i :: 0 <= i < |lines| ==> Ok(r.value[i]) == ParseMachine(lines[i]))
  {
    CollectMeaning(ParsedLines(lines));
  }

  /** `parse_input`: one machine per line; the first bad line raises. */
  method ParseInput(input: string) returns (r: Result<seq<Machine>, Error>)
    ensures r == ParseAll(LineIterator(input))
  {
    r := ParseLines(LineIterator(input));
  }

  /** The loop of `parse_input` over the lines. */
  method ParseLines(lines: seq<string>) returns (r: Result<seq<Machine>, Error>)
    ensures r == ParseAll(lines)
  {
    ghost var rs := ParsedLines(lines);
    var machines: seq<Machine> := [];
    for i := 0 to |lines|
      invariant Collect(rs[..i]) == Ok(machines)
    {
      assert rs[..i + 1][..i] == rs[..i];
      var parsed := ParseMachine(lines[i]);
      assert rs[i] == parsed;
      if parsed.Err? {
        CollectFails(rs, i + 1);
        return Err(parsed.error);
      }
      machines := machines + [parsed.value];
    }
    assert rs[..|lines|] == rs;
    r := Ok(machines);
  }

  // ============================================================= lights

  /** How often light i is named in button b. */
  function Occurrences(b: Button, i: nat): nat
  {
    if |b| == 0 then 0 else Occurrences(b[..|b| - 1], i) + (if b[|b| - 1] == i then 1 else 0)
  }

  /** How often light i is named across the pressed buttons. */
  function Count(presses: seq<Button>, i: nat): nat
  {
    if |presses| == 0 then 0 else Count(presses[..|presses| - 1], i) + Occurrences(presses[|presses| - 1], i)
  }

  /** The lights after the presses, all dark before: light i is lit when
      it is named an odd number of times. */
  function Toggled(n: nat, presses: seq<Button>): seq<bool>
  {
    seq(n, i requires 0 <= i < n => Count(presses, i) % 2 == 1)
  }

  /** Every pressed button names only lights below n. */
  predicate InRange(n: nat, presses: seq<Button>)
  {
    forall k, j :: 0 <= k < |presses| && 0 <= j < |presses[k]| ==> presses[k][j] < n
  }

  /** `check_lights`: start with `light_len` dark lights and flip light i
      for every i of every pressed button. A button naming a light past
      the end raises IndexError. The result has `light_len` lights, and
      light i is lit exactly when i is named an odd number of times. */
  method CheckLights(lightLen: nat, presses: seq<Button>) returns (r: Result<seq<bool>, Error>)
    ensures r.Ok? <==> InRange(lightLen, presses)
    ensures r.Ok? ==> |r.value| == lightLen
    ensures r.Ok? ==> forall i :: 0 <= i < lightLen ==> (r.value[i] <==> Count(presses, i) % 2 == 1)
    ensures r.Err? ==> r.error == IndexError
  {
    var res := seq(lightLen, _ => false);
    for k := 0 to |presses|
      invariant InRange(lightLen, presses[..k])
      invariant |res| == lightLen
      invariant forall i :: 0 <= i < lightLen ==> (res[i] <==> Count(presses[..k], i) % 2 == 1)
    {
      var flipped := FlipLights(res, presses[k]);
      if flipped.Err? {
        assert !InRange(lightLen, presses) by {
          var j :| 0 <= j < |presses[k]| && presses[k][j] >= lightLen;
        }
        return Err(flipped.error);
      }
      assert presses[..k + 1][..k] == presses[..k];
      InRangeStep(lightLen, presses, k);
      res := flipped.value;
    }
    assert presses[..|presses|] == presses;
    r := Ok(res);
  }

  /** The inner loop of `check_lights`: flip light i for every i of one
      button; a light past the end raises IndexError. A light ends up
      flipped exactly when the button names it an odd number of times. */
  method FlipLights(res: seq<bool>, b: Button) returns (r: Result<seq<bool>, Error>)
    ensures r.Ok? <==> forall j :: 0 <= j < |b| ==> b[j] < |res|
    ensures r.Ok? ==> |r.value| == |res|
    ensures r.Ok? ==> forall i :: 0 <= i < |res| ==> (r.value[i] <==> res[i] != (Occurrences(b, i) % 2 == 1))
    ensures r.Err? ==> r.error == IndexError
  {
    var lights := res;
    for j := 0 to |b|
      invariant forall jj :: 0 <= jj < j ==> b[jj] < |res|
      invariant |lights| == |res|
      invariant forall i :: 0 <= i < |res| ==> (lights[i] <==> res[i] != (Occurrences(b[..j], i) % 2 == 1))
    {
      if b[j] >= |res| {
        return Err(IndexError);
      }
      assert b[..j + 1][..j] == b[..j];
      lights := lights[b[j] := !lights[b[j]]];
    }
    assert b[..|b|] == b;
    r := Ok(lights);
  }

  /** One more button whose lights are in range keeps the presses in range. */
  lemma InRangeStep(n: nat, presses: seq<Button>, k: nat)
    requires k < |presses| && InRange(n, presses[..k])
    requires forall j :: 0 <= j < |presses[k]| ==> presses[k][j] < n
    ensures InRange(n, presses[..k + 1])
  {
    var done := presses[..k + 1];
    forall kk, jj | 0 <= kk < |done| && 0 <= jj < |done[kk]|
      ensures done[kk][jj] < n
    {
      if kk < k {
        assert done[kk] == presses[..k][kk];
      }
    }
  }

  /** The count over two runs of presses adds up. */
  lemma {:induction false} CountAppend(a: seq<Button>, b: seq<Button>, i: nat)
    ensures Count(a + b, i) == Count(a, i) + Count(b, i)
    decreases |b|
  {
    if |b| > 0 {
      var n := |b| - 1;
      assert (a + b)[..|a + b| - 1] == a + b[..n];
      CountAppend(a, b[..n], i);
    } else {
      assert a + b == a;
    }
  }

  /** Pressing one run of buttons after another lights what exactly one
      of the two runs lights on its own: the presses combine by XOR. */
  lemma ToggledAppend(n: nat, a: seq<Button>, b: seq<Button>)
    ensures forall i :: 0 <= i < n ==> (Toggled(n, a + b)[i] <==> Toggled(n, a)[i] != Toggled(n, b)[i])
  {
    forall i | 0 <= i < n
      ensures Toggled(n, a + b)[i] <==> Toggled(n, a)[i] != Toggled(n, b)[i]
    {
      CountAppend(a, b, i);
    }
  }

  /** Pressing the same button twice more changes nothing. */
  lemma PressTwice(n: nat, a: seq<Button>, b: Button)
    ensures Toggled(n, a + [b, b]) == Toggled(n, a)
  {
    forall i | 0 <= i < n
      ensures Toggled(n, a + [b, b])[i] == Toggled(n, a)[i]
    {
      CountAppend(a, [b, b], i);
      assert [b, b][..1] == [b] && [b][..0] == [];
      assert Count([b], i) == Occurrences(b, i);
      assert Count([b, b], i) == Count([b], i) + Occurrences(b, i);
    }
  }

  // ============================================================ search

  /** Each of the sequences with i put in front. */
  function Prefixed(i: nat, cs: seq<seq<nat>>): (r: seq<seq<nat>>)
    ensures |r| == |cs| && forall j :: 0 <= j < |cs| ==> r[j] == [i] + cs[j]
  {
    seq(|cs|, j requires 0 <= j < |cs| => [i] + cs[j])
  }

  /** `combinations_with_replacement` over the positions from..n-1 taken
      k at a time: the non-decreasing position sequences of length k, in
      lexicographic order (those starting with `from` first). */
  function Combinations(n: nat, k: nat, from: nat): seq<seq<nat>>
    decreases k, n - from
  {
    if k == 0 then [[]]
    else if from >= n then []
    else Prefixed(from, Combinations(n, k - 1, from)) + Combinations(n, k, from + 1)
  }

  /** c never goes down and holds only positions from..n-1. */
  predicate Ascending(c: seq<nat>, from: nat, n: nat)
  {
    && (forall a :: 0 <= a < |c| ==> from <= c[a] < n)
    && (forall a, b :: 0 <= a < b < |c| ==> c[a] <= c[b])
  }

  /** Sequences all of length k and ascending within from..n-1. */
  predicate AllAscending(cs: seq<seq<nat>>, k: nat, from: nat, n: nat)
  {
    forall i :: 0 <= i < |cs| ==> |cs[i]| == k && Ascending(cs[i], from, n)
  }

  /** Every enumerated sequence has length k and is ascending within
      from..n-1. */
  lemma {:induction false} CombinationsSound(n: nat, k: nat, from: nat)
    ensures AllAscending(Combinations(n, k, from), k, from, n)
    decreases k, n - from
  {
    if k > 0 && from < n {
      var head := Prefixed(from, Combinations(n, k - 1, from));
      var tail := Combinations(n, k, from + 1);
      assert Combinations(n, k, from) == head + tail;
      CombinationsSound(n, k - 1, from);
      PrefixedSound(n, k - 1, from, Combinations(n, k - 1, from));
      CombinationsSound(n, k, from + 1);
      forall i | 0 <= i < |head + tail|
        ensures |(head + tail)[i]| == k && Ascending((head + tail)[i], from, n)
      {
        if i >= |head| {
          assert (head + tail)[i] == tail[i - |head|];
          assert Ascending(tail[i - |head|], from + 1, n);
        }
      }
    }
  }

  /** Putting `from` in front of ascending sequences within from..n-1
      keeps them ascending, one longer. */
  lemma PrefixedSound(n: nat, k: nat, from: nat, cs: seq<seq<nat>>)
    requires from < n && AllAscending(cs, k, from, n)
    ensures AllAscending(Prefixed(from, cs), k + 1, from, n)
  {
    var ps := Prefixed(from, cs);
    forall i | 0 <= i < |ps|
      ensures |ps[i]| == k + 1 && Ascending(ps[i], from, n)
    {
      var c, rest := ps[i], cs[i];
      assert c == [from] + rest;
      assert Ascending(rest, from, n);
      assert forall a :: 0 < a < |c| ==> c[a] == rest[a - 1];
    }
  }

  /** Every ascending sequence of length k within from..n-1 is enumerated. */
  lemma {:induction false} CombinationsComplete(n: nat, k: nat, from: nat, c: seq<nat>)
    requires |c| == k && Ascending(c, from, n)
    ensures c in Combinations(n, k, from)
    decreases k, n - from
  {
    if k > 0 {
      assert from <= c[0] < n;
      if c[0] == from {
        var rest := c[1..];
        assert forall a :: 0 <= a < |rest| ==> rest[a] == c[a + 1];
        CombinationsComplete(n, k - 1, from, rest);
        var cs := Combinations(n, k - 1, from);
        var j :| 0 <= j < |cs| && cs[j] == rest;
        assert c == [from] + rest == Prefixed(from, cs)[j];
      } else {
        CombinationsComplete(n, k, from + 1, c);
      }
    } else {
      assert c == [];
    }
  }

  /** The buttons at the positions of c. */
  function Presses(buttons: seq<Button>, c: seq<nat>): (ps: seq<Button>)
    ensures |ps| == |c|
  {
    seq(|c|, i requires 0 <= i < |c| => if c[i] < |buttons| then buttons[c[i]] else [])
  }

  /** Pressing the buttons at the positions of c goes through and lights
      exactly the machine's diagram. */
  predicate Matches(m: Machine, c: seq<nat>)
  {
    InRange(|m.lights|, Presses(m.buttons, c)) && Toggled(|m.lights|, Presses(m.buttons, c)) == m.lights
  }

  /** Some k presses, a multiset of buttons, light the diagram. */
  ghost predicate FoundAt(m: Machine, k: nat)
  {
    exists c :: c in Combinations(|m.buttons|, k, 0) && Matches(m, c)
  }

  /** Some number of presses, one or more, lights the diagram. */
  ghost predicate Solvable(m: Machine)
  {
    exists k :: k >= 1 && FoundAt(m, k)
  }

  /** k is the fewest presses, one or more, that light the diagram. */
  ghost predicate Fewest(m: Machine, k: nat)
  {
    k >= 1 && FoundAt(m, k) && forall j :: 1 <= j < k ==> !FoundAt(m, j)
  }

  /** Some button names a light the machine does not have. */
  predicate BadButton(m: Machine)
  {
    exists b, j :: 0 <= b < |m.buttons| && 0 <= j < |m.buttons[b]| && m.buttons[b][j] >= |m.lights|
  }

  /** The search of one machine stops: it finds some number of presses
      that lights the diagram, or it meets a bad button (pressed once at
      the latest) and raises IndexError. A machine that is neither is
      searched forever. */
  ghost predicate SearchStops(m: Machine)
  {
    Solvable(m) || BadButton(m)
  }

  /** Presses that do not stay in range press a bad button. */
  lemma OutOfRange(m: Machine, c: seq<nat>)
    requires Ascending(c, 0, |m.buttons|) && !InRange(|m.lights|, Presses(m.buttons, c))
    ensures BadButton(m)
  {
    var ps := Presses(m.buttons, c);
    var k, j :| 0 <= k < |ps| && 0 <= j < |ps[k]| && ps[k][j] >= |m.lights|;
    assert m.buttons[c[k]][j] >= |m.lights|;
  }

  /** Lights that agree with the toggle counts are the toggled lights. */
  lemma LitIsToggled(n: nat, presses: seq<Button>, lit: seq<bool>)
    requires |lit| == n && forall i :: 0 <= i < n ==> (lit[i] <==> Count(presses, i) % 2 == 1)
    ensures lit == Toggled(n, presses)
  {
  }

  /** The `for` loop of the search: try each multiset of k buttons in
      `combinations_with_replacement` order and report whether one lights
      the diagram; a bad button met first raises IndexError. */
  method TryLength(m: Machine, k: nat) returns (r: Result<bool, Error>)
    ensures r == Ok(true) ==> FoundAt(m, k)
    ensures r == Ok(false) ==> !FoundAt(m, k)
    ensures r.Err? ==> r.error == IndexError && BadButton(m)
    ensures k >= 1 && BadButton(m) ==> r != Ok(false)
  {
    var combinations := Combinations(|m.buttons|, k, 0);
    CombinationsSound(|m.buttons|, k, 0);
    for t := 0 to |combinations|
      invariant NoneMatch(m, combinations, t)
    {
      var presses := Presses(m.buttons, combinations[t]);
      var lit := CheckLights(|m.lights|, presses);
      if lit.Err? {
        OutOfRange(m, combinations[t]);
        return Err(lit.error);
      }
      LitIsToggled(|m.lights|, presses, lit.value);
      if lit.value == m.lights {
        FoundOne(m, k, combinations, t);
        return Ok(true);
      }
      NoneMatchStep(m, combinations, t);
    }
    NoneFound(m, k, combinations);
    BadButtonCaught(m, k, combinations);
    r := Ok(false);
  }

  /** Each of the first t candidates was pressed without an IndexError and
      does not light the diagram. */
  predicate NoneMatch(m: Machine, cs: seq<seq<nat>>, t: nat)
  {
    forall u :: 0 <= u < t && u < |cs| ==> InRange(|m.lights|, Presses(m.buttons, cs[u])) && !Matches(m, cs[u])
  }

  lemma NoneMatchStep(m: Machine, cs: seq<seq<nat>>, t: nat)
    requires NoneMatch(m, cs, t) && t < |cs|
    requires InRange(|m.lights|, Presses(m.buttons, cs[t])) && !Matches(m, cs[t])
    ensures NoneMatch(m, cs, t + 1)
  {
  }

  lemma FoundOne(m: Machine, k: nat, cs: seq<seq<nat>>, t: nat)
    requires cs == Combinations(|m.buttons|, k, 0) && t < |cs| && Matches(m, cs[t])
    ensures FoundAt(m, k)
  {
  }

  lemma NoneFound(m: Machine, k: nat, cs: seq<seq<nat>>)
    requires cs == Combinations(|m.buttons|, k, 0) && NoneMatch(m, cs, |cs|)
    ensures !FoundAt(m, k)
  {
    forall c | c in cs
      ensures !Matches(m, c)
    {
      var u :| 0 <= u < |cs| && cs[u] == c;
    }
  }

  /** Pressing a bad button k times is one of the candidates of length
      k >= 1, and it raises: a search of such a length that meets no
      error cannot happen when the machine has a bad button. */
  lemma BadButtonCaught(m: Machine, k: nat, cs: seq<seq<nat>>)
    requires cs == Combinations(|m.buttons|, k, 0)
    ensures k >= 1 && BadButton(m) ==> !NoneMatch(m, cs, |cs|)
  {
    if k >= 1 && BadButton(m) {
      var b, j :| 0 <= b < |m.buttons| && 0 <= j < |m.buttons[b]| && m.buttons[b][j] >= |m.lights|;
      var c := seq(k, _ => b);
      CombinationsComplete(|m.buttons|, k, 0, c);
      var u :| 0 <= u < |cs| && cs[u] == c;
      assert Presses(m.buttons, c)[0] == m.buttons[b];
    }
  }

  /** The search of `solve_part1` for one machine: for press counts 1, 2,
      ..., try the multisets of that many buttons and stop at the first
      count for which one lights the diagram. That count is the fewest; a
      bad button met first raises IndexError. */
  method FewestPresses(m: Machine) returns (r: Result<nat, Error>)
    requires SearchStops(m)
    ensures r.Ok? ==> Fewest(m, r.value)
    ensures r.Err? ==> r.error == IndexError && BadButton(m)
  {
    // The search ends by length `bound` at the latest: 1 when a button is
    // bad, a length that lights the diagram otherwise.
    ghost var bound: nat := 1;
    if !BadButton(m) {
      bound :| bound >= 1 && FoundAt(m, bound);
    }
    var seqLen := 1;
    while true
      invariant 1 <= seqLen <= bound
      invariant BadButton(m) ==> bound == 1
      invariant !BadButton(m) ==> FoundAt(m, bound)
      invariant forall j :: 1 <= j < seqLen ==> !FoundAt(m, j)
      decreases bound - seqLen
    {
      var found := TryLength(m, seqLen);
      if found.Err? {
        return Err(found.error);
      }
      if found.value {
        return Ok(seqLen);
      }
      seqLen := seqLen + 1;
    }
  }

  function Sum(ks: seq<nat>): nat
  {
    if |ks| == 0 then 0 else Sum(ks[..|ks| - 1]) + ks[|ks| - 1]
  }

  /** The search stops for every machine of the input, when the input
      parses. */
  ghost predicate AllSearchesStop(input: string)
  {
    var parsed := ParseAll(LineIterator(input));
    parsed.Ok? ==> forall i :: 0 <= i < |parsed.value| ==> SearchStops(parsed.value[i])
  }

  /** ks holds the fewest presses of each machine, in order. */
  ghost predicate FewestOfEach(machines: seq<Machine>, ks: seq<nat>)
  {
    |ks| == |machines| && forall i :: 0 <= i < |ks| ==> Fewest(machines[i], ks[i])
  }

  /** The loop of `solve_part1`: the fewest presses of each machine,
      added up; a bad button met in a search raises IndexError. */
  method SumFewest(machines: seq<Machine>) returns (r: Result<nat, Error>)
    requires forall i :: 0 <= i < |machines| ==> SearchStops(machines[i])
    ensures r.Ok? ==> exists ks :: FewestOfEach(machines, ks) && Sum(ks) == r.value
    ensures r.Err? ==> r.error == IndexError && exists m :: m in machines && BadButton(m)
  {
    var res := 0;
    ghost var ks: seq<nat> := [];
    for i := 0 to |machines|
      invariant FewestOfEach(machines[..i], ks) && Sum(ks) == res
    {
      var k := FewestPresses(machines[i]);
      if k.Err? {
        assert machines[i] in machines;
        return Err(k.error);
      }
      assert ks == (ks + [k.value])[..i];
      ks := ks + [k.value];
      res := res + k.value;
    }
    assert machines[..|machines|] == machines;
    r := Ok(res);
  }

  /** `solve_part1`: the sum over the machines of the fewest presses that
      light each diagram. A line that does not parse raises its error; a
      bad button met in the search raises IndexError. */
  method SolvePart1(input: string) returns (r: Result<nat, Error>)
    requires AllSearchesStop(input)
    ensures ParseAll(LineIterator(input)).Err? ==> r == Err(ParseAll(LineIterator(input)).error)
    ensures r.Ok? ==> ParseAll(LineIterator(input)).Ok?
                      && exists ks :: FewestOfEach(ParseAll(LineIterator(input)).value, ks) && Sum(ks) == r.value
    ensures r.Err? && ParseAll(LineIterator(input)).Ok? ==>
              r.error == IndexError && exists m :: m in ParseAll(LineIterator(input)).value && BadButton(m)
  {
    var parsed := ParseInput(input);
    if parsed.Err? {
      return Err(parsed.error);
    }
    r := SumFewest(parsed.value);
  }
}
