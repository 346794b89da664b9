/** String utilities the solvers rely on: the line splitting of
    `common.line_iterator`, `str.split(sep)`, `str.split()`, `str.rstrip`,
    decimal parsing as done by `int(...)` and decimal printing as done by
    `str(n)`. Strings are sequences of characters. */
module Text {
  import opened Wrappers

  // ---------------------------------------------------------------- search

  /** Index of the first occurrence of `c` in `s`, if any. */
  function FirstIndex(s: string, c: char): (r: Option<nat>)
    ensures r.None? <==> c !in s
    ensures r.Some? ==> r.value < |s| && s[r.value] == c && c !in s[..r.value]
  {
    if |s| == 0 then None
    else if s[0] == c then Some(0)
    else
      match FirstIndex(s[1..], c)
      case None => None
      case Some(i) => assert s[1..][..i] == s[1..i + 1]; Some(i + 1)
  }

  // ------------------------------------------------------- str.split(sep)

  /** `s.split(sep)` for a one-character separator: the pieces between
      separators, always at least one (possibly empty) piece. */
  function SplitOn(s: string, sep: char): (r: seq<string>)
    ensures |r| >= 1
    ensures forall i :: 0 <= i < |r| ==> sep !in r[i]
    decreases |s|
  {
    match FirstIndex(s, sep)
    case None => [s]
    case Some(i) => [s[..i]] + SplitOn(s[i + 1..], sep)
  }

  /** `sep.join(parts)`. */
  function Join(parts: seq<string>, sep: char): string
  {
    if |parts| == 0 then ""
    else if |parts| == 1 then parts[0]
    else parts[0] + [sep] + Join(parts[1..], sep)
  }

  /** Joining the pieces of a split with the separator gives the string back. */
  lemma {:induction false} JoinSplitOn(s: string, sep: char)
    ensures Join(SplitOn(s, sep), sep) == s
    decreases |s|
  {
    match FirstIndex(s, sep)
    case None =>
    case Some(i) =>
      var rest := SplitOn(s[i + 1..], sep);
      JoinSplitOn(s[i + 1..], sep);
      assert SplitOn(s, sep) == [s[..i]] + rest;
      assert s == s[..i] + [sep] + s[i + 1..];
  }

  /** Splitting a join of separator-free pieces gives the pieces back. */
  lemma {:induction false} SplitOnJoin(parts: seq<string>, sep: char)
    requires |parts| >= 1
    requires forall i :: 0 <= i < |parts| ==> sep !in parts[i]
    ensures SplitOn(Join(parts, sep), sep) == parts
    decreases |parts|
  {
    if |parts| > 1 {
      var s, k := Join(parts, sep), |parts[0]|;
      var tail := Join(parts[1..], sep);
      assert SplitOn(s, sep) == [parts[0]] + SplitOn(tail, sep) by {
        assert s == parts[0] + [sep] + tail;
        assert s[..k] == parts[0];
        assert s[k + 1..] == tail;
        FirstIndexAt(s, sep, k);
      }
      SplitOnJoin(parts[1..], sep);
      assert parts == [parts[0]] + parts[1..];
    }
  }

  /** The first occurrence is found at the index where nothing before it matches. */
  lemma {:induction false} FirstIndexAt(s: string, c: char, i: nat)
    requires i < |s| && s[i] == c && c !in s[..i]
    ensures FirstIndex(s, c) == Some(i)
  {
  }

  // ------------------------------------------------------- line_iterator

  /** The lines an in-memory text stream hands out: every line keeps its
      terminating '\n', only the last one may lack it, and an empty text has
      no lines at all. */
  function StreamLines(s: string): seq<string>
    decreases |s|
  {
    if |s| == 0 then []
    else
      match FirstIndex(s, '\n')
      case None => [s]
      case Some(i) => [s[..i + 1]] + StreamLines(s[i + 1..])
  }

  /** Every line is non-empty and holds '\n' at most as its last character,
      and every line but the last ends with '\n'. */
  predicate Terminated(r: seq<string>)
  {
    (forall i :: 0 <= i < |r| ==> r[i] != [] && '\n' !in r[i][..|r[i]| - 1]) &&
    forall i :: 0 <= i < |r| - 1 ==> r[i][|r[i]| - 1] == '\n'
  }

  lemma TerminatedCons(head: string, rest: seq<string>)
    requires head != [] && '\n' !in head[..|head| - 1]
    requires rest != [] ==> head[|head| - 1] == '\n'
    requires Terminated(rest)
    ensures Terminated([head] + rest)
  {
    var r := [head] + rest;
    forall i | 1 <= i < |r|
      ensures r[i] == rest[i - 1]
    {
    }
  }

  /** The stream hands out no lines for an empty text, and its lines are
      `Terminated`. */
  lemma {:induction false} StreamLinesShape(s: string)
    ensures s == [] <==> StreamLines(s) == []
    ensures Terminated(StreamLines(s))
    decreases |s|
  {
    if |s| > 0 {
      match FirstIndex(s, '\n')
      case None =>
      case Some(i) =>
        StreamLinesShape(s[i + 1..]);
        var head := s[..i + 1];
        assert head[..|head| - 1] == s[..i];
        StreamLinesStep(s, i);
        TerminatedCons(head, StreamLines(s[i + 1..]));
    }
  }

  /** The first line the stream hands out runs up to and including the
      first '\n'. */
  lemma StreamLinesStep(s: string, i: nat)
    requires FirstIndex(s, '\n') == Some(i)
    ensures StreamLines(s) == [s[..i + 1]] + StreamLines(s[i + 1..])
  {
  }

  /** Concatenating the stream's lines gives the text back. */
  lemma {:induction false} StreamLinesConcat(s: string)
    ensures Concat(StreamLines(s)) == s
    decreases |s|
  {
    if |s| > 0 {
      match FirstIndex(s, '\n')
      case None =>
      case Some(i) =>
        StreamLinesConcat(s[i + 1..]);
        assert StreamLines(s) == [s[..i + 1]] + StreamLines(s[i + 1..]);
        assert s == s[..i + 1] + s[i + 1..];
    }
  }

  function Concat(parts: seq<string>): string
  {
    if |parts| == 0 then "" else parts[0] + Concat(parts[1..])
  }

  /** `line.rstrip('\r\n')`: drop every trailing '\r' and '\n'. */
  function StripLineEnd(line: string): (r: string)
    ensures r <= line
    ensures r == [] || (r[|r| - 1] != '\r' && r[|r| - 1] != '\n')
    ensures forall i :: |r| <= i < |line| ==> line[i] == '\r' || line[i] == '\n'
  {
    if |line| > 0 && (line[|line| - 1] == '\r' || line[|line| - 1] == '\n')
    then StripLineEnd(line[..|line| - 1])
    else line
  }

  /** Each raw line with its terminator stripped. */
  function StripLineEnds(raw: seq<string>): (r: seq<string>)
    ensures |r| == |raw|
    ensures forall i :: 0 <= i < |r| ==> r[i] == StripLineEnd(raw[i])
  {
    if |raw| == 0 then [] else [StripLineEnd(raw[0])] + StripLineEnds(raw[1..])
  }

  /** `line_iterator(text)` with its default `strip_newline=True`. */
  function LineIterator(text: string): (r: seq<string>)
    ensures |r| == |StreamLines(text)|
  {
    StripLineEnds(StreamLines(text))
  }

  /** No line the iterator yields holds a '\n'. */
  lemma LineIteratorClean(text: string)
    ensures forall i :: 0 <= i < |LineIterator(text)| ==> '\n' !in LineIterator(text)[i]
  {
    StreamLinesShape(text);
    StripLineEndsClean(StreamLines(text));
  }

  /** Stripping the terminator of a line that has '\n' at most at its end
      leaves no '\n'. */
  lemma StripLineEndsClean(raw: seq<string>)
    requires Terminated(raw)
    ensures forall i :: 0 <= i < |raw| ==> '\n' !in StripLineEnd(raw[i])
  {
  }

  /** What `LineIteratorIsSplit` states about `text`. */
  predicate LinesAreSplit(text: string)
  {
    var pieces := SplitOn(text, '\n');
    LineIterator(text) ==
      if text == [] || text[|text| - 1] == '\n' then pieces[..|pieces| - 1] else pieces
  }

  /** For a text without carriage returns, line_iterator is `text.split('\n')`
      without the empty piece that follows a final line terminator. */
  lemma {:induction false} LineIteratorIsSplit(text: string)
    requires '\r' !in text
    ensures LinesAreSplit(text)
    decreases |text|
  {
    if |text| > 0 {
      match FirstIndex(text, '\n')
      case None =>
        assert StripLineEnd(text) == text;
      case Some(i) =>
        LineIteratorIsSplit(text[i + 1..]);
        LinesAreSplitStep(text, i);
    }
  }

  lemma LinesAreSplitStep(text: string, i: nat)
    requires '\r' !in text
    requires FirstIndex(text, '\n') == Some(i)
    requires LinesAreSplit(text[i + 1..])
    ensures LinesAreSplit(text)
  {
    var rest := text[i + 1..];
    var restPieces := SplitOn(rest, '\n');
    LineIteratorStep(text, i);
    SplitOnStep(text, i);
    EndsAlike(text, i);
    if rest == [] || rest[|rest| - 1] == '\n' {
      ConsDropLast(text[..i], restPieces);
    }
  }

  /** A text ends with '\n' exactly when its part after an inner '\n' is
      empty or ends with '\n'. */
  lemma EndsAlike(text: string, i: nat)
    requires i < |text| && text[i] == '\n'
    ensures var rest := text[i + 1..];
            (text[|text| - 1] == '\n') == (rest == [] || rest[|rest| - 1] == '\n')
  {
  }

  lemma ConsDropLast(h: string, xs: seq<string>)
    requires |xs| >= 1
    ensures ([h] + xs)[..|xs|] == [h] + xs[..|xs| - 1]
  {
  }

  /** The first piece of a split is the text up to the first separator. */
  lemma SplitOnStep(text: string, i: nat)
    requires FirstIndex(text, '\n') == Some(i)
    ensures SplitOn(text, '\n') == [text[..i]] + SplitOn(text[i + 1..], '\n')
  {
  }

  /** A character that is neither the separator nor in any part is not in the join. */
  lemma {:induction false} JoinAvoids(parts: seq<string>, sep: char, c: char)
    requires c != sep && forall i :: 0 <= i < |parts| ==> c !in parts[i]
    ensures c !in Join(parts, sep)
    decreases |parts|
  {
    if |parts| > 1 {
      JoinAvoids(parts[1..], sep, c);
    }
  }

  /** A join whose last part is not empty ends with that part's last character. */
  lemma {:induction false} JoinEnd(parts: seq<string>, sep: char)
    requires |parts| >= 1 && parts[|parts| - 1] != []
    ensures var j := Join(parts, sep); j != [] && j[|j| - 1] == parts[|parts| - 1][|parts[|parts| - 1]| - 1]
    decreases |parts|
  {
    if |parts| > 1 {
      JoinEnd(parts[1..], sep);
    }
  }

  /** line_iterator gives back the lines of a '\n'-join, provided they hold
      no line terminators and the last one is not empty. */
  lemma LineIteratorOfJoin(lines: seq<string>)
    requires |lines| >= 1 && lines[|lines| - 1] != []
    requires forall i :: 0 <= i < |lines| ==> '\n' !in lines[i] && '\r' !in lines[i]
    ensures LineIterator(Join(lines, '\n')) == lines
  {
    var text := Join(lines, '\n');
    JoinAvoids(lines, '\n', '\r');
    JoinEnd(lines, '\n');
    LineIteratorIsSplit(text);
    assert LinesAreSplit(text);
    assert text != [] && text[|text| - 1] != '\n';
    assert LineIterator(text) == SplitOn(text, '\n');
    SplitOnJoin(lines, '\n');
  }

  /** The first line of the iterator is the text up to the first '\n'. */
  lemma LineIteratorStep(text: string, i: nat)
    requires '\r' !in text
    requires FirstIndex(text, '\n') == Some(i)
    ensures LineIterator(text) == [text[..i]] + LineIterator(text[i + 1..])
  {
    StreamLinesStep(text, i);
    StripFirstLine(text, i);
    StripLineEndsCons(text[..i + 1], StreamLines(text[i + 1..]));
  }

  /** Stripping the first stream line gives the text before the first '\n'. */
  lemma StripFirstLine(text: string, i: nat)
    requires '\r' !in text
    requires FirstIndex(text, '\n') == Some(i)
    ensures StripLineEnd(text[..i + 1]) == text[..i]
  {
    assert text[..i + 1][..i] == text[..i];
    assert StripLineEnd(text[..i]) == text[..i];
  }

  lemma StripLineEndsCons(line: string, raw: seq<string>)
    ensures StripLineEnds([line] + raw) == [StripLineEnd(line)] + StripLineEnds(raw)
  {
    assert ([line] + raw)[1..] == raw;
  }

  // ------------------------------------------------------------ whitespace

  /** The characters `str.split()`, `str.strip()` and `str.rstrip()` treat
      as whitespace (those for which `str.isspace()` holds): the ASCII
      controls \t to \r and \x1c to \x1f, the space, and the Unicode
      spaces and line or paragraph separators. */
  predicate IsSpace(c: char)
  {
    || '\t' <= c <= '\r'
    || '\U{001C}' <= c <= ' '
    || c == '\U{0085}' || c == '\U{00A0}' || c == '\U{1680}'
    || '\U{2000}' <= c <= '\U{200A}'
    || c == '\U{2028}' || c == '\U{2029}' || c == '\U{202F}' || c == '\U{205F}' || c == '\U{3000}'
  }

  /** `s.rstrip()`. */
  function RStrip(s: string): (r: string)
    ensures r <= s
    ensures r == [] || !IsSpace(r[|r| - 1])
    ensures forall i :: |r| <= i < |s| ==> IsSpace(s[i])
  {
    if |s| > 0 && IsSpace(s[|s| - 1]) then RStrip(s[..|s| - 1]) else s
  }

  /** `s.split()`: the maximal runs of non-whitespace characters. */
  function SplitWhitespace(s: string): (r: seq<string>)
    ensures forall i :: 0 <= i < |r| ==> r[i] != [] && forall j :: 0 <= j < |r[i]| ==> !IsSpace(r[i][j])
    decreases |s|
  {
    if |s| == 0 then []
    else if IsSpace(s[0]) then SplitWhitespace(s[1..])
    else
      var rest := SplitWhitespace(s[1..]);
      if |s| > 1 && !IsSpace(s[1]) then [[s[0]] + rest[0]] + rest[1..]
      else [[s[0]]] + rest
  }

  /** The non-whitespace characters of `s`, in order. */
  function NonSpace(s: string): string
  {
    if |s| == 0 then "" else (if IsSpace(s[0]) then "" else [s[0]]) + NonSpace(s[1..])
  }

  /** The tokens of `s.split()` hold exactly the non-whitespace characters of
      `s`, in order, and a non-blank token starts the list exactly when `s`
      (after leading blanks) starts with it. */
  lemma {:induction false} SplitWhitespaceKeepsText(s: string)
    ensures Concat(SplitWhitespace(s)) == NonSpace(s)
    ensures |s| > 0 && !IsSpace(s[0]) ==> |SplitWhitespace(s)| > 0 && SplitWhitespace(s)[0][0] == s[0]
    decreases |s|
  {
    if |s| > 0 {
      SplitWhitespaceKeepsText(s[1..]);
      var rest := SplitWhitespace(s[1..]);
      if !IsSpace(s[0]) && |s| > 1 && !IsSpace(s[1]) {
        assert Concat([[s[0]] + rest[0]] + rest[1..]) == [s[0]] + rest[0] + Concat(rest[1..]);
        assert Concat(rest) == rest[0] + Concat(rest[1..]);
      } else if !IsSpace(s[0]) {
        assert Concat([[s[0]]] + rest) == [s[0]] + Concat(rest);
      }
    }
  }

  // --------------------------------------------------------------- decimals

  /** The ASCII decimal digits; the other Unicode decimal digits, which `\d`
      and `int()` also accept, are not modelled. */
  predicate IsDigit(c: char) { '0' <= c <= '9' }

  predicate AllDigits(s: string) { forall i :: 0 <= i < |s| ==> IsDigit(s[i]) }

  function DigitValue(c: char): (d: nat)
    requires IsDigit(c)
    ensures d < 10
  {
    (c as int - '0' as int) as nat
  }

  function DigitChar(d: nat): (c: char)
    requires d < 10
    ensures IsDigit(c) && DigitValue(c) == d
  {
    ('0' as int + d) as char
  }

  /** The number a string of decimal digits spells, most significant first. */
  function DigitsValue(s: string): nat
    requires AllDigits(s)
  {
    if |s| == 0 then 0 else 10 * DigitsValue(s[..|s| - 1]) + DigitValue(s[|s| - 1])
  }

  function Pow10(k: nat): (r: nat)
    ensures r >= 1
  {
    if k == 0 then 1 else 10 * Pow10(k - 1)
  }

  /** The number of digits of `str(n)`, which is what `int(log10(n)) + 1`
      computes for a positive `n`. */
  function DecimalLength(n: nat): (r: nat)
    ensures r >= 1
  {
    if n < 10 then 1 else 1 + DecimalLength(n / 10)
  }

  /** The decimal length of a positive number is the k with 10^(k-1) <= n < 10^k. */
  lemma {:induction false} DecimalLengthBounds(n: nat)
    ensures n < Pow10(DecimalLength(n))
    ensures n >= 1 ==> Pow10(DecimalLength(n) - 1) <= n
  {
    if n >= 10 {
      DecimalLengthBounds(n / 10);
    }
  }

  /** Conversely, the bounds determine the decimal length. */
  lemma {:induction false} DecimalLengthOf(n: nat, k: nat)
    requires 1 <= k && Pow10(k - 1) <= n < Pow10(k)
    ensures DecimalLength(n) == k
  {
    if k > 1 {
      DecimalLengthOf(n / 10, k - 1);
    }
  }

  /** `str(n)` for a natural number. */
  function NatToString(n: nat): (r: string)
    ensures |r| == DecimalLength(n)
    ensures AllDigits(r)
  {
    if n < 10 then [DigitChar(n)] else NatToString(n / 10) + [DigitChar(n % 10)]
  }

  /** Printing then reading a number gives it back, and the printed form has
      no leading zero. */
  lemma {:induction false} NatToStringRoundTrip(n: nat)
    ensures DigitsValue(NatToString(n)) == n
    ensures n >= 10 ==> NatToString(n)[0] != '0'
  {
    if n >= 10 {
      NatToStringRoundTrip(n / 10);
      var s := NatToString(n);
      assert s[..|s| - 1] == NatToString(n / 10);
    }
  }

  /** `int(s)` on a string that holds only decimal digits (an optional sign
      is handled by ParseInt). */
  function ParseNat(s: string): (r: Option<nat>)
    ensures r.Some? <==> (|s| > 0 && AllDigits(s))
  {
    if |s| > 0 && AllDigits(s) then Some(DigitsValue(s)) else None
  }

  /** `int(s)`: an optional '+' or '-' followed by at least one digit. */
  function ParseInt(s: string): (r: Option<int>)
    ensures r.Some? <==> (|s| > 0 && ParseNat(if s[0] == '+' || s[0] == '-' then s[1..] else s).Some?)
    ensures r.Some? && |s| > 0 && s[0] == '-' ==> r.value <= 0
    ensures r.Some? && |s| > 0 && s[0] != '-' ==> r.value >= 0
  {
    if |s| == 0 then None
    else
      var digits := if s[0] == '+' || s[0] == '-' then s[1..] else s;
      match ParseNat(digits)
      case None => None
      case Some(v) => Option<int>.Some(if s[0] == '-' then -(v as int) else v)
  }

  /** `int(str(n))` is `n`. */
  lemma ParseIntOfString(n: nat)
    ensures ParseInt(NatToString(n)) == Some(n)
  {
    NatToStringRoundTrip(n);
    var s := NatToString(n);
    assert IsDigit(s[0]);
  }

  /** `str(n)` for any integer: a '-' before the digits of a negative one. */
  function IntToString(n: int): (r: string)
    ensures r != [] && forall i :: 0 <= i < |r| ==> !IsSpace(r[i])
  {
    if n < 0 then "-" + NatToString(-n) else NatToString(n)
  }

  /** `int(str(n))` is `n` for every integer. */
  lemma ParseIntOfIntString(n: int)
    ensures ParseInt(IntToString(n)) == Some(n)
  {
    if n < 0 {
      var s := IntToString(n);
      NatToStringRoundTrip(-n);
      assert s[1..] == NatToString(-n);
    } else {
      ParseIntOfString(n);
    }
  }

  /** A printed integer holds no comma. */
  lemma NoComma(n: int)
    ensures ',' !in IntToString(n)
  {
    var digits := NatToString(if n < 0 then -n else n);
    assert ',' !in digits by {
      assert forall i :: 0 <= i < |digits| ==> IsDigit(digits[i]);
    }
  }

  /** A word followed by whitespace, or by nothing, is split off whole. */
  lemma {:induction false} SplitWhitespaceWord(word: string, rest: string)
    requires word != [] && forall i :: 0 <= i < |word| ==> !IsSpace(word[i])
    requires rest == [] || IsSpace(rest[0])
    ensures SplitWhitespace(word + rest) == [word] + SplitWhitespace(rest)
    decreases |word|
  {
    var s := word + rest;
    assert s[1..] == word[1..] + rest;
    if |word| > 1 {
      SplitWhitespaceWord(word[1..], rest);
      assert s[1] == word[1];
      assert [s[0]] + word[1..] == word;
    } else {
      assert word == [s[0]];
    }
  }

  /** `' '.join(words).split()` gives the words back when none is empty or
      holds whitespace. */
  lemma {:induction false} SplitWhitespaceJoin(words: seq<string>)
    requires forall k :: 0 <= k < |words| ==> words[k] != [] && forall i :: 0 <= i < |words[k]| ==> !IsSpace(words[k][i])
    ensures SplitWhitespace(Join(words, ' ')) == words
    decreases |words|
  {
    if |words| == 1 {
      SplitWhitespaceWord(words[0], "");
      assert words[0] + "" == words[0];
    } else if |words| > 1 {
      var tail := Join(words[1..], ' ');
      SplitWhitespaceJoin(words[1..]);
      assert Join(words, ' ') == words[0] + ([' '] + tail);
      SplitWhitespaceWord(words[0], [' '] + tail);
      assert ([' '] + tail)[1..] == tail;
      assert words == [words[0]] + words[1..];
    }
  }
}
