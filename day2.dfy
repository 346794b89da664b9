/** Day 2: product-id ranges. An id is invalid in part 1 when its decimal
    form is some block written twice, and in part 2 when it is some block
    written two or more times; each part sums the invalid ids of all ranges. */
module Day2 {
  import opened Wrappers
  import opened Text
  import opened Arith

  /** The conditions the puzzle code raises. */
  datatype Error =
    | KeyError         // `iter_divs(0)` removes a divisor that was never added
    | MathDomainError  // `log10(0)` for a range bound of 0
    | IncompleteBatch  // `batched(..., strict=True)` meets a short batch
    | NoMatch          // a range piece that is not `<digits>-<digits>`

  // ============================================================ divisors

  /** `int(sqrt(n))`, the integer square root (exact here). */
  function ISqrt(n: nat): (r: nat)
    ensures r * r <= n < (r + 1) * (r + 1)
  {
    ISqrtFrom(n, 0)
  }

  function ISqrtFrom(n: nat, r: nat): (s: nat)
    requires r * r <= n
    ensures s * s <= n < (s + 1) * (s + 1)
    decreases n - r * r
  {
    if (r + 1) * (r + 1) <= n then ISqrtFrom(n, r + 1) else r
  }

  ghost predicate Divides(d: nat, n: nat)
  {
    d >= 1 && n % d == 0
  }

  /** The ascending enumeration of the members of `s` below `b`: `sorted` on
      a finite set of naturals. */
  function AscendingBelow(s: set<nat>, b: nat): (r: seq<nat>)
    ensures forall i, j :: 0 <= i < j < |r| ==> r[i] < r[j]
    ensures forall x :: x in r <==> x in s && x < b
  {
    if b == 0 then []
    else
      var prev := AscendingBelow(s, b - 1);
      assert forall i :: 0 <= i < |prev| ==> prev[i] in prev;
      prev + (if b - 1 in s then [b - 1] else [])
  }

  /** The co-divisor of a divisor is a divisor, and it pairs back. */
  lemma CoDivisor(n: nat, d: nat)
    requires n >= 1 && Divides(d, n)
    ensures Divides(n / d, n) && n / (n / d) == d && n / d <= n
  {
    var q := n / d;
    assert n == d * q;
    assert q >= 1;
    assert q * d == n;
    DivModUnique(n, q, d, 0);
  }

  lemma MulAtLeast(a: nat, b: nat, c: nat)
    requires a >= c && b >= c
    ensures a * b >= c * c
  {
    assert a * b >= c * b;
    assert c * b >= c * c;
  }

  /** Of a divisor pair, one member is at most the integer square root. */
  lemma SmallHalf(n: nat, e: nat, root: nat)
    requires n >= 1 && Divides(e, n) && n < (root + 1) * (root + 1)
    ensures e <= root || n / e <= root
  {
    var q := n / e;
    assert n == e * q;
    if e > root && q > root {
      MulAtLeast(e, q, root + 1);
    }
  }

  /** The divisors found once every candidate below d has been tried: each
      divisor e with e < d or num / e < d. */
  ghost predicate FoundBelow(num: nat, d: nat, divs: set<nat>)
  {
    forall e: nat :: e in divs <==> 1 <= e <= num && Divides(e, num) && (e < d || num / e < d)
  }

  /** One loop step of `iter_divs`: trying d adds d and its co-divisor. */
  lemma FoundStep(num: nat, d: nat, divs: set<nat>)
    requires 1 <= d && d * d <= num && FoundBelow(num, d, divs)
    ensures FoundBelow(num, d + 1, if num % d == 0 then divs + {d, num / d} else divs)
  {
    assert num >= 1 by {
      MulAtLeast(d, d, 1);
    }
    if num % d == 0 {
      CoDivisor(num, d);
      forall e: nat | 1 <= e <= num && Divides(e, num) && num / e == d
        ensures e == num / d
      {
        CoDivisor(num, e);
      }
    } else {
      forall e: nat | 1 <= e <= num && Divides(e, num)
        ensures e != d && num / e != d
      {
        CoDivisor(num, e);
      }
    }
  }

  /** After the candidates up to the integer square root every divisor is found. */
  lemma FoundAll(num: nat, root: nat, divs: set<nat>)
    requires num < (root + 1) * (root + 1) && FoundBelow(num, root + 1, divs)
    ensures forall e: nat :: e in divs <==> 1 <= e <= num && Divides(e, num)
  {
    forall e: nat | 1 <= e <= num && Divides(e, num)
      ensures e in divs
    {
      SmallHalf(num, e, root);
    }
  }

  /** `iter_divs(num)`: every divisor of num except num itself, ascending.
      For 0 no divisor is found and removing 0 raises. */
  method IterDivs(num: nat) returns (r: Result<seq<nat>, Error>)
    ensures r.Err? <==> num == 0
    ensures r.Err? ==> r.error == KeyError
    ensures r.Ok? ==> forall i, j :: 0 <= i < j < |r.value| ==> r.value[i] < r.value[j]
    ensures r.Ok? ==> forall x: nat :: x in r.value <==> Divides(x, num) && x < num
  {
    var divs: set<nat> := {};
    var root := ISqrt(num);
    for d := 1 to root + 1
      invariant FoundBelow(num, d, divs)
    {
      MulAtLeast(root, root, d);
      FoundStep(num, d, divs);
      if num % d == 0 {
        divs := divs + {d, num / d};
      }
    }
    FoundAll(num, root, divs);
    if num !in divs {
      return Err(KeyError);
    }
    divs := divs - {num};
    r := Ok(AscendingBelow(divs, num));
  }

  // ============================================================== ranges

  /** An inclusive id range; the pattern `\d+` makes both bounds naturals. */
  datatype IDRange = IDRange(min: nat, max: nat)

  /** The ids the range iterates over: `range(min, max + 1)`. */
  function Ids(r: IDRange): (ids: seq<nat>)
    ensures |ids| == if r.max < r.min then 0 else r.max - r.min + 1
    ensures forall x :: x in ids <==> r.min <= x <= r.max
    ensures forall i, j :: 0 <= i < j < |ids| ==> ids[i] < ids[j]
    decreases r.max - r.min
  {
    if r.max <= r.min then (if r.max < r.min then [] else [r.min])
    else
      var prev := Ids(IDRange(r.min, r.max - 1));
      assert forall i :: 0 <= i < |prev| ==> prev[i] in prev;
      prev + [r.max]
  }

  /** `digit_count`: the common decimal length of both bounds, or None when
      they differ; `log10(0)` raises for a zero bound. */
  function DigitCount(r: IDRange): (res: Result<Option<nat>, Error>)
    ensures res.Err? <==> r.min == 0 || r.max == 0
    ensures res.Err? ==> res.error == MathDomainError
    ensures res.Ok? ==> (res.value.None? <==> DecimalLength(r.min) != DecimalLength(r.max))
    ensures res.Ok? && res.value.Some? ==> res.value.value == DecimalLength(r.min) == DecimalLength(r.max)
  {
    if r.min == 0 || r.max == 0 then Err(MathDomainError)
    else if DecimalLength(r.min) != DecimalLength(r.max) then Ok(None)
    else Ok(Some(DecimalLength(r.min)))
  }

  /** Every id between two bounds of the same decimal length has that length. */
  lemma SameLengthBetween(lo: nat, hi: nat, pid: nat)
    requires 1 <= lo <= pid <= hi && DecimalLength(lo) == DecimalLength(hi)
    ensures DecimalLength(pid) == DecimalLength(lo)
  {
    DecimalLengthBounds(lo);
    DecimalLengthBounds(hi);
    DecimalLengthOf(pid, DecimalLength(lo));
  }

  // ============================================================= parsing

  /** `s` without any occurrence of `c` (`str.replace(c, '')`). */
  function RemoveAll(s: string, c: char): (r: string)
    ensures c !in r
    ensures forall x :: x != c ==> (x in r <==> x in s)
  {
    if |s| == 0 then "" else (if s[0] == c then "" else [s[0]]) + RemoveAll(s[1..], c)
  }

  /** The full match of `(\d+)-(\d+)`: two digit strings around one '-'. */
  function ParseRange(piece: string): (r: Option<IDRange>)
    ensures r.Some? <==> var parts := SplitOn(piece, '-');
              |parts| == 2 && ParseNat(parts[0]).Some? && ParseNat(parts[1]).Some?
  {
    var parts := SplitOn(piece, '-');
    if |parts| == 2 && ParseNat(parts[0]).Some? && ParseNat(parts[1]).Some?
    then Some(IDRange(ParseNat(parts[0]).value, ParseNat(parts[1]).value))
    else None
  }

  /** The comma-separated pieces of the input once its newlines are gone. */
  function Pieces(input: string): seq<string>
  {
    SplitOn(RemoveAll(input, '\n'), ',')
  }

  /** `parse_input`: newlines dropped, comma-separated pieces, one range each. */
  method ParseInput(input: string) returns (r: Result<seq<IDRange>, Error>)
    ensures r.Ok? <==> forall i :: 0 <= i < |Pieces(input)| ==> ParseRange(Pieces(input)[i]).Some?
    ensures r.Ok? ==> |r.value| == |Pieces(input)|
    ensures r.Ok? ==> forall i :: 0 <= i < |r.value| ==> Some(r.value[i]) == ParseRange(Pieces(input)[i])
    ensures r.Err? ==> r.error == NoMatch
  {
    r := ParsePieces(Pieces(input));
  }

  /** The loop of `parse_input` over the comma-separated pieces. */
  method ParsePieces(pieces: seq<string>) returns (r: Result<seq<IDRange>, Error>)
    ensures r.Ok? <==> forall i :: 0 <= i < |pieces| ==> ParseRange(pieces[i]).Some?
    ensures r.Ok? ==> |r.value| == |pieces|
    ensures r.Ok? ==> forall i :: 0 <= i < |r.value| ==> Some(r.value[i]) == ParseRange(pieces[i])
    ensures r.Err? ==> r.error == NoMatch
  {
    var ranges: seq<IDRange> := [];
    for i := 0 to |pieces|
      invariant |ranges| == i
      invariant forall k :: 0 <= k < i ==> Some(ranges[k]) == ParseRange(pieces[k])
    {
      var parsed := ParseRange(pieces[i]);
      if parsed.None? {
        return Err(NoMatch);
      }
      ranges := ranges + [parsed.value];
    }
    r := Ok(ranges);
  }

  function FormatRange(r: IDRange): string
  {
    NatToString(r.min) + "-" + NatToString(r.max)
  }

  /** A digit string holds neither separator. */
  lemma DigitsHaveNoSeparator(s: string)
    requires AllDigits(s)
    ensures '-' !in s && ',' !in s && '\n' !in s
  {
  }

  /** Reading a written range gives it back. */
  lemma ParseFormatRange(r: IDRange)
    ensures ParseRange(FormatRange(r)) == Some(r)
  {
    var a, b := NatToString(r.min), NatToString(r.max);
    DigitsHaveNoSeparator(a);
    DigitsHaveNoSeparator(b);
    assert FormatRange(r) == Join([a, b], '-');
    SplitOnJoin([a, b], '-');
    ParseIntOfString(r.min);
    ParseIntOfString(r.max);
    NatToStringRoundTrip(r.min);
    NatToStringRoundTrip(r.max);
  }

  /** A comma-separated list of written ranges is read back piece by piece
      into the same ranges. */
  lemma ParseFormatInput(ranges: seq<IDRange>)
    requires |ranges| >= 1
    ensures var pieces := Pieces(Join(FormatPieces(ranges), ','));
            |pieces| == |ranges| && forall i :: 0 <= i < |ranges| ==> ParseRange(pieces[i]) == Some(ranges[i])
  {
    var formatted := FormatPieces(ranges);
    forall i | 0 <= i < |formatted|
      ensures ',' !in formatted[i] && '\n' !in formatted[i]
    {
      DigitsHaveNoSeparator(NatToString(ranges[i].min));
      DigitsHaveNoSeparator(NatToString(ranges[i].max));
    }
    var text := Join(formatted, ',');
    JoinAvoids(formatted, ',', '\n');
    RemoveAllAbsent(text, '\n');
    SplitOnJoin(formatted, ',');
    forall i | 0 <= i < |ranges|
      ensures ParseRange(formatted[i]) == Some(ranges[i])
    {
      ParseFormatRange(ranges[i]);
    }
  }

  function FormatPieces(ranges: seq<IDRange>): (r: seq<string>)
    ensures |r| == |ranges|
    ensures forall i :: 0 <= i < |ranges| ==> r[i] == FormatRange(ranges[i])
  {
    seq(|ranges|, i requires 0 <= i < |ranges| => FormatRange(ranges[i]))
  }

  /** Removing a character that does not occur changes nothing. */
  lemma {:induction false} RemoveAllAbsent(s: string, c: char)
    requires c !in s
    ensures RemoveAll(s, c) == s
    decreases |s|
  {
    if |s| > 0 {
      RemoveAllAbsent(s[1..], c);
    }
  }

  // ========================================================= decimal form

  /** The k least significant decimal digits of n, zero-padded, most
      significant first. */
  function Padded(n: nat, k: nat): (r: string)
    ensures |r| == k && AllDigits(r)
  {
    if k == 0 then [] else Padded(n / 10, k - 1) + [DigitChar(n % 10)]
  }

  lemma {:induction false} NatToStringIsPadded(n: nat)
    ensures NatToString(n) == Padded(n, DecimalLength(n))
  {
    if n >= 10 {
      NatToStringIsPadded(n / 10);
    }
  }

  lemma DivDiv(n: nat, a: nat, b: nat)
    requires a > 0 && b > 0
    ensures n / a / b == n / (a * b)
    ensures (n % (a * b)) / a == (n / a) % b
    ensures (n % (a * b)) % a == n % a
  {
    var q1, r1 := n / a, n % a;
    var q2, r2 := q1 / b, q1 % b;
    assert n == (a * b) * q2 + (a * r2 + r1);
    assert a * r2 + r1 < a * b by {
      assert a * r2 <= a * (b - 1);
    }
    DivModUnique(n, a * b, q2, a * r2 + r1);
    DivModUnique(a * r2 + r1, a, r2, r1);
  }

  /** Padded digits of a number and of a number with the same last digit
      and the same number above it agree. */
  lemma PaddedStep(n: nat, k: nat)
    requires k >= 1
    ensures Padded(n, k) == Padded(n / 10, k - 1) + [DigitChar(n % 10)]
  {
  }

  /** The digits of n above the last b, and the last b. */
  function High(n: nat, b: nat): nat
  {
    var p: int := Pow10(b);
    assert 0 < p;
    var q: int := n / p;
    assert 0 <= q by { DivNonNegative(n, p); }
    q
  }

  lemma DivNonNegative(n: nat, p: int)
    requires 0 < p
    ensures 0 <= n / p
  {
  }

  function Low(n: nat, b: nat): (r: nat)
    ensures r < Pow10(b)
  {
    n % Pow10(b)
  }

  /** Dropping the last digit commutes with splitting at 10^b. */
  lemma SplitDigits(n: nat, b: nat)
    requires b >= 1
    ensures High(n, b) == High(n / 10, b - 1)
    ensures Low(n, b) / 10 == Low(n / 10, b - 1)
    ensures Low(n, b) % 10 == n % 10
  {
    DivDiv(n, 10, Pow10(b - 1));
  }

  /** Splitting the padded digits of n into a high and a low part. */
  lemma {:induction false} PaddedSplit(n: nat, a: nat, b: nat)
    ensures Padded(n, a + b) == Padded(High(n, b), a) + Padded(Low(n, b), b)
    decreases b
  {
    if b > 0 {
      var q: nat := n / 10;
      var last := [DigitChar(n % 10)];
      SplitDigits(n, b);
      PaddedSplit(q, a, b - 1);
      var k := a + (b - 1);
      assert a + b == k + 1;
      PaddedStep(n, k + 1);
      assert Padded(n, a + b) == Padded(q, k) + last;
      PaddedStep(Low(n, b), b);
      assert Padded(Low(n, b), b) == Padded(Low(q, b - 1), b - 1) + last;
    }
  }

  /** The padded digits spell n modulo 10^k. */
  lemma {:induction false} PaddedValue(n: nat, k: nat)
    ensures DigitsValue(Padded(n, k)) == Low(n, k)
    decreases k
  {
    if k > 0 {
      var q: nat := n / 10;
      PaddedValue(q, k - 1);
      var s := Padded(n, k);
      PaddedStep(n, k);
      assert s[..k - 1] == Padded(q, k - 1);
      SplitDigits(n, k);
      var m := Low(n, k);
      assert m == 10 * (m / 10) + m % 10;
    }
  }

  // =============================================================== part 1

  /** `is_invalid_p1(pid, digit_count)`. */
  function IsInvalidP1(pid: nat, digitCount: nat): bool
  {
    if digitCount % 2 != 0 then false
    else
      var div := Pow10(digitCount / 2);
      pid / div == pid % div
  }

  /** A string made of one block written twice. */
  predicate IsDoubled(s: string)
  {
    |s| % 2 == 0 && s[..|s| / 2] == s[|s| / 2..]
  }

  /** Below p * p the quotient by p is below p. */
  lemma DivBelow(x: nat, p: nat)
    requires p >= 1 && x < p * p
    ensures x / p < p
  {
    var q := x / p;
    assert x == p * q + x % p;
    if q >= p {
      MulAtLeast(p, q, p);
    }
  }

  /** The two halves of a decimal form of even length 2k are the padded
      digits of the high and the low k digits. */
  lemma Halves(pid: nat, k: nat)
    requires DecimalLength(pid) == 2 * k
    ensures NatToString(pid)[..k] == Padded(High(pid, k), k)
    ensures NatToString(pid)[k..] == Padded(Low(pid, k), k)
    ensures High(pid, k) < Pow10(k)
  {
    var hi, lo := Padded(High(pid, k), k), Padded(Low(pid, k), k);
    NatToStringIsPadded(pid);
    assert k + k == 2 * k;
    PaddedSplit(pid, k, k);
    assert NatToString(pid) == hi + lo;
    assert (hi + lo)[..k] == hi && (hi + lo)[k..] == lo;
    HighBelow(pid, k);
  }

  /** The upper half of a number with 2k digits has at most k digits. */
  lemma HighBelow(pid: nat, k: nat)
    requires DecimalLength(pid) == 2 * k
    ensures High(pid, k) < Pow10(k)
  {
    DecimalLengthBounds(pid);
    assert k + k == 2 * k;
    Pow10Sum(k, k);
    DivBelow(pid, Pow10(k));
  }

  /** With the id's own digit count, the arithmetic check says exactly that
      the decimal form is a block written twice. */
  lemma InvalidP1Meaning(pid: nat)
    ensures IsInvalidP1(pid, DecimalLength(pid)) <==> IsDoubled(NatToString(pid))
  {
    var s := NatToString(pid);
    var len := DecimalLength(pid);
    if len % 2 == 0 {
      var k := len / 2;
      Halves(pid, k);
      var hi, lo := High(pid, k), Low(pid, k);
      assert IsInvalidP1(pid, len) == (hi == lo);
      PaddedValue(hi, k);
      PaddedValue(lo, k);
      ModSmall(hi, Pow10(k));
      ModSmall(lo, Pow10(k));
      assert IsDoubled(s) == (s[..k] == s[k..]);
    }
  }

  lemma {:induction false} Pow10Sum(a: nat, b: nat)
    ensures Pow10(a + b) == Pow10(a) * Pow10(b)
    decreases b
  {
    if b > 0 {
      Pow10Sum(a, b - 1);
    }
  }

  lemma ModSmall(x: nat, m: nat)
    requires x < m
    ensures x % m == x
  {
    DivModUnique(x, m, 0, x);
  }

  // =============================================================== part 2

  /** Every index of s repeats the character d places before it: s is copies
      of its first d characters (the last copy possibly cut short). */
  ghost predicate Periodic(s: string, d: nat)
  {
    d >= 1 && forall i :: 0 <= i < |s| ==> s[i] == s[i % d]
  }

  /** s is two or more copies of one block. */
  ghost predicate IsRepeated(s: string)
  {
    exists d :: 1 <= d < |s| && |s| % d == 0 && Periodic(s, d)
  }

  /** `all(b == first for b in batches)` over the batches after the first,
      with strict batching: a short final batch raises, but only when every
      earlier batch matched, since `all` stops at the first mismatch. */
  function MatchBlocks(first: string, rest: string): (r: Result<bool, Error>)
    requires |first| >= 1
    decreases |rest|
  {
    if |rest| == 0 then Ok(true)
    else if |rest| < |first| then Err(IncompleteBatch)
    else if rest[..|first|] == first then MatchBlocks(first, rest[|first|..])
    else Ok(false)
  }

  /** The batch check of one divisor d: the first batch (which raises when
      the string is shorter than d) against all later ones. */
  function BatchesMatch(s: string, d: nat): Result<bool, Error>
    requires d >= 1
  {
    if |s| < d then Err(IncompleteBatch) else MatchBlocks(s[..d], s[d..])
  }

  /** Every character of `rest` repeats `first` cyclically. */
  ghost predicate FollowsBlock(rest: string, first: string)
    requires |first| >= 1
  {
    forall i :: 0 <= i < |rest| ==> rest[i] == first[i % |first|]
  }

  /** Indices one block apart have the same remainder. */
  lemma ModShift(i: nat, d: nat)
    requires d >= 1 && i >= d
    ensures (i - d) % d == i % d
  {
    DivModUnique(i - d, d, i / d - 1, i % d);
  }

  /** `rest` follows the block exactly when its first block is the block
      and the remainder follows it too. */
  lemma FollowsBlockStep(first: string, rest: string)
    requires 1 <= |first| <= |rest|
    ensures FollowsBlock(rest, first) <==>
              rest[..|first|] == first && FollowsBlock(rest[|first|..], first)
  {
    var d := |first|;
    forall i | 0 <= i < d
      ensures i % d == i
    {
      ModSmall(i, d);
    }
    if rest[..d] == first && FollowsBlock(rest[d..], first) {
      forall i | d <= i < |rest|
        ensures rest[i] == first[i % d]
      {
        ModShift(i, d);
        assert rest[i] == rest[d..][i - d];
      }
    }
    if FollowsBlock(rest, first) {
      forall i | 0 <= i < |rest| - d
        ensures rest[d..][i] == first[i % d]
      {
        ModShift(i + d, d);
      }
    }
  }

  /** When the block length divides the length, the batch check never
      raises and says whether every character follows the block. */
  lemma {:induction false} MatchBlocksFollows(first: string, rest: string)
    requires |first| >= 1 && |rest| % |first| == 0
    ensures MatchBlocks(first, rest) == Ok(FollowsBlock(rest, first))
    decreases |rest|
  {
    var d := |first|;
    if |rest| > 0 {
      assert |rest| >= d by {
        if |rest| < d {
          ModSmall(|rest|, d);
        }
      }
      assert |rest[d..]| % d == 0 by {
        DivModUnique(|rest| - d, d, |rest| / d - 1, 0);
      }
      MatchBlocksFollows(first, rest[d..]);
      FollowsBlockStep(first, rest);
    }
  }

  /** A string is periodic with period d exactly when everything after its
      first d characters follows them. */
  lemma PeriodicFollows(s: string, d: nat)
    requires 1 <= d <= |s|
    ensures Periodic(s, d) <==> FollowsBlock(s[d..], s[..d])
  {
    forall i | 0 <= i < d
      ensures i % d == i
    {
      ModSmall(i, d);
    }
    if FollowsBlock(s[d..], s[..d]) {
      forall i | d <= i < |s|
        ensures s[i] == s[i % d]
      {
        ModShift(i, d);
        assert s[i] == s[d..][i - d];
      }
    }
    if Periodic(s, d) {
      forall i | 0 <= i < |s| - d
        ensures s[d..][i] == s[..d][i % d]
      {
        ModShift(i + d, d);
      }
    }
  }

  /** For a divisor of the length, the batch check is periodicity. */
  lemma BatchesMatchPeriodic(s: string, d: nat)
    requires 1 <= d <= |s| && |s| % d == 0
    ensures BatchesMatch(s, d) == Ok(Periodic(s, d))
  {
    assert |s[d..]| % d == 0 by {
      DivModUnique(|s| - d, d, |s| / d - 1, 0);
    }
    MatchBlocksFollows(s[..d], s[d..]);
    PeriodicFollows(s, d);
  }

  /** `is_invalid_p2(pid, digit_count)`: tries the proper divisors of the
      digit count in ascending order as block lengths. */
  method IsInvalidP2(pid: nat, digitCount: nat) returns (r: Result<bool, Error>)
    ensures digitCount == 0 ==> r == Err(KeyError)
    ensures digitCount == DecimalLength(pid) ==> r == Ok(IsRepeated(NatToString(pid)))
  {
    var s := NatToString(pid);
    var divs := IterDivs(digitCount);
    if divs.Err? {
      return Err(divs.error);
    }
    var ds := divs.value;
    for i := 0 to |ds|
      invariant digitCount == |s| ==> forall k :: 0 <= k < i ==> !Periodic(s, ds[k])
    {
      assert ds[i] in ds;
      var check := BatchesMatch(s, ds[i]);
      if digitCount == |s| {
        BatchesMatchPeriodic(s, ds[i]);
      }
      if check.Err? {
        return Err(check.error);
      }
      if check.value {
        return Ok(true);
      }
    }
    if digitCount == |s| {
      forall d | 1 <= d < |s| && |s| % d == 0
        ensures !Periodic(s, d)
      {
        assert d in ds;
      }
    }
    r := Ok(false);
  }

  /** An id doubled in the sense of part 1 is also repeated in the sense of
      part 2, so part 2 never sums less than part 1. */
  lemma DoubledIsRepeated(s: string)
    requires |s| >= 2 && IsDoubled(s)
    ensures IsRepeated(s)
  {
    var k := |s| / 2;
    assert |s| == 2 * k;
    DivModUnique(|s|, k, 2, 0);
    forall i | 0 <= i < |s|
      ensures s[i] == s[i % k]
    {
      if i < k {
        ModSmall(i, k);
      } else {
        DivModUnique(i, k, 1, i - k);
        assert s[i] == s[k..][i - k] == s[..k][i - k];
      }
    }
    assert Periodic(s, k);
  }

  // =============================================================== solves

  /** The sum of the ids in [lo, hi] that `invalid` marks. */
  ghost function RangeSum(lo: nat, hi: int, invalid: nat -> bool): nat
    decreases hi - lo
  {
    if hi < lo then 0 else RangeSum(lo, hi - 1, invalid) + (if invalid(hi) then hi else 0)
  }

  /** The sum over all ranges, each id counted once per range holding it. */
  ghost function TotalSum(ranges: seq<IDRange>, invalid: nat -> bool): nat
  {
    if |ranges| == 0 then 0
    else TotalSum(ranges[..|ranges| - 1], invalid) + RangeSum(ranges[|ranges| - 1].min, ranges[|ranges| - 1].max, invalid)
  }

  ghost function DoubledId(pid: nat): bool { IsDoubled(NatToString(pid)) }

  ghost function RepeatedId(pid: nat): bool { IsRepeated(NatToString(pid)) }

  /** Some range has a zero bound, which makes `digit_count` raise. */
  predicate HasZeroBound(ranges: seq<IDRange>)
  {
    exists i :: 0 <= i < |ranges| && (ranges[i].min == 0 || ranges[i].max == 0)
  }

  /** The inner loop of `solve_part1`: the part 1 ids of one range, with the
      digit count worked out once for the range. */
  method RangeDoubledSum(rang: IDRange, dc: Result<Option<nat>, Error>) returns (res: nat)
    requires dc == DigitCount(rang) && dc.Ok?
    ensures res == RangeSum(rang.min, rang.max, DoubledId)
  {
    res := 0;
    var pid := rang.min;
    while pid <= rang.max
      invariant rang.min <= pid <= rang.max + 1 || (rang.max < rang.min && pid == rang.min)
      invariant res == RangeSum(rang.min, pid - 1, DoubledId)
    {
      var digits := if dc.value.None? then DecimalLength(pid) else dc.value.value;
      if dc.value.Some? {
        SameLengthBetween(rang.min, rang.max, pid);
      }
      InvalidP1Meaning(pid);
      if IsInvalidP1(pid, digits) {
        res := res + pid;
      }
      pid := pid + 1;
    }
  }

  /** The inner loop of `solve_part2`. */
  method RangeRepeatedSum(rang: IDRange, dc: Result<Option<nat>, Error>) returns (res: nat)
    requires dc == DigitCount(rang) && dc.Ok?
    ensures res == RangeSum(rang.min, rang.max, RepeatedId)
  {
    res := 0;
    var pid := rang.min;
    while pid <= rang.max
      invariant rang.min <= pid <= rang.max + 1 || (rang.max < rang.min && pid == rang.min)
      invariant res == RangeSum(rang.min, pid - 1, RepeatedId)
    {
      var digits := if dc.value.None? then DecimalLength(pid) else dc.value.value;
      if dc.value.Some? {
        SameLengthBetween(rang.min, rang.max, pid);
      }
      var invalid := IsInvalidP2(pid, digits);
      if invalid.Err? {
        assert false;
      }
      if invalid.value {
        res := res + pid;
      }
      pid := pid + 1;
    }
  }

  /** `solve_part1`. */
  method SolvePart1(ranges: seq<IDRange>) returns (r: Result<nat, Error>)
    ensures r.Err? <==> HasZeroBound(ranges)
    ensures r.Ok? ==> r.value == TotalSum(ranges, DoubledId)
  {
    var res: nat := 0;
    for i := 0 to |ranges|
      invariant !HasZeroBound(ranges[..i])
      invariant res == TotalSum(ranges[..i], DoubledId)
    {
      var rang := ranges[i];
      assert ranges[..i + 1][..i] == ranges[..i];
      var dc := DigitCount(rang);
      if dc.Err? {
        assert ranges[i].min == 0 || ranges[i].max == 0;
        return Err(dc.error);
      }
      var sum := RangeDoubledSum(rang, dc);
      res := res + sum;
      assert !HasZeroBound(ranges[..i + 1]) by {
        assert forall k :: 0 <= k < i + 1 ==> ranges[..i + 1][k] == ranges[k];
      }
    }
    assert ranges[..|ranges|] == ranges;
    r := Ok(res);
  }

  /** `solve_part2`: as part 1 with the part 2 check; the check's own
      errors cannot arise here, since every id is checked with its own digit
      count. */
  method SolvePart2(ranges: seq<IDRange>) returns (r: Result<nat, Error>)
    ensures r.Err? <==> HasZeroBound(ranges)
    ensures r.Err? ==> r.error == MathDomainError
    ensures r.Ok? ==> r.value == TotalSum(ranges, RepeatedId)
  {
    var res: nat := 0;
    for i := 0 to |ranges|
      invariant !HasZeroBound(ranges[..i])
      invariant res == TotalSum(ranges[..i], RepeatedId)
    {
      var rang := ranges[i];
      assert ranges[..i + 1][..i] == ranges[..i];
      var dc := DigitCount(rang);
      if dc.Err? {
        assert ranges[i].min == 0 || ranges[i].max == 0;
        return Err(dc.error);
      }
      var sum := RangeRepeatedSum(rang, dc);
      res := res + sum;
      assert !HasZeroBound(ranges[..i + 1]) by {
        assert forall k :: 0 <= k < i + 1 ==> ranges[..i + 1][k] == ranges[k];
      }
    }
    assert ranges[..|ranges|] == ranges;
    r := Ok(res);
  }

  /** Every id doubled for part 1 is repeated for part 2. */
  lemma DoubledIdIsRepeated(pid: nat)
    ensures DoubledId(pid) ==> RepeatedId(pid)
  {
    var s := NatToString(pid);
    if IsDoubled(s) {
      DoubledIsRepeated(s);
    }
  }

  lemma {:induction false} RangeSumMonotone(lo: nat, hi: int)
    ensures RangeSum(lo, hi, DoubledId) <= RangeSum(lo, hi, RepeatedId)
    decreases hi - lo
  {
    if hi >= lo {
      RangeSumMonotone(lo, hi - 1);
      DoubledIdIsRepeated(hi);
    }
  }

  /** The part 2 answer is never below the part 1 answer. */
  lemma {:induction false} Part2AtLeastPart1(ranges: seq<IDRange>)
    ensures TotalSum(ranges, DoubledId) <= TotalSum(ranges, RepeatedId)
    decreases |ranges|
  {
    if |ranges| > 0 {
      Part2AtLeastPart1(ranges[..|ranges| - 1]);
      RangeSumMonotone(ranges[|ranges| - 1].min, ranges[|ranges| - 1].max);
    }
  }
}
