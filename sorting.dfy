/** Python's `sorted(iterable, key=...)` and `heapq.nsmallest(n, iterable,
    key=...)` on integer keys. Both are stable; here that is an insertion
    sort that puts each element after every earlier one whose key is not
    larger. */
module Sorting {

  /** xs is ascending by key. */
  predicate SortedBy<T>(xs: seq<T>, key: T -> int)
  {
    forall i, j :: 0 <= i < j < |xs| ==> key(xs[i]) <= key(xs[j])
  }

  /** x placed into the ascending sequence s after every element whose key
      is at most its own. */
  function Insert<T>(s: seq<T>, x: T, key: T -> int): (r: seq<T>)
    ensures |r| == |s| + 1
    decreases |s|
  {
    if |s| == 0 then [x]
    else if key(s[|s| - 1]) <= key(x) then s + [x]
    else Insert(s[..|s| - 1], x, key) + [s[|s| - 1]]
  }

  /** Inserting into an ascending sequence adds x to its elements and keeps
      it ascending. */
  lemma {:induction false} InsertMeaning<T>(s: seq<T>, x: T, key: T -> int)
    requires SortedBy(s, key)
    ensures multiset(Insert(s, x, key)) == multiset(s) + multiset{x}
    ensures SortedBy(Insert(s, x, key), key)
    decreases |s|
  {
    if |s| > 0 {
      var init, last := s[..|s| - 1], s[|s| - 1];
      assert s == init + [last];
      if key(last) <= key(x) {
        SortedAppend(s, x, key);
      } else {
        InsertMeaning(init, x, key);
        var m := Insert(init, x, key);
        InsertBelow(init, x, last, m, key);
        SortedAppend(m, last, key);
      }
    }
  }

  /** An element whose key is at least the last key can go at the end. */
  lemma SortedAppend<T>(s: seq<T>, y: T, key: T -> int)
    requires SortedBy(s, key) && (|s| == 0 || key(s[|s| - 1]) <= key(y))
    ensures SortedBy(s + [y], key)
  {
  }

  /** Elements drawn from an ascending sequence ending before `last`, and
      from x with a smaller key, have keys at most `last`'s. */
  lemma InsertBelow<T>(init: seq<T>, x: T, last: T, m: seq<T>, key: T -> int)
    requires SortedBy(init + [last], key) && key(x) < key(last)
    requires multiset(m) == multiset(init) + multiset{x}
    ensures |m| == 0 || key(m[|m| - 1]) <= key(last)
  {
    if |m| > 0 {
      var y := m[|m| - 1];
      assert y in multiset(init) + multiset{x};
      if y != x {
        var j :| 0 <= j < |init| && init[j] == y;
        assert (init + [last])[j] == y && (init + [last])[|init|] == last;
      }
    }
  }

  /** `sorted(xs, key=key)`. */
  function SortBy<T>(xs: seq<T>, key: T -> int): (r: seq<T>)
    ensures |r| == |xs| && multiset(r) == multiset(xs)
    ensures SortedBy(r, key)
    decreases |xs|
  {
    if |xs| == 0 then []
    else
      var init, last := xs[..|xs| - 1], xs[|xs| - 1];
      assert xs == init + [last];
      InsertMeaning(SortBy(init, key), last, key);
      Insert(SortBy(init, key), last, key)
  }

  function Min(a: int, b: int): int { if a < b then a else b }

  /** `heapq.nsmallest(n, xs, key=key)`, which Python documents as
      `sorted(xs, key=key)[:n]`. */
  function Smallest<T>(xs: seq<T>, n: nat, key: T -> int): seq<T>
  {
    SortBy(xs, key)[..Min(n, |xs|)]
  }

  /** What `nsmallest` leaves behind. */
  function Rest<T>(xs: seq<T>, n: nat, key: T -> int): seq<T>
  {
    SortBy(xs, key)[Min(n, |xs|)..]
  }

  /** The n smallest are min(n, |xs|) elements of xs in ascending order;
      together with what is left behind they are the elements of xs, and
      no key left behind is smaller than a key taken. */
  lemma SmallestMeaning<T>(xs: seq<T>, n: nat, key: T -> int)
    ensures var r, rest := Smallest(xs, n, key), Rest(xs, n, key);
            && |r| == Min(n, |xs|) && SortedBy(r, key)
            && multiset(r) + multiset(rest) == multiset(xs)
            && forall i, j :: 0 <= i < |r| && 0 <= j < |rest| ==> key(r[i]) <= key(rest[j])
  {
    var s := SortBy(xs, key);
    var m := Min(n, |xs|);
    assert s == s[..m] + s[m..];
    forall i, j | 0 <= i < m && 0 <= j < |s| - m
      ensures key(s[..m][i]) <= key(s[m..][j])
    {
      assert s[..m][i] == s[i] && s[m..][j] == s[m + j];
    }
  }

  /** The n smallest of a sequence without repetitions: elements of it,
      without repetitions, ascending, and none left behind is smaller. */
  lemma SmallestOfDistinct<T>(xs: seq<T>, n: nat, key: T -> int)
    requires forall i, j :: 0 <= i < j < |xs| ==> xs[i] != xs[j]
    ensures var r := Smallest(xs, n, key);
            && |r| == Min(n, |xs|)
            && (forall i :: 0 <= i < |r| ==> r[i] in xs)
            && (forall i, j :: 0 <= i < j < |r| ==> r[i] != r[j] && key(r[i]) <= key(r[j]))
            && (forall y, i :: y in xs && y !in r && 0 <= i < |r| ==> key(r[i]) <= key(y))
  {
    SmallestMeaning(xs, n, key);
    var r := Smallest(xs, n, key);
    forall i | 0 <= i < |r|
      ensures r[i] in xs
    {
      assert r[i] in multiset(xs);
    }
    forall i, j | 0 <= i < j < |r|
      ensures r[i] != r[j]
    {
      UniqueInSub(xs, r, i, j);
    }
    var rest := Rest(xs, n, key);
    forall y, i | y in xs && y !in r && 0 <= i < |r|
      ensures key(r[i]) <= key(y)
    {
      assert multiset(xs)[y] > 0 && multiset(r)[y] == 0;
      assert y in multiset(rest);
      var j :| 0 <= j < |rest| && rest[j] == y;
    }
  }

  /** A value at two positions of a sequence occurs at least twice. */
  lemma TwoCopies<T>(s: seq<T>, i: nat, j: nat)
    requires i < j < |s| && s[i] == s[j]
    ensures multiset(s)[s[i]] >= 2
  {
    assert s == s[..j] + s[j..];
    assert s[..j][i] == s[i] && s[j..][0] == s[j];
  }

  /** In a sequence without repetitions every value occurs at most once. */
  lemma {:induction false} OneCopy<T>(xs: seq<T>, v: T)
    requires forall a, b :: 0 <= a < b < |xs| ==> xs[a] != xs[b]
    ensures multiset(xs)[v] <= 1
    decreases |xs|
  {
    if |xs| > 0 {
      var init := xs[..|xs| - 1];
      OneCopy(init, v);
      assert xs == init + [xs[|xs| - 1]];
      if xs[|xs| - 1] == v {
        assert v !in init;
      }
    }
  }

  /** Elements taken from a sequence without repetitions are distinct. */
  lemma UniqueInSub<T>(xs: seq<T>, sub: seq<T>, i: nat, j: nat)
    requires forall a, b :: 0 <= a < b < |xs| ==> xs[a] != xs[b]
    requires multiset(sub) <= multiset(xs) && i < j < |sub|
    ensures sub[i] != sub[j]
  {
    if sub[i] == sub[j] {
      TwoCopies(sub, i, j);
      OneCopy(xs, sub[i]);
    }
  }
}
