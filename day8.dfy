/** Day 8: junction boxes in space. The pairs of boxes are connected in
    order of increasing squared distance, each connection merging the two
    circuits the boxes belong to. Part 1 connects the closest pairs and
    multiplies the sizes of the three largest circuits; part 2 finds the
    connection that first joins every box into one circuit. */
module Day8 {
  import opened Wrappers
  import opened Text
  import Sorting

  /** The exceptions the solver lets escape. */
  datatype Error =
    | ValueError    // a line that is not three comma-separated integers
    | RuntimeError  // part 2 found no connection that joins every box

  // ============================================================= vectors

  /** A `Vector3D`: a junction box's position. */
  datatype Vector3D = Vector3D(x: int, y: int, z: int)
  {
    /** `self + other`, componentwise. */
    function Add(other: Vector3D): Vector3D
    {
      Vector3D(x + other.x, y + other.y, z + other.z)
    }

    /** `self - other`, componentwise: adding `other` back gives `self`. */
    function Sub(other: Vector3D): (r: Vector3D)
      ensures r.Add(other) == this
    {
      Vector3D(x - other.x, y - other.y, z - other.z)
    }

    /** `manhattan_distance`: the sum of the absolute components. */
    function Manhattan(): (d: int)
      ensures d >= 0
      ensures d == 0 <==> this == Vector3D(0, 0, 0)
    {
      Abs(x) + Abs(y) + Abs(z)
    }

    /** `euclidean_dist_square`: the sum of the squared components. */
    function DistSquare(): (d: int)
      ensures d >= 0
      ensures d == 0 <==> this == Vector3D(0, 0, 0)
    {
      Square(x) + Square(y) + Square(z)
    }
  }

  function Abs(n: int): nat { if n < 0 then -n else n }

  function Square(n: int): (s: nat)
    ensures s == 0 <==> n == 0
  {
    Abs(n) * Abs(n)
  }

  /** The squared distance between two boxes does not depend on their
      order, and it is zero only between a box and itself. */
  lemma DistanceSymmetric(a: Vector3D, b: Vector3D)
    ensures a.Sub(b).DistSquare() == b.Sub(a).DistSquare()
    ensures a.Sub(b).DistSquare() == 0 <==> a == b
  {
    assert Square(a.x - b.x) == Square(b.x - a.x);
    assert Square(a.y - b.y) == Square(b.y - a.y);
    assert Square(a.z - b.z) == Square(b.z - a.z);
  }

  // ============================================================= parsing

  /** One line of the input: `x, y, z = (int(n) for n in line.split(','))`.
      A wrong number of pieces and a piece `int` refuses both raise
      ValueError. */
  function ParseBox(line: string): (r: Result<Vector3D, Error>)
    ensures r.Err? ==> r.error == ValueError
  {
    var parts := SplitOn(line, ',');
    if |parts| != 3 then Err(ValueError)
    else
      var x, y, z := ParseInt(parts[0]), ParseInt(parts[1]), ParseInt(parts[2]);
      if x.None? || y.None? || z.None? then Err(ValueError)
      else Ok(Vector3D(x.value, y.value, z.value))
  }

  /** A box written back as a line of the input. */
  function FormatBox(v: Vector3D): string
  {
    Join([IntToString(v.x), IntToString(v.y), IntToString(v.z)], ',')
  }

  /** Parsing a formatted box gives it back. */
  lemma ParseFormatBox(v: Vector3D)
    ensures ParseBox(FormatBox(v)) == Ok(v)
  {
    var parts := [IntToString(v.x), IntToString(v.y), IntToString(v.z)];
    NoComma(v.x);
    NoComma(v.y);
    NoComma(v.z);
    SplitOnJoin(parts, ',');
    ParseIntOfIntString(v.x);
    ParseIntOfIntString(v.y);
    ParseIntOfIntString(v.z);
  }

  /** Each line parsed on its own. */
  function ParsedLines(lines: seq<string>): (rs: seq<Result<Vector3D, Error>>)
    ensures |rs| == |lines| && forall i :: 0 <= i < |lines| ==> rs[i] == ParseBox(lines[i])
  {
    seq(|lines|, i requires 0 <= i < |lines| => ParseBox(lines[i]))
  }

  /** The boxes of the lines, or the error of the first bad line. */
  function ParseAll(lines: seq<string>): (r: Result<seq<Vector3D>, Error>)
  {
    Collect(ParsedLines(lines))
  }

  /** The lines parse exactly when each of them does, into the boxes the
      lines hold in order; otherwise ValueError. */
  lemma ParseAllMeaning(lines: seq<string>)
    ensures var r := ParseAll(lines);
            && (r.Ok? <==> forall i :: 0 <= i < |lines| ==> ParseBox(lines[i]).Ok?)
            && (r.Err? ==> r.error == ValueError)
            && (r.Ok? ==> |r.value| == |lines| && forall i :: 0 <= i < |lines| ==> Ok(r.value[i]) == ParseBox(lines[i]))
  {
    CollectMeaning(ParsedLines(lines));
  }

  /** `parse_input`: one box per line; the first bad line raises. */
  method ParseInput(input: string) returns (r: Result<seq<Vector3D>, Error>)
    ensures r == ParseAll(LineIterator(input))
  {
    r := ParseLines(LineIterator(input));
  }

  /** The loop of `parse_input` over the lines. */
  method ParseLines(lines: seq<string>) returns (r: Result<seq<Vector3D>, Error>)
    ensures r == ParseAll(lines)
  {
    ghost var rs := ParsedLines(lines);
    var boxes: seq<Vector3D> := [];
    for i := 0 to |lines|
      invariant Collect(rs[..i]) == Ok(boxes)
    {
      assert rs[..i + 1][..i] == rs[..i];
      var parsed := ParseBox(lines[i]);
      assert rs[i] == parsed;
      if parsed.Err? {
        CollectFails(rs, i + 1);
        return Err(parsed.error);
      }
      boxes := boxes + [parsed.value];
    }
    assert rs[..|lines|] == rs;
    r := Ok(boxes);
  }

  /** One box per line, joined by '\n'. */
  function FormatLines(boxes: seq<Vector3D>): (r: seq<string>)
    ensures |r| == |boxes|
    ensures forall i :: 0 <= i < |boxes| ==> r[i] == FormatBox(boxes[i])
  {
    seq(|boxes|, i requires 0 <= i < |boxes| => FormatBox(boxes[i]))
  }

  /** An input written one box per line is read back into the same boxes. */
  lemma ParseFormatInput(boxes: seq<Vector3D>)
    requires |boxes| >= 1
    ensures ParseAll(LineIterator(Join(FormatLines(boxes), '\n'))) == Ok(boxes)
  {
    var lines := FormatLines(boxes);
    assert LineIterator(Join(lines, '\n')) == lines by {
      FormattedLines(boxes);
      LineIteratorOfJoin(lines);
    }
    ParseFormatLines(boxes);
  }

  /** The formatted lines parse into the boxes. */
  lemma ParseFormatLines(boxes: seq<Vector3D>)
    ensures ParseAll(FormatLines(boxes)) == Ok(boxes)
  {
    var lines := FormatLines(boxes);
    forall i | 0 <= i < |boxes|
      ensures ParsedLines(lines)[i] == Ok(boxes[i])
    {
      ParseFormatBox(boxes[i]);
    }
    CollectOf(ParsedLines(lines), boxes);
  }

  /** Formatted lines are non-empty and hold no line terminator. */
  lemma FormattedLines(boxes: seq<Vector3D>)
    ensures var lines := FormatLines(boxes);
            forall i :: 0 <= i < |lines| ==> '\n' !in lines[i] && '\r' !in lines[i] && lines[i] != []
  {
    var lines := FormatLines(boxes);
    forall i | 0 <= i < |lines|
      ensures '\n' !in lines[i] && '\r' !in lines[i] && lines[i] != []
    {
      var v := boxes[i];
      var parts := [IntToString(v.x), IntToString(v.y), IntToString(v.z)];
      JoinAvoids(parts, ',', '\n');
      JoinAvoids(parts, ',', '\r');
      assert lines[i] == parts[0] + [','] + Join(parts[1..], ',');
    }
  }

  // =============================================================== pairs

  /** The list positions (i, j), i < j, that `combinations(boxes, 2)` visits
      from first position `from` on, in its order: by first position, then
      by second. */
  function IndexPairs(from: nat, n: nat): (r: seq<(nat, nat)>)
    ensures forall k :: 0 <= k < |r| ==> from <= r[k].0 < r[k].1 < n
    decreases n - from
  {
    if from >= n then []
    else seq(n - from - 1, k => (from, from + 1 + k)) + IndexPairs(from + 1, n)
  }

  /** From first position `from` on there are m(m-1)/2 pairs, m = n - from. */
  lemma {:induction false} IndexPairsCount(from: nat, n: nat)
    requires from <= n
    ensures 2 * |IndexPairs(from, n)| == (n - from) * (n - from - 1)
    decreases n - from
  {
    if from < n {
      IndexPairsCount(from + 1, n);
      var m := n - from;
      assert m * (m - 1) == 2 * (m - 1) + (m - 1) * (m - 2);
    }
  }

  /** Position pair p comes strictly before q: by first, then by second position. */
  predicate Before(p: (nat, nat), q: (nat, nat))
  {
    p.0 < q.0 || (p.0 == q.0 && p.1 < q.1)
  }

  /** Every pair of positions i < j is visited. */
  lemma {:induction false} IndexPairsComplete(from: nat, n: nat)
    ensures forall i, j :: from <= i < j < n ==> (i, j) in IndexPairs(from, n)
    decreases n - from
  {
    if from < n {
      IndexPairsComplete(from + 1, n);
      var head := seq(n - from - 1, k => (from, from + 1 + k));
      forall i, j | from <= i < j < n
        ensures (i, j) in IndexPairs(from, n)
      {
        if i == from {
          assert head[j - from - 1] == (i, j);
        }
      }
    }
  }

  /** The pairs come in strictly increasing order, so none is visited twice. */
  lemma {:induction false} IndexPairsOrdered(from: nat, n: nat)
    ensures forall k, l :: 0 <= k < l < |IndexPairs(from, n)| ==> Before(IndexPairs(from, n)[k], IndexPairs(from, n)[l])
    decreases n - from
  {
    if from < n {
      IndexPairsOrdered(from + 1, n);
      var head := seq(n - from - 1, k => (from, from + 1 + k));
      var rest := IndexPairs(from + 1, n);
      var r := head + rest;
      assert IndexPairs(from, n) == r;
      forall k, l | 0 <= k < l < |r|
        ensures Before(r[k], r[l])
      {
        if l < |head| {
          assert r[k] == head[k] == (from, from + 1 + k);
          assert r[l] == head[l] == (from, from + 1 + l);
        } else if k < |head| {
          assert r[k] == head[k] && r[l] == rest[l - |head|];
          assert r[k].0 == from < rest[l - |head|].0;
        } else {
          assert r[k] == rest[k - |head|] && r[l] == rest[l - |head|];
          assert Before(rest[k - |head|], rest[l - |head|]);
        }
      }
    }
  }

  /** `JuncBoxPair`: two boxes and their squared distance. */
  datatype JuncBoxPair = JuncBoxPair(box1: Vector3D, box2: Vector3D, distanceSquared: int)

  /** The pair of the boxes at positions i and j. */
  function PairAt(boxes: seq<Vector3D>, i: nat, j: nat): JuncBoxPair
    requires i < |boxes| && j < |boxes|
  {
    JuncBoxPair(boxes[i], boxes[j], boxes[i].Sub(boxes[j]).DistSquare())
  }

  /** `junction_box_pair_distances`: every pair of list positions i < j,
      in `combinations` order, with the boxes' squared distance. */
  function PairDistances(boxes: seq<Vector3D>): seq<JuncBoxPair>
  {
    var ip := IndexPairs(0, |boxes|);
    seq(|ip|, k requires 0 <= k < |ip| => PairAt(boxes, ip[k].0, ip[k].1))
  }

  /** The pairs are n(n-1)/2 in number; each is the pair of some positions
      i < j with its squared distance, and every such pair of positions
      appears exactly once. */
  lemma PairDistancesMeaning(boxes: seq<Vector3D>)
    ensures var ps, ip, n := PairDistances(boxes), IndexPairs(0, |boxes|), |boxes|;
            && 2 * |ps| == n * (n - 1) && |ip| == |ps|
            && (forall k :: 0 <= k < |ps| ==> ip[k].0 < ip[k].1 < n && ps[k] == PairAt(boxes, ip[k].0, ip[k].1))
            && (forall i, j :: 0 <= i < j < n ==> (i, j) in ip)
            && (forall k, l :: 0 <= k < l < |ip| ==> ip[k] != ip[l])
  {
    IndexPairsCount(0, |boxes|);
    IndexPairsComplete(0, |boxes|);
    IndexPairsOrdered(0, |boxes|);
  }

  /** The key pairs are sorted by. */
  function Distance(p: JuncBoxPair): int { p.distanceSquared }

  /** `sorted(pairs, key=lambda p: p.distance_squared)`. */
  function SortedPairs(boxes: seq<Vector3D>): (r: seq<JuncBoxPair>)
    ensures Among(r, Boxes(boxes))
  {
    PairDistancesAmong(boxes);
    AmongSub(PairDistances(boxes), Sorting.SortBy(PairDistances(boxes), Distance), Boxes(boxes));
    Sorting.SortBy(PairDistances(boxes), Distance)
  }

  // ============================================================ circuits

  /** The `circuits` dict: each box to the boxes of its circuit. The source
      compares `JuncBoxCircuit` objects by identity; while the dict is a
      partition (below) two boxes map to the same object exactly when they
      map to the same set of boxes, so the model keeps the sets. */
  type Circuits = map<Vector3D, set<Vector3D>>

  /** The boxes of a list, as the keys of a dict built from it. */
  function Boxes(boxes: seq<Vector3D>): set<Vector3D>
  {
    set b | b in boxes
  }

  /** The circuit of b holds b and only boxes of the dict, and each of its
      boxes maps to this same circuit. */
  ghost predicate OwnCircuit(circuits: Circuits, b: Vector3D)
    requires b in circuits
  {
    && b in circuits[b]
    && circuits[b] <= circuits.Keys
    && forall c :: c in circuits[b] ==> circuits[c] == circuits[b]
  }

  /** Every box maps to a circuit that contains it, and all boxes of a
      circuit map to that circuit. */
  ghost predicate Partition(circuits: Circuits)
  {
    forall b :: b in circuits ==> OwnCircuit(circuits, b)
  }

  /** `dict((b, JuncBoxCircuit(b)) for b in junction_boxes)`. */
  function Singletons(boxes: seq<Vector3D>): (c: Circuits)
    ensures c.Keys == Boxes(boxes)
  {
    map b | b in boxes :: {b}
  }

  /** At the start every box is a circuit of its own. */
  lemma SingletonsPartition(boxes: seq<Vector3D>)
    ensures var c := Singletons(boxes);
            && c.Keys == Boxes(boxes) && Partition(c)
            && forall b :: b in c ==> c[b] == {b}
  {
  }

  /** `for b in c3.boxes: circuits[b] = c3`, as a value. */
  function Relabel(circuits: Circuits, c3: set<Vector3D>): (r: Circuits)
    ensures r.Keys == circuits.Keys
  {
    map x | x in circuits :: if x in c3 then c3 else circuits[x]
  }

  /** One connection: the circuits of a and b are merged into their union,
      unless they are one circuit already, when the dict is kept. */
  function Connect(circuits: Circuits, a: Vector3D, b: Vector3D): (r: Circuits)
    requires a in circuits && b in circuits
    ensures r.Keys == circuits.Keys
  {
    if circuits[a] == circuits[b] then circuits else Relabel(circuits, circuits[a] + circuits[b])
  }

  /** Relabelling the union of two circuits keeps the dict a partition. */
  lemma RelabelPartition(circuits: Circuits, a: Vector3D, b: Vector3D)
    requires Partition(circuits) && a in circuits && b in circuits
    ensures Partition(Relabel(circuits, circuits[a] + circuits[b]))
  {
    var c1, c2 := circuits[a], circuits[b];
    var c3 := c1 + c2;
    var r := Relabel(circuits, c3);
    assert OwnCircuit(circuits, a) && OwnCircuit(circuits, b);
    forall x | x in r
      ensures OwnCircuit(r, x)
    {
      assert OwnCircuit(circuits, x);
    }
  }

  /** A connection keeps the dict a partition and puts a and b into the
      union of their circuits; every box outside that union keeps its
      circuit, and no circuit shrinks. */
  lemma ConnectMeaning(circuits: Circuits, a: Vector3D, b: Vector3D)
    requires Partition(circuits) && a in circuits && b in circuits
    ensures var r := Connect(circuits, a, b);
            && Partition(r)
            && r[a] == r[b] == circuits[a] + circuits[b]
            && (forall x :: x in circuits && x !in circuits[a] + circuits[b] ==> r[x] == circuits[x])
            && (forall x :: x in circuits ==> circuits[x] <= r[x])
  {
    assert OwnCircuit(circuits, a) && OwnCircuit(circuits, b);
    if circuits[a] != circuits[b] {
      RelabelPartition(circuits, a, b);
      forall x | x in circuits
        ensures circuits[x] <= Connect(circuits, a, b)[x]
      {
        assert OwnCircuit(circuits, x);
      }
    }
  }

  /** Boxes that share a circuit still share one after a connection. */
  lemma ConnectKeepsJoined(circuits: Circuits, a: Vector3D, b: Vector3D, x: Vector3D, y: Vector3D)
    requires Partition(circuits) && a in circuits && b in circuits
    requires x in circuits && y in circuits && circuits[x] == circuits[y]
    ensures Connect(circuits, a, b)[x] == Connect(circuits, a, b)[y]
  {
    var c3 := circuits[a] + circuits[b];
    assert OwnCircuit(circuits, a) && OwnCircuit(circuits, b);
    assert OwnCircuit(circuits, x) && OwnCircuit(circuits, y);
    if x in c3 {
      assert y in circuits[x];
      assert circuits[x] == circuits[a] || circuits[x] == circuits[b];
    }
  }

  /** Every pair joins two boxes of the given set. */
  predicate Among(ps: seq<JuncBoxPair>, keys: set<Vector3D>)
  {
    forall k :: 0 <= k < |ps| ==> ps[k].box1 in keys && ps[k].box2 in keys
  }

  /** The connections of ps made one after the other. */
  function ConnectAll(circuits: Circuits, ps: seq<JuncBoxPair>): (r: Circuits)
    requires Among(ps, circuits.Keys)
    ensures r.Keys == circuits.Keys
    decreases |ps|
  {
    if |ps| == 0 then circuits
    else
      var last := ps[|ps| - 1];
      Connect(ConnectAll(circuits, ps[..|ps| - 1]), last.box1, last.box2)
  }

  /** The boxes of each pair share a circuit. */
  ghost predicate Joined(circuits: Circuits, ps: seq<JuncBoxPair>)
    requires Among(ps, circuits.Keys)
  {
    forall k :: 0 <= k < |ps| ==> circuits[ps[k].box1] == circuits[ps[k].box2]
  }

  /** After the connections of ps the dict is still a partition and the two
      boxes of every pair of ps share a circuit. */
  lemma {:induction false} ConnectAllMeaning(circuits: Circuits, ps: seq<JuncBoxPair>)
    requires Partition(circuits) && Among(ps, circuits.Keys)
    ensures Partition(ConnectAll(circuits, ps)) && Joined(ConnectAll(circuits, ps), ps)
    decreases |ps|
  {
    if |ps| > 0 {
      var init, last := ps[..|ps| - 1], ps[|ps| - 1];
      var prev := ConnectAll(circuits, init);
      ConnectAllMeaning(circuits, init);
      ConnectMeaning(prev, last.box1, last.box2);
      var r := Connect(prev, last.box1, last.box2);
      forall k | 0 <= k < |ps|
        ensures r[ps[k].box1] == r[ps[k].box2]
      {
        if k < |init| {
          assert ps[k] == init[k];
          ConnectKeepsJoined(prev, last.box1, last.box2, ps[k].box1, ps[k].box2);
        }
      }
    }
  }

  /** `for b in c3.boxes: circuits[b] = c3`. */
  method Rewire(circuits: Circuits, c3: set<Vector3D>) returns (r: Circuits)
    requires c3 <= circuits.Keys
    ensures r == Relabel(circuits, c3)
  {
    r := circuits;
    var rest := c3;
    while rest != {}
      invariant rest <= c3
      invariant r.Keys == circuits.Keys
      invariant forall x :: x in r ==> r[x] == if x in c3 && x !in rest then c3 else circuits[x]
      decreases |rest|
    {
      var b :| b in rest;
      r := r[b := c3];
      rest := rest - {b};
    }
    assert forall x :: x in r ==> r[x] == Relabel(circuits, c3)[x];
  }

  // ============================================================== part 1

  /** The number of connections part 1 makes: 10 for the 20 boxes of the
      example, 1000 otherwise. */
  function Connections(n: nat): nat
  {
    if n == 20 then 10 else 1000
  }

  /** `heapq.nsmallest(connections, pairs, key=distance_squared)`. */
  function Closest(boxes: seq<Vector3D>): (r: seq<JuncBoxPair>)
    ensures Among(r, Boxes(boxes))
  {
    PairDistancesAmong(boxes);
    Sorting.SmallestMeaning(PairDistances(boxes), Connections(|boxes|), Distance);
    AmongSub(PairDistances(boxes), Sorting.Smallest(PairDistances(boxes), Connections(|boxes|), Distance), Boxes(boxes));
    Sorting.Smallest(PairDistances(boxes), Connections(|boxes|), Distance)
  }

  /** Every pair of the list joins two of its boxes. */
  lemma PairDistancesAmong(boxes: seq<Vector3D>)
    ensures Among(PairDistances(boxes), Boxes(boxes))
  {
    var ip := IndexPairs(0, |boxes|);
    forall k | 0 <= k < |ip|
      ensures PairDistances(boxes)[k] == PairAt(boxes, ip[k].0, ip[k].1)
    {
    }
  }

  /** Pairs drawn from pairs among a set of boxes are among it too. */
  lemma AmongSub(ps: seq<JuncBoxPair>, sub: seq<JuncBoxPair>, keys: set<Vector3D>)
    requires Among(ps, keys) && multiset(sub) <= multiset(ps)
    ensures Among(sub, keys)
  {
    forall k | 0 <= k < |sub|
      ensures sub[k].box1 in keys && sub[k].box2 in keys
    {
      assert sub[k] in multiset(ps);
      var j :| 0 <= j < |ps| && ps[j] == sub[k];
    }
  }

  /** `set(circuits.values())`, listed in the order the boxes first meet
      each circuit. */
  function DistinctClasses(circuits: Circuits, order: seq<Vector3D>): (r: seq<set<Vector3D>>)
    requires forall k :: 0 <= k < |order| ==> order[k] in circuits
    ensures forall c :: c in r <==> exists k :: 0 <= k < |order| && circuits[order[k]] == c
    ensures forall i, j :: 0 <= i < j < |r| ==> r[i] != r[j]
    decreases |order|
  {
    if |order| == 0 then []
    else
      var prev := DistinctClasses(circuits, order[..|order| - 1]);
      var c := circuits[order[|order| - 1]];
      assert forall k :: 0 <= k < |order| - 1 ==> order[..|order| - 1][k] == order[k];
      if c in prev then prev else prev + [c]
  }

  /** `sorted(..., key=len, reverse=True)`: by size, largest first. */
  function NegSize(c: set<Vector3D>): int { -|c| }

  /** `reduce(lambda a, c: a * len(c), circuits, 1)`. */
  function SizeProduct(cs: seq<set<Vector3D>>): nat
  {
    if |cs| == 0 then 1 else SizeProduct(cs[..|cs| - 1]) * |cs[|cs| - 1]|
  }

  /** The circuits after part 1's connections. */
  function Part1Circuits(boxes: seq<Vector3D>): Circuits
  {
    SingletonsPartition(boxes);
    ConnectAll(Singletons(boxes), Closest(boxes))
  }

  /** The three largest circuits after part 1's connections. */
  function Largest(boxes: seq<Vector3D>): seq<set<Vector3D>>
  {
    var circuits := Part1Circuits(boxes);
    Sorting.Smallest(DistinctClasses(circuits, boxes), 3, NegSize)
  }

  /** After part 1's connections the dict is still a partition of the
      boxes, and the boxes of every closest pair share a circuit. */
  lemma Part1Joined(boxes: seq<Vector3D>)
    ensures var circuits := Part1Circuits(boxes);
            && Partition(circuits) && circuits.Keys == Boxes(boxes)
            && Among(Closest(boxes), circuits.Keys) && Joined(circuits, Closest(boxes))
  {
    SingletonsPartition(boxes);
    ConnectAllMeaning(Singletons(boxes), Closest(boxes));
  }

  /** The three largest of a list of distinct circuits: at most three of
      them, distinct, largest first, and none left out is larger. */
  lemma TopThree(classes: seq<set<Vector3D>>)
    requires forall i, j :: 0 <= i < j < |classes| ==> classes[i] != classes[j]
    ensures var top := Sorting.Smallest(classes, 3, NegSize);
            && |top| == Sorting.Min(3, |classes|)
            && (forall i :: 0 <= i < |top| ==> top[i] in classes)
            && (forall i, j :: 0 <= i < j < |top| ==> top[i] != top[j] && |top[i]| >= |top[j]|)
            && (forall c, i :: c in classes && c !in top && 0 <= i < |top| ==> |c| <= |top[i]|)
  {
    Sorting.SmallestOfDistinct(classes, 3, NegSize);
    var top := Sorting.Smallest(classes, 3, NegSize);
    forall c, i | c in classes && c !in top && 0 <= i < |top|
      ensures |c| <= |top[i]|
    {
      assert NegSize(top[i]) <= NegSize(c);
    }
  }

  /** Part 1 multiplies the sizes of the three largest circuits of the dict
      after the closest connections (fewer when there are fewer circuits):
      distinct circuits, largest first, and none left out is larger. */
  lemma Part1Meaning(boxes: seq<Vector3D>)
    ensures var circuits := Part1Circuits(boxes);
            var top := Largest(boxes);
            && |top| == Sorting.Min(3, |circuits.Values|)
            && (forall i :: 0 <= i < |top| ==> top[i] in circuits.Values)
            && (forall i, j :: 0 <= i < j < |top| ==> top[i] != top[j] && |top[i]| >= |top[j]|)
            && (forall c, i :: c in circuits.Values && c !in top && 0 <= i < |top| ==> |c| <= |top[i]|)
  {
    Part1Joined(boxes);
    var circuits := Part1Circuits(boxes);
    ClassesAreValues(circuits, boxes);
    TopThree(DistinctClasses(circuits, boxes));
  }

  /** The distinct circuits met along the boxes of the dict are its values,
      each once. */
  lemma ClassesAreValues(circuits: Circuits, boxes: seq<Vector3D>)
    requires circuits.Keys == Boxes(boxes)
    ensures var classes := DistinctClasses(circuits, boxes);
            && (forall c :: c in classes <==> c in circuits.Values)
            && |classes| == |circuits.Values|
  {
    var classes := DistinctClasses(circuits, boxes);
    forall c | c in circuits.Values
      ensures c in classes
    {
      var b :| b in circuits && circuits[b] == c;
      var k :| 0 <= k < |boxes| && boxes[k] == b;
    }
    SetSize(classes);
    assert (set c | c in classes) == circuits.Values;
  }

  /** Part 1's answer for a list of boxes. */
  function Part1Value(boxes: seq<Vector3D>): nat
  {
    SizeProduct(Largest(boxes))
  }

  /** `solve_part1`, without the final `str`. */
  method SolvePart1(input: string) returns (r: Result<nat, Error>)
    ensures r == match ParseAll(LineIterator(input))
                 case Err(e) => Err(e)
                 case Ok(boxes) => Ok(Part1Value(boxes))
  {
    var parsed := ParseInput(input);
    if parsed.Err? {
      return Err(parsed.error);
    }
    var boxes := parsed.value;
    var closest := Closest(boxes);
    var circuits := ConnectPairs(boxes, closest);
    var classes := DistinctClasses(circuits, boxes);
    r := Ok(SizeProduct(Sorting.Smallest(classes, 3, NegSize)));
  }

  /** The loop of `solve_part1` over the closest pairs: skip a pair whose
      boxes share a circuit, otherwise rewire the boxes of both circuits to
      their union. */
  method ConnectPairs(boxes: seq<Vector3D>, ps: seq<JuncBoxPair>) returns (circuits: Circuits)
    requires Among(ps, Boxes(boxes))
    ensures circuits == ConnectAll(Singletons(boxes), ps)
  {
    var init := Singletons(boxes);
    SingletonsPartition(boxes);
    circuits := init;
    for i := 0 to |ps|
      invariant Partition(circuits) && circuits.Keys == init.Keys
      invariant circuits == ConnectAll(init, ps[..i])
    {
      var p := ps[i];
      ConnectMeaning(circuits, p.box1, p.box2);
      var c1, c2 := circuits[p.box1], circuits[p.box2];
      if c1 != c2 {
        assert OwnCircuit(circuits, p.box1) && OwnCircuit(circuits, p.box2);
        circuits := Rewire(circuits, c1 + c2);
      }
      assert ps[..i + 1][..i] == ps[..i];
    }
    assert ps[..|ps|] == ps;
  }

  // ============================================================== part 2

  /** The connection p merges two different circuits into one of at least
      jbc boxes. */
  predicate Covers(circuits: Circuits, p: JuncBoxPair, jbc: nat)
    requires p.box1 in circuits && p.box2 in circuits
  {
    circuits[p.box1] != circuits[p.box2] && |circuits[p.box1] + circuits[p.box2]| >= jbc
  }

  /** The dict after the first k connections of ps. */
  function StateAt(circuits: Circuits, ps: seq<JuncBoxPair>, k: nat): (r: Circuits)
    requires Among(ps, circuits.Keys) && k <= |ps|
    ensures r.Keys == circuits.Keys
  {
    assert Among(ps[..k], circuits.Keys) by {
      assert forall j :: 0 <= j < k ==> ps[..k][j] == ps[j];
    }
    ConnectAll(circuits, ps[..k])
  }

  /** The position, from i on, of the first connection that covers jbc
      boxes, each connection made on the dict the earlier ones left. */
  function FirstFull(circuits: Circuits, ps: seq<JuncBoxPair>, jbc: nat, i: nat): (r: Option<nat>)
    requires Among(ps, circuits.Keys) && i <= |ps|
    ensures r.Some? ==> i <= r.value < |ps| && Covers(StateAt(circuits, ps, r.value), ps[r.value], jbc)
    ensures r.Some? ==> forall k :: i <= k < r.value ==> !Covers(StateAt(circuits, ps, k), ps[k], jbc)
    ensures r.None? ==> forall k :: i <= k < |ps| ==> !Covers(StateAt(circuits, ps, k), ps[k], jbc)
    decreases |ps| - i
  {
    if i == |ps| then None
    else if Covers(StateAt(circuits, ps, i), ps[i], jbc) then Some(i)
    else FirstFull(circuits, ps, jbc, i + 1)
  }

  /** Part 2's answer for a list of boxes: the product of the x
      coordinates of the first connection that joins `len(boxes)` boxes. */
  function Part2Value(boxes: seq<Vector3D>): Result<int, Error>
  {
    var ps := SortedPairs(boxes);
    match FirstFull(Singletons(boxes), ps, |boxes|, 0)
    case None => Err(RuntimeError)
    case Some(k) => Ok(ps[k].box1.x * ps[k].box2.x)
  }

  /** One connection more: the dict after k + 1 connections. */
  lemma StateStep(circuits: Circuits, ps: seq<JuncBoxPair>, k: nat)
    requires Among(ps, circuits.Keys) && k < |ps|
    ensures StateAt(circuits, ps, k + 1) == Connect(StateAt(circuits, ps, k), ps[k].box1, ps[k].box2)
  {
    assert ps[..k + 1][..k] == ps[..k];
  }

  /** `solve_part2`, without the final `str`. */
  method SolvePart2(input: string) returns (r: Result<int, Error>)
    ensures r == match ParseAll(LineIterator(input))
                 case Err(e) => Err(e)
                 case Ok(boxes) => Part2Value(boxes)
  {
    var parsed := ParseInput(input);
    if parsed.Err? {
      return Err(parsed.error);
    }
    r := FindLastConnection(parsed.value);
  }

  /** The loop of `solve_part2` over all pairs by distance: skip a pair
      whose boxes share a circuit, stop at the first union that holds
      `len(boxes)` boxes, rewire the boxes to the union otherwise. */
  method FindLastConnection(boxes: seq<Vector3D>) returns (r: Result<int, Error>)
    ensures r == Part2Value(boxes)
  {
    var ps := SortedPairs(boxes);
    var jbc := |boxes|;
    var init := Singletons(boxes);
    SingletonsPartition(boxes);
    var circuits := init;
    var i := 0;
    while i < |ps|
      invariant i <= |ps| && Partition(circuits)
      invariant circuits == StateAt(init, ps, i)
      invariant FirstFull(init, ps, jbc, 0) == FirstFull(init, ps, jbc, i)
    {
      var p := ps[i];
      SearchStep(init, ps, jbc, i);
      var c1, c2 := circuits[p.box1], circuits[p.box2];
      if c1 != c2 {
        var c3 := c1 + c2;
        if |c3| >= jbc {
          return Ok(p.box1.x * p.box2.x);
        }
        circuits := Rewire(circuits, c3);
      }
      i := i + 1;
    }
    r := Err(RuntimeError);
  }

  /** One turn of part 2's loop: the connection at i either covers jbc
      boxes, and the search ends there, or is made and the search goes on. */
  lemma SearchStep(circuits: Circuits, ps: seq<JuncBoxPair>, jbc: nat, i: nat)
    requires Among(ps, circuits.Keys) && i < |ps| && Partition(StateAt(circuits, ps, i))
    ensures var state, p := StateAt(circuits, ps, i), ps[i];
            && state[p.box1] + state[p.box2] <= circuits.Keys
            && StateAt(circuits, ps, i + 1) == Connect(state, p.box1, p.box2)
            && Partition(StateAt(circuits, ps, i + 1))
            && FirstFull(circuits, ps, jbc, i) == if Covers(state, p, jbc) then Some(i) else FirstFull(circuits, ps, jbc, i + 1)
  {
    var state, p := StateAt(circuits, ps, i), ps[i];
    assert OwnCircuit(state, p.box1) && OwnCircuit(state, p.box2);
    StateStep(circuits, ps, i);
    ConnectMeaning(state, p.box1, p.box2);
  }

  /** A list of boxes without repetitions. */
  predicate Distinct(boxes: seq<Vector3D>)
  {
    forall i, j :: 0 <= i < j < |boxes| ==> boxes[i] != boxes[j]
  }

  /** No circuit of the dict holds jbc boxes. */
  ghost predicate Small(circuits: Circuits, jbc: nat)
  {
    forall b :: b in circuits ==> |circuits[b]| < jbc
  }

  /** While no connection covers jbc boxes, no circuit reaches jbc boxes. */
  lemma {:induction false} StaysSmall(circuits: Circuits, ps: seq<JuncBoxPair>, jbc: nat, k: nat)
    requires Partition(circuits) && Among(ps, circuits.Keys) && k <= |ps| && Small(circuits, jbc)
    requires forall j :: 0 <= j < k ==> !Covers(StateAt(circuits, ps, j), ps[j], jbc)
    ensures Partition(StateAt(circuits, ps, k)) && Small(StateAt(circuits, ps, k), jbc)
    decreases k
  {
    if k > 0 {
      StaysSmall(circuits, ps, jbc, k - 1);
      var prev := StateAt(circuits, ps, k - 1);
      var p := ps[k - 1];
      StateStep(circuits, ps, k - 1);
      ConnectMeaning(prev, p.box1, p.box2);
      assert !Covers(prev, p, jbc);
    }
  }

  /** Part 2 finds a connection exactly when there are at least two boxes
      and no box is listed twice: with a repeated box no circuit can reach
      `len(boxes)` boxes, and without one the connection of every pair
      would join all boxes into one circuit. */
  lemma Part2Found(boxes: seq<Vector3D>)
    ensures Part2Value(boxes).Ok? <==> |boxes| >= 2 && Distinct(boxes)
  {
    if Part2Value(boxes).Ok? {
      FoundNeedsDistinct(boxes);
    } else if |boxes| >= 2 && Distinct(boxes) {
      DistinctIsFound(boxes);
    }
  }

  /** A connection that covers every box needs two boxes and no repetition. */
  lemma FoundNeedsDistinct(boxes: seq<Vector3D>)
    requires Part2Value(boxes).Ok?
    ensures |boxes| >= 2 && Distinct(boxes)
  {
    SingletonsPartition(boxes);
    var ps, jbc, init := SortedPairs(boxes), |boxes|, Singletons(boxes);
    var k := FirstFull(init, ps, jbc, 0).value;
    var state := StateAt(init, ps, k);
    var p := ps[k];
    StaysSmallOrPartition(init, ps, k);
    assert OwnCircuit(state, p.box1) && OwnCircuit(state, p.box2);
    SubsetSize(state[p.box1] + state[p.box2], Boxes(boxes));
    SetSize(boxes);
    assert |PairDistances(boxes)| > 0;
  }

  /** Two or more distinct boxes always reach a connection that covers them. */
  lemma DistinctIsFound(boxes: seq<Vector3D>)
    requires |boxes| >= 2 && Distinct(boxes)
    ensures Part2Value(boxes).Ok?
  {
    SingletonsPartition(boxes);
    var ps, jbc, init := SortedPairs(boxes), |boxes|, Singletons(boxes);
    if FirstFull(init, ps, jbc, 0).None? {
      StaysSmall(init, ps, jbc, |ps|);
      AllJoined(boxes);
      SetSize(boxes);
      var final := StateAt(init, ps, |ps|);
      SubsetSize(Boxes(boxes), final[boxes[0]]);
      assert false;
    }
  }

  /** The dict stays a partition through any number of connections. */
  lemma StaysSmallOrPartition(circuits: Circuits, ps: seq<JuncBoxPair>, k: nat)
    requires Partition(circuits) && Among(ps, circuits.Keys) && k <= |ps|
    ensures Partition(StateAt(circuits, ps, k))
  {
    ConnectAllMeaning(circuits, ps[..k]);
  }

  /** After the connection of every pair, the circuit of the first box
      holds every box. */
  lemma AllJoined(boxes: seq<Vector3D>)
    requires |boxes| >= 1
    ensures var ps := SortedPairs(boxes);
                    var final := StateAt(Singletons(boxes), ps, |ps|);
            Boxes(boxes) <= final[boxes[0]]
  {
    SingletonsPartition(boxes);
    var ps, init := SortedPairs(boxes), Singletons(boxes);
    var final := StateAt(init, ps, |ps|);
    assert ps[..|ps|] == ps;
    ConnectAllMeaning(init, ps);
    forall b | b in Boxes(boxes)
      ensures b in final[boxes[0]]
    {
      var j :| 0 <= j < |boxes| && boxes[j] == b;
      assert OwnCircuit(final, b);
      if j > 0 {
        var l := PairListed(boxes, j);
        assert final[ps[l].box1] == final[ps[l].box2];
      }
    }
  }

  /** The boxes at positions 0 and j > 0 are a pair of the sorted list. */
  lemma PairListed(boxes: seq<Vector3D>, j: nat) returns (l: nat)
    requires 0 < j < |boxes|
    ensures l < |SortedPairs(boxes)| && SortedPairs(boxes)[l] == PairAt(boxes, 0, j)
  {
    PairDistancesMeaning(boxes);
    var ip := IndexPairs(0, |boxes|);
    var k :| 0 <= k < |ip| && ip[k] == (0, j);
    var pair := PairDistances(boxes)[k];
    assert pair in multiset(SortedPairs(boxes));
    l :| 0 <= l < |SortedPairs(boxes)| && SortedPairs(boxes)[l] == pair;
  }

  /** Once part 2 stops, the union it stopped at is every box. */
  lemma Part2Meaning(boxes: seq<Vector3D>)
    requires Part2Value(boxes).Ok?
    ensures var ps := SortedPairs(boxes);
            var k := FirstFull(Singletons(boxes), ps, |boxes|, 0).value;
            var state := StateAt(Singletons(boxes), ps, k);
            state[ps[k].box1] + state[ps[k].box2] == Boxes(boxes)
  {
    SingletonsPartition(boxes);
    var ps, init := SortedPairs(boxes), Singletons(boxes);
    var k := FirstFull(init, ps, |boxes|, 0).value;
    var state := StateAt(init, ps, k);
    StaysSmallOrPartition(init, ps, k);
    var p := ps[k];
    assert OwnCircuit(state, p.box1) && OwnCircuit(state, p.box2);
    var c3 := state[p.box1] + state[p.box2];
    SetSize(boxes);
    SubsetSize(c3, Boxes(boxes));
    SubsetEqual(c3, Boxes(boxes));
  }

  /** A sequence has at most as many distinct elements as positions, and
      exactly as many when no element repeats. */
  lemma {:induction false} SetSize<T>(xs: seq<T>)
    ensures |set x | x in xs| <= |xs|
    ensures |set x | x in xs| == |xs| <==> forall i, j :: 0 <= i < j < |xs| ==> xs[i] != xs[j]
    decreases |xs|
  {
    if |xs| > 0 {
      var init, last := xs[..|xs| - 1], xs[|xs| - 1];
      SetSize(init);
      assert (set x | x in xs) == (set x | x in init) + {last};
      if last in init {
        var i :| 0 <= i < |init| && init[i] == last;
        assert xs[i] == xs[|xs| - 1];
      } else {
        assert (forall i, j :: 0 <= i < j < |xs| ==> xs[i] != xs[j]) <==>
               (forall i, j :: 0 <= i < j < |init| ==> init[i] != init[j]);
      }
    }
  }

  /** A subset is no larger than its superset. */
  lemma {:induction false} SubsetSize<T>(a: set<T>, b: set<T>)
    requires a <= b
    ensures |a| <= |b|
    decreases |a|
  {
    if a != {} {
      var x :| x in a;
      SubsetSize(a - {x}, b - {x});
    }
  }

  /** A subset as large as its superset is the superset. */
  lemma {:induction false} SubsetEqual<T>(a: set<T>, b: set<T>)
    requires a <= b && |a| >= |b|
    ensures a == b
    decreases |a|
  {
    if a != {} {
      var x :| x in a;
      SubsetEqual(a - {x}, b - {x});
      assert a == (a - {x}) + {x} && b == (b - {x}) + {x};
    } else {
      assert |b| == 0;
    }
  }
}
