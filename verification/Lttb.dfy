/** lib/lttb/lttb.go: Largest-Triangle-Three-Buckets downsampling over an iterator, with exact
    reals for float64. The whole-array definition comes first, the streaming code after it. */
module Lttb {
  import opened GoInt

  datatype Point = Point(x: real, y: real)

  // ------------------------------------------------------------------ the array definition

  /** Points per bucket, leaving room for the first and the last point. */
  function Size(count: int, threshold: int): real
    requires threshold != 2
  {
    (count - 2) as real / (threshold - 2) as real
  }

  /** Bucket i holds the indices from Bound(i) up to, excluding, Bound(i+1). */
  function Bound(count: int, threshold: int, i: int): int
    requires threshold != 2
  {
    (i as real * Size(count, threshold)).Floor + 1
  }

  /** There is something to leave out. */
  predicate Shrinks(count: int, threshold: int) { 3 <= threshold < count }

  lemma {:induction false} BoundIsQuotient(count: int, threshold: int, i: int)
    requires Shrinks(count, threshold)
    ensures Bound(count, threshold, i) == i * (count - 2) / (threshold - 2) + 1
  {
    var n, d := count - 2, threshold - 2;
    var x := i as real * (n as real / d as real);
    assert x * d as real == (i * n) as real;
    FloorIsQuotient(x, i * n, d);
  }

  lemma {:induction false} RealMul(a: real, b: real, c: real)
    requires a <= b && c > 0.0
    ensures a * c <= b * c && (a < b ==> a * c < b * c)
  {
    assert b * c - a * c == (b - a) * c;
  }

  lemma {:induction false} ProductAsReal(a: int, b: int)
    ensures a as real * b as real == (a * b) as real
  {
  }

  lemma {:induction false} FloorBelow(x: real, f: int, m: int, d: int)
    requires 0 < d && x * d as real == m as real && f as real <= x
    ensures f * d <= m
  {
    RealMul(f as real, x, d as real);
    ProductAsReal(f, d);
  }

  lemma {:induction false} FloorAbove(x: real, f: int, m: int, d: int)
    requires 0 < d && x * d as real == m as real && x < f as real
    ensures m < f * d
  {
    RealMul(x, f as real, d as real);
    ProductAsReal(f, d);
  }

  lemma {:induction false} QuotientIs(m: int, d: int, q: int)
    requires 0 < d && q * d <= m < (q + 1) * d
    ensures m / d == q
  {
    QuotientBound(m, d, q);
    QuotientBound(m, d, q + 1);
  }

  lemma {:induction false} FloorIsQuotient(x: real, m: int, d: int)
    requires 0 < d && x * d as real == m as real
    ensures x.Floor == m / d
  {
    FloorBelow(x, x.Floor, m, d);
    FloorAbove(x, x.Floor + 1, m, d);
    QuotientIs(m, d, x.Floor);
  }

  /** The buckets are non-empty, contiguous and cover exactly the indices 1..count-2. */
  lemma {:induction false} Buckets(count: int, threshold: int, i: int)
    requires Shrinks(count, threshold) && 0 <= i
    ensures Bound(count, threshold, 0) == 1
    ensures Bound(count, threshold, threshold - 2) == count - 1
    ensures 1 <= Bound(count, threshold, i) < Bound(count, threshold, i + 1)
  {
    var n, d := count - 2, threshold - 2;
    BoundIsQuotient(count, threshold, 0);
    BoundIsQuotient(count, threshold, d);
    BoundIsQuotient(count, threshold, i);
    BoundIsQuotient(count, threshold, i + 1);
    Grows(n, d, i);
    QuotientBound(d * n, d, n);
    QuotientBound(d * n, d, n + 1);
    assert 0 * n / d == 0;
  }

  lemma {:induction false} Grows(n: int, d: int, i: int)
    requires 0 < d <= n && 0 <= i
    ensures 0 <= i * n / d < (i + 1) * n / d
  {
    var q := i * n / d;
    MulLe(0, i, n);
    QuotientBound(i * n, d, 0);
    QuotientBound(i * n, d, q);
    QuotientBound((i + 1) * n, d, q + 1);
    assert (i + 1) * n == i * n + n && (q + 1) * d == q * d + d;
  }

  lemma {:induction false} BoundMonotone(count: int, threshold: int, i: int, j: int)
    requires Shrinks(count, threshold) && 0 <= i <= j
    ensures Bound(count, threshold, i) + (j - i) <= Bound(count, threshold, j)
    decreases j - i
  {
    if i == j {
    } else {
      Buckets(count, threshold, i);
      BoundMonotone(count, threshold, i + 1, j);
    }
  }

  function SumX(ps: seq<Point>): real {
    if ps == [] then 0.0 else SumX(ps[..|ps| - 1]) + ps[|ps| - 1].x
  }

  function SumY(ps: seq<Point>): real {
    if ps == [] then 0.0 else SumY(ps[..|ps| - 1]) + ps[|ps| - 1].y
  }

  function Mean(ps: seq<Point>): Point
    requires ps != []
  {
    Point(SumX(ps) / |ps| as real, SumY(ps) / |ps| as real)
  }

  lemma {:induction false} SumConcat(a: seq<Point>, b: seq<Point>)
    ensures SumX(a + b) == SumX(a) + SumX(b) && SumY(a + b) == SumY(a) + SumY(b)
  {
    if b == [] {
      assert a + b == a;
    } else {
      assert (a + b)[..|a + b| - 1] == a + b[..|b| - 1];
      SumConcat(a, b[..|b| - 1]);
    }
  }

  lemma {:induction false} SumOfOne(p: Point)
    ensures SumX([p]) == p.x && SumY([p]) == p.y
  {
    assert [p][..0] == [];
  }

  lemma {:induction false} MeanTimes(ps: seq<Point>)
    requires ps != []
    ensures Mean(ps).x * |ps| as real == SumX(ps) && Mean(ps).y * |ps| as real == SumY(ps)
  {
    Undivided(SumX(ps), |ps| as real);
    Undivided(SumY(ps), |ps| as real);
  }

  /** The mean of one point is that point, and means combine by their weights: this determines the
      mean of every bucket. */
  lemma {:induction false} MeanIsWeighted(p: Point, a: seq<Point>, b: seq<Point>)
    requires a != [] && b != []
    ensures Mean([p]) == p
    ensures Mean(a + b).x * |a + b| as real == Mean(a).x * |a| as real + Mean(b).x * |b| as real
    ensures Mean(a + b).y * |a + b| as real == Mean(a).y * |a| as real + Mean(b).y * |b| as real
  {
    SumOfOne(p);
    SumConcat(a, b);
    MeanTimes(a);
    MeanTimes(b);
    MeanTimes(a + b);
  }

  lemma {:induction false} Undivided(x: real, n: real)
    requires n > 0.0
    ensures x / n * n == x
  {
  }

  /** Four times the square of the area of the triangle a, p, c. */
  function Area(a: Point, p: Point, c: Point): (r: real)
    ensures r >= 0.0
  {
    var area := (a.x - c.x) * (p.y - a.y) - (a.x - p.x) * (c.y - a.y);
    area * area
  }

  lemma {:induction false} Distribute(x: real, y: real, z: real)
    ensures x * (y - z) == x * y - x * z
  {
  }

  /** The square of twice the triangle's area by the shoelace formula: swapping corners leaves it
      alone, it is 0 exactly for points in a line, and 1 for half a unit square. */
  lemma {:induction false} AreaIsShoelace(a: Point, p: Point, c: Point)
    ensures var d := a.x * (p.y - c.y) + p.x * (c.y - a.y) + c.x * (a.y - p.y);
            Area(a, p, c) == d * d
    ensures Area(a, p, c) == 0.0 <==> (p.x - a.x) * (c.y - a.y) == (c.x - a.x) * (p.y - a.y)
  {
    Distribute(a.x, p.y, c.y);
    Distribute(p.x, c.y, a.y);
    Distribute(c.x, a.y, p.y);
    Distribute(a.x - c.x, p.y, a.y);
    Distribute(a.x - p.x, c.y, a.y);
    Distribute(p.x - a.x, c.y, a.y);
    Distribute(c.x - a.x, p.y, a.y);
    Differences(a.x, c.x, p.y, a.y);
    Differences(a.x, p.x, c.y, a.y);
    var d := a.x * (p.y - c.y) + p.x * (c.y - a.y) + c.x * (a.y - p.y);
    var area := (a.x - c.x) * (p.y - a.y) - (a.x - p.x) * (c.y - a.y);
    assert area == d;
    SquareIsZero(area);
    assert area == (p.x - a.x) * (c.y - a.y) - (c.x - a.x) * (p.y - a.y);
  }

  lemma {:induction false} Differences(x: real, x': real, y: real, y': real)
    ensures (x - x') * y == x * y - x' * y && (x - x') * y' == x * y' - x' * y'
    ensures (x' - x) * (y - y') == -((x - x') * (y - y'))
  {
  }

  lemma {:induction false} SquareIsZero(x: real)
    ensures x * x == 0.0 <==> x == 0.0
  {
    if x != 0.0 { assert x * x / x == x; }
  }

  /** k is the first point of the bucket with the largest triangle. */
  ghost predicate IsPick(a: Point, bucket: seq<Point>, c: Point, k: nat) {
    && k < |bucket|
    && (forall j :: 0 <= j < |bucket| ==> Area(a, bucket[j], c) <= Area(a, bucket[k], c))
    && (forall j :: 0 <= j < k ==> Area(a, bucket[j], c) < Area(a, bucket[k], c))
  }

  function Pick(a: Point, bucket: seq<Point>, c: Point): (k: nat)
    requires bucket != []
    ensures IsPick(a, bucket, c, k)
  {
    if |bucket| == 1 then 0
    else
      var m := |bucket| - 1;
      var k := Pick(a, bucket[..m], c);
      assert forall j :: 0 <= j < m ==> bucket[..m][j] == bucket[j];
      if Area(a, bucket[m], c) > Area(a, bucket[k], c) then m else k
  }

  /** Bucket i; the bucket after the last one is the final point alone. */
  function Bucket(ps: seq<Point>, threshold: int, i: nat): (b: seq<Point>)
    requires Shrinks(|ps|, threshold) && i <= threshold - 2
    ensures b != []
  {
    Buckets(|ps|, threshold, i);
    BoundMonotone(|ps|, threshold, i, threshold - 2);
    ps[Bound(|ps|, threshold, i)..Min(Bound(|ps|, threshold, i + 1), |ps|)]
  }

  /** Which points are in a bucket: the quotients share out all points between the ends. */
  lemma {:induction false} BucketHolds(ps: seq<Point>, threshold: int, i: nat)
    requires Shrinks(|ps|, threshold) && i <= threshold - 2
    ensures var n, d := |ps| - 2, threshold - 2;
            i < d ==> 1 <= i * n / d + 1 < (i + 1) * n / d + 1 <= |ps| - 1
    ensures var n, d := |ps| - 2, threshold - 2;
            if i == d then Bucket(ps, threshold, i) == [ps[|ps| - 1]]
            else Bucket(ps, threshold, i) == ps[i * n / d + 1..(i + 1) * n / d + 1]
  {
    Buckets(|ps|, threshold, i);
    BoundIsQuotient(|ps|, threshold, i);
    BoundIsQuotient(|ps|, threshold, i + 1);
    if i < threshold - 2 { BoundMonotone(|ps|, threshold, i + 1, threshold - 2); }
    Buckets(|ps|, threshold, threshold - 2);
  }

  /** The index of sample j in the input: the first point, then from each bucket the point with
      the largest triangle against the previous sample and the mean of the next bucket, then the
      last point. */
  function Chosen(ps: seq<Point>, threshold: int, j: nat): (k: nat)
    requires Shrinks(|ps|, threshold) && j < threshold
    ensures k < |ps|
    ensures 1 <= j <= threshold - 2 ==>
      Bound(|ps|, threshold, j - 1) <= k < Bound(|ps|, threshold, j)
  {
    if j == 0 then 0
    else if j == threshold - 1 then |ps| - 1
    else
      Buckets(|ps|, threshold, j - 1);
      BoundMonotone(|ps|, threshold, j, threshold - 2);
      var a := ps[Chosen(ps, threshold, j - 1)];
      Bound(|ps|, threshold, j - 1)
      + Pick(a, Bucket(ps, threshold, j - 1), Mean(Bucket(ps, threshold, j)))
  }

  /** The first n samples. */
  function Samples(ps: seq<Point>, threshold: int, n: nat): (s: seq<Point>)
    requires Shrinks(|ps|, threshold) && n <= threshold
    ensures |s| == n
    ensures forall j :: 0 <= j < n ==> s[j] == ps[Chosen(ps, threshold, j)]
  {
    if n == 0 then [] else Samples(ps, threshold, n - 1) + [ps[Chosen(ps, threshold, n - 1)]]
  }

  lemma {:induction false} ChosenInBucket(ps: seq<Point>, threshold: int, j: nat)
    requires Shrinks(|ps|, threshold) && 1 <= j <= threshold - 2
    ensures 1 <= Bound(|ps|, threshold, j - 1) <= Chosen(ps, threshold, j)
    ensures Chosen(ps, threshold, j) < Bound(|ps|, threshold, j) <= |ps| - 1
  {
    Buckets(|ps|, threshold, j - 1);
    BoundMonotone(|ps|, threshold, j, threshold - 2);
  }

  /** The output keeps the ends, takes one point from each bucket and never goes back. */
  lemma {:induction false} ChosenIncreases(ps: seq<Point>, threshold: int, i: nat, j: nat)
    requires Shrinks(|ps|, threshold) && i < j < threshold
    ensures Chosen(ps, threshold, 0) == 0 && Chosen(ps, threshold, threshold - 1) == |ps| - 1
    ensures Chosen(ps, threshold, i) < Chosen(ps, threshold, j)
  {
    if j == threshold - 1 {
      if i > 0 { ChosenInBucket(ps, threshold, i); }
    } else {
      ChosenInBucket(ps, threshold, j);
      if i > 0 { BucketsInOrder(ps, threshold, i, j); }
    }
  }

  lemma {:induction false} BucketsInOrder(ps: seq<Point>, threshold: int, i: nat, j: nat)
    requires Shrinks(|ps|, threshold) && 0 < i < j < threshold - 1
    ensures Chosen(ps, threshold, i) < Chosen(ps, threshold, j)
  {
    BoundMonotone(|ps|, threshold, i, j - 1);
  }

  /** Largest-Triangle-Three-Buckets as a property of the chosen indices. */
  ghost predicate IsLttb(ps: seq<Point>, threshold: int, idx: seq<nat>)
    requires Shrinks(|ps|, threshold)
  {
    && |idx| == threshold && idx[0] == 0 && idx[threshold - 1] == |ps| - 1
    && (forall j :: 0 <= j < threshold ==> idx[j] < |ps|)
    && forall j: nat :: 1 <= j <= threshold - 2 ==> IsBest(ps, threshold, idx, j)
  }

  ghost predicate IsBest(ps: seq<Point>, threshold: int, idx: seq<nat>, j: nat)
    requires Shrinks(|ps|, threshold) && |idx| == threshold && 1 <= j <= threshold - 2
    requires forall i :: 0 <= i < threshold ==> idx[i] < |ps|
  {
    && idx[j] >= Bound(|ps|, threshold, j - 1)
    && IsPick(ps[idx[j - 1]], Bucket(ps, threshold, j - 1), Mean(Bucket(ps, threshold, j)),
              idx[j] - Bound(|ps|, threshold, j - 1))
  }

  /** That property determines the indices: the recursive definition is the only solution. */
  lemma {:induction false} LttbIsUnique(ps: seq<Point>, threshold: int, idx: seq<nat>)
    requires Shrinks(|ps|, threshold)
    ensures IsLttb(ps, threshold, idx) <==>
            |idx| == threshold && forall j :: 0 <= j < threshold ==> idx[j] == Chosen(ps, threshold, j)
  {
    if IsLttb(ps, threshold, idx) {
      forall j | 0 <= j < threshold ensures idx[j] == Chosen(ps, threshold, j) {
        OnlyChoice(ps, threshold, idx, j);
      }
    }
  }

  lemma {:induction false} OnlyChoice(ps: seq<Point>, threshold: int, idx: seq<nat>, j: nat)
    requires Shrinks(|ps|, threshold) && IsLttb(ps, threshold, idx) && j < threshold
    ensures idx[j] == Chosen(ps, threshold, j)
  {
    if j == 0 || j == threshold - 1 {
    } else {
      OnlyChoice(ps, threshold, idx, j - 1);
      assert IsBest(ps, threshold, idx, j);
      var a, b, c := ps[idx[j - 1]], Bucket(ps, threshold, j - 1), Mean(Bucket(ps, threshold, j));
      PickIsUnique(a, b, c, idx[j] - Bound(|ps|, threshold, j - 1), Pick(a, b, c));
    }
  }

  lemma {:induction false} PickIsUnique(a: Point, bucket: seq<Point>, c: Point, k: nat, l: nat)
    requires IsPick(a, bucket, c, k) && IsPick(a, bucket, c, l)
    ensures k == l
  {
    assert Area(a, bucket[k], c) == Area(a, bucket[l], c);
  }

  // ------------------------------------------------------------------ the streaming code

  datatype Downsampled = Points(ps: seq<Point>) | MinThreshold | IterFailed

  /** The iterator of lib/plot/timeseries.go over a finished series. A damaged series reports an
      error once the iterator has run into its end. */
  class Iter {
    const data: seq<Point>
    const damaged: bool
    var pos: nat
    var failed: bool

    predicate Valid() reads this { pos <= |data| && (failed ==> damaged) }

    constructor (data: seq<Point>, damaged: bool)
      ensures this.data == data && this.damaged == damaged && pos == 0 && !failed && Valid()
    {
      this.data, this.damaged, this.pos, this.failed := data, damaged, 0, false;
    }

    /** The next `count` points, or as many as are left. */
    method Next(count: nat) returns (ps: seq<Point>, err: bool)
      requires Valid()
      modifies this
      ensures Valid()
      ensures pos == Min(old(pos) + count, |data|)
      ensures ps == data[old(pos)..pos]
      ensures err == failed == (old(failed) || (damaged && old(pos) + count > |data|))
    {
      ps := [];
      var i := 0;
      while i < count && pos < |data|
        invariant 0 <= i <= count && Valid()
        invariant pos == old(pos) + i && ps == data[old(pos)..pos] && failed == old(failed)
      {
        ps := ps + [data[pos]];
        pos := pos + 1;
        i := i + 1;
      }
      if i < count && damaged {
        failed := true;
      }
      err := failed;
    }
  }

  method Sample(a: Point, current: seq<Point>, next: seq<Point>) returns (b: Point)
    requires current != [] && next != []
    ensures b == current[Pick(a, current, Mean(next))]
  {
    var x, y := 0.0, 0.0;
    for i := 0 to |next|
      invariant x == SumX(next[..i]) && y == SumY(next[..i])
    {
      assert next[..i + 1][..i] == next[..i];
      x, y := x + next[i].x, y + next[i].y;
    }
    assert next[..|next|] == next;
    var length := |next| as real;
    var c := Point(x / length, y / length);

    var largest, index := 0.0, 0;
    for i := 0 to |current|
      invariant 0 <= index < |current| && index <= i
      invariant i == 0 ==> largest == 0.0 && index == 0
      invariant i > 0 ==> index < i && largest == Area(a, current[index], c)
      invariant forall j :: 0 <= j < i ==> Area(a, current[j], c) <= largest
      invariant forall j :: 0 <= j < index ==> Area(a, current[j], c) < largest
    {
      var area := Area(a, current[i], c);
      if area > largest {
        largest, index := area, i;
      }
    }
    PickIsUnique(a, current, c, index, Pick(a, current, c));
    b := current[index];
  }

  lemma {:induction false} ChosenNext(ps: seq<Point>, threshold: int, i: nat)
    requires Shrinks(|ps|, threshold) && i < threshold - 2
    ensures var s, b := Samples(ps, threshold, i + 1), Bucket(ps, threshold, i);
            Chosen(ps, threshold, i + 1) ==
            Bound(|ps|, threshold, i) + Pick(s[i], b, Mean(Bucket(ps, threshold, i + 1)))
  {
    assert Samples(ps, threshold, i + 1)[i] == ps[Chosen(ps, threshold, i)];
  }

  /** Sample i+1 is what Sample returns for bucket i. */
  lemma {:induction false} NextSample(ps: seq<Point>, threshold: int, i: nat)
    requires Shrinks(|ps|, threshold) && i < threshold - 2
    ensures var s, b := Samples(ps, threshold, i + 1), Bucket(ps, threshold, i);
            Samples(ps, threshold, i + 2) == s + [b[Pick(s[i], b, Mean(Bucket(ps, threshold, i + 1)))]]
  {
    var s, b := Samples(ps, threshold, i + 1), Bucket(ps, threshold, i);
    var k := Pick(s[i], b, Mean(Bucket(ps, threshold, i + 1)));
    ChosenNext(ps, threshold, i);
    assert b[k] == ps[Bound(|ps|, threshold, i) + k];
  }

  /** One turn of the loop: fetch the next bucket and sample the current one. */
  method Advance(threshold: int, i: nat, it: Iter, samples: seq<Point>, current: seq<Point>)
    returns (next: seq<Point>, b: Point, err: bool)
    requires Shrinks(|it.data|, threshold) && i < threshold - 2
    requires it.Valid() && !it.failed && it.pos == Bound(|it.data|, threshold, i + 1)
    requires samples == Samples(it.data, threshold, i + 1)
    requires current == Bucket(it.data, threshold, i)
    modifies it
    ensures it.Valid() && err == it.failed
    ensures it.pos == Min(Bound(|it.data|, threshold, i + 2), |it.data|)
    ensures next == Bucket(it.data, threshold, i + 1)
    ensures samples + [b] == Samples(it.data, threshold, i + 2)
  {
    ghost var count := |it.data|;
    BucketEdges(count, threshold, i);
    next, err := it.Next(Bound(|it.data|, threshold, i + 2) - Bound(|it.data|, threshold, i + 1));
    b := Sample(samples[|samples| - 1], current, next);
    NextSample(it.data, threshold, i);
  }

  /** The first bucket, behind the first point. */
  method Start(threshold: int, it: Iter) returns (points: seq<Point>, err: bool)
    requires Shrinks(|it.data|, threshold)
    requires it.Valid() && !it.failed && it.pos == 0
    modifies it
    ensures it.Valid() && !err && !it.failed && it.pos == Bound(|it.data|, threshold, 1)
    ensures |points| > 0 && [points[0]] == Samples(it.data, threshold, 1)
    ensures points[1..] == Bucket(it.data, threshold, 0)
  {
    BucketEdges(|it.data|, threshold, 0);
    Buckets(|it.data|, threshold, 0);
    var size := Size(|it.data|, threshold);
    assert (1.0 + size).Floor == Bound(|it.data|, threshold, 1);
    points, err := it.Next((1.0 + size).Floor);
  }

  /** Streaming equals the array definition on every undamaged series, fails on every damaged one
      that it has to read to the end, and refuses thresholds that leave no room. */
  method Downsample(count: nat, threshold: int, it: Iter) returns (r: Downsampled)
    requires it.Valid() && it.pos == 0 && !it.failed && |it.data| == count
    modifies it
    ensures threshold >= count || threshold == 0 ==> r == Points(it.data)
    ensures threshold < count && threshold < 3 && threshold != 0 ==> r == MinThreshold
    ensures Shrinks(count, threshold) ==>
      r == if it.damaged then IterFailed else Points(Samples(it.data, threshold, threshold))
  {
    if threshold >= count || threshold == 0 {
      var ps, err := it.Next(count);
      return if err then IterFailed else Points(ps);
    }
    if threshold < 3 {
      return MinThreshold;
    }
    var points, err := Start(threshold, it);
    if err {
      return IterFailed;
    }
    var samples := [points[0]];
    var current := points[1..];

    for i := 0 to threshold - 2
      invariant it.Valid() && !it.failed
      invariant it.pos == Min(Bound(count, threshold, i + 1), count)
      invariant current == Bucket(it.data, threshold, i)
      invariant samples == Samples(it.data, threshold, i + 1)
    {
      BucketEdges(count, threshold, i);
      var next, b, err := Advance(threshold, i, it, samples, current);
      if err {
        return IterFailed;
      }
      samples := samples + [b];
      current := next;
    }

    LastBucket(it.data, threshold);
    points, err := it.Next(count - |samples|);
    if err {
      return IterFailed;
    }
    if |points| == 0 {
      points := current;
    }
    if |points| > 0 {
      samples := samples + [points[|points| - 1]];
    }
    r := Points(samples);
  }

  /** After the loop nothing is left to fetch and the current bucket is the final point. */
  lemma {:induction false} LastBucket(ps: seq<Point>, threshold: int)
    requires Shrinks(|ps|, threshold)
    ensures Min(Bound(|ps|, threshold, threshold - 1), |ps|) == |ps|
    ensures Bucket(ps, threshold, threshold - 2) == [ps[|ps| - 1]]
    ensures Samples(ps, threshold, threshold) ==
            Samples(ps, threshold, threshold - 1) + [ps[|ps| - 1]]
  {
    Buckets(|ps|, threshold, threshold - 2);
  }

  /** Where bucket i+1 starts and ends, seen from the loop. */
  lemma {:induction false} BucketEdges(count: int, threshold: int, i: int)
    requires Shrinks(count, threshold) && 0 <= i < threshold - 2
    ensures 0 < Bound(count, threshold, i) < Bound(count, threshold, i + 1)
    ensures Bound(count, threshold, i + 1) < Bound(count, threshold, i + 2)
    ensures Bound(count, threshold, i + 1) <= count - 1
  {
    Buckets(count, threshold, i);
    Buckets(count, threshold, i + 1);
    BoundMonotone(count, threshold, i + 1, threshold - 2);
  }
}
