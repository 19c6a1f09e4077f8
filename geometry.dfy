/**
 * The geometry kernel (geometry.js in the bundle): squared distances, centre,
 * point-to-segment distance, Douglas-Peucker simplification and ring winding.
 * Rings are flat sequences x0, y0, x1, y1, ... of integers.
 */
module Geometry {
  import opened Js

  // ---------------------------------------------------------------------------
  // getDistance, crop

  /** `getDistance`: the squared Euclidean distance of two points. */
  function GetDistance(p1: (int, int), p2: (int, int)): (r: int)
    ensures r >= 0
    ensures r == 0 <==> p1 == p2
  {
    var dx := p1.0 - p2.0;
    var dy := p1.1 - p2.1;
    SquaresNonNegative(dx, dy);
    dx * dx + dy * dy
  }

  lemma SquaresNonNegative(dx: int, dy: int)
    ensures dx * dx >= 0 && dy * dy >= 0
    ensures dx * dx + dy * dy == 0 <==> dx == 0 && dy == 0
  {
    if dx != 0 {
      assert dx * dx > 0 by {
        if dx > 0 { assert dx * dx >= dx; } else { assert dx * dx >= -dx; }
      }
    }
    if dy != 0 {
      assert dy * dy > 0 by {
        if dy > 0 { assert dy * dy >= dy; } else { assert dy * dy >= -dy; }
      }
    }
  }

  /**
   * `crop(num)`: `num` truncated toward zero to four decimals. The model returns
   * the number of ten-thousandths; the JavaScript value is that divided by 10000.
   */
  function CropUnits(num: real): (units: int)
    ensures -TwoTo31 <= units < TwoTo31
    ensures -TwoTo31 as real <= num * 10000.0 < TwoTo31 as real ==> -1.0 < num * 10000.0 - units as real < 1.0
  {
    ToInt32(num * 10000.0)
  }

  /** Cropping an already cropped number changes nothing. */
  lemma CropIdempotent(num: real)
    ensures CropUnits(CropUnits(num) as real / 10000.0) == CropUnits(num)
  {
    var u := CropUnits(num);
    assert u as real / 10000.0 * 10000.0 == u as real;
  }

  // ---------------------------------------------------------------------------
  // getCenter

  /** Sum of `p[2k + off]` for the first `n` pairs. */
  function PairSum(p: seq<int>, off: nat, n: nat): int
    requires off < 2 && 2 * n <= |p|
  {
    if n == 0 then 0 else PairSum(p, off, n - 1) + p[2 * (n - 1) + off]
  }

  /**
   * What `getCenter` computes: the truncated mean of the vertices without the
   * closing one, wrapped to 32 bits by `<<0`. With fewer than two vertices the source divides by zero or
   * averages nothing, and `<<0` turns the result into 0.
   */
  function Center(p: seq<int>): (int, int)
    requires |p| % 2 == 0
  {
    var n := |p| / 2 - 1;
    if n <= 0 then (0, 0)
    else (Int32(TruncDiv(PairSum(p, 0, n), n)), Int32(TruncDiv(PairSum(p, 1, n), n)))
  }

  /** `getCenter`, with its accumulation loop. */
  method GetCenter(points: seq<int>) returns (c: (int, int))
    requires |points| % 2 == 0
    ensures c == Center(points)
  {
    var x, y := 0, 0;
    var i := 0;
    ghost var k := 0;
    while i < |points| - 3
      invariant i == 2 * k && 0 <= k
      invariant |points| >= 2 ==> k <= |points| / 2 - 1
      invariant |points| < 2 ==> k == 0
      invariant x == PairSum(points, 0, k) && y == PairSum(points, 1, k)
    {
      x := x + points[i];
      y := y + points[i + 1];
      i := i + 2;
      k := k + 1;
    }
    var len := (|points| - 2) / 2;
    if len <= 0 {
      c := (0, 0);
    } else {
      c := (Int32(TruncDiv(x, len)), Int32(TruncDiv(y, len)));
    }
  }

  lemma {:induction false} PairSumBounds(p: seq<int>, off: nat, n: nat, lo: int, hi: int)
    requires off < 2 && 2 * n <= |p|
    requires forall k :: 0 <= k < n ==> lo <= p[2 * k + off] <= hi
    ensures n * lo <= PairSum(p, off, n) <= n * hi
  {
    if n > 0 {
      PairSumBounds(p, off, n - 1, lo, hi);
      assert lo <= p[2 * (n - 1) + off] <= hi;
      assert (n - 1) * lo + lo == n * lo;
      assert (n - 1) * hi + hi == n * hi;
    }
  }

  lemma TruncBetween(v: real, lo: int, hi: int)
    requires lo as real <= v <= hi as real
    ensures lo <= Trunc(v) <= hi
  {
  }

  lemma MeanBetween(s: int, n: int, lo: int, hi: int)
    requires n > 0 && n * lo <= s <= n * hi
    ensures lo as real <= s as real / n as real <= hi as real
  {
    assert (n * lo) as real == n as real * lo as real;
    assert (n * hi) as real == n as real * hi as real;
  }

  /**
   * The centre lies within the bounding box of the vertices it averages, when
   * that box lies in the 32-bit range (pixel coordinates do, since they are
   * themselves results of `<<0`).
   */
  lemma CenterInBoundingBox(p: seq<int>, xlo: int, xhi: int, ylo: int, yhi: int)
    requires |p| % 2 == 0 && |p| >= 4
    requires -TwoTo31 <= xlo && xhi < TwoTo31 && -TwoTo31 <= ylo && yhi < TwoTo31
    requires forall k :: 0 <= k < |p| / 2 - 1 ==> xlo <= p[2 * k] <= xhi && ylo <= p[2 * k + 1] <= yhi
    ensures xlo <= Center(p).0 <= xhi && ylo <= Center(p).1 <= yhi
  {
    var n := |p| / 2 - 1;
    MeanInRange(p, 0, n, xlo, xhi);
    MeanInRange(p, 1, n, ylo, yhi);
  }

  /** One coordinate of the centre lies between bounds of the values it averages. */
  lemma MeanInRange(p: seq<int>, off: nat, n: nat, lo: int, hi: int)
    requires off < 2 && 0 < n && 2 * n <= |p|
    requires -TwoTo31 <= lo && hi < TwoTo31
    requires forall k :: 0 <= k < n ==> lo <= p[2 * k + off] <= hi
    ensures lo <= Int32(TruncDiv(PairSum(p, off, n), n)) <= hi
  {
    var s := PairSum(p, off, n);
    PairSumBounds(p, off, n, lo, hi);
    MeanBetween(s, n, lo, hi);
    TruncBetween(s as real / n as real, lo, hi);
    TruncDivTruncates(s, n);
  }

  // ---------------------------------------------------------------------------
  // getSquareSegmentDistance

  function Sq(x: real): (r: real)
    ensures r >= 0.0
  {
    x * x
  }

  /**
   * `getSquareSegmentDistance`: squared distance from (px, py) to the segment
   * p1-p2, projecting onto the segment's line and clamping the projection
   * parameter `t` to [0, 1].
   */
  function SqSegDist(px: int, py: int, p1x: int, p1y: int, p2x: int, p2y: int): (r: real)
    ensures r >= 0.0
  {
    var dx := (p2x - p1x) as real;
    var dy := (p2y - p1y) as real;
    if dx != 0.0 || dy != 0.0 then
      var t := Projection(px, py, p1x, p1y, p2x, p2y);
      if t > 1.0 then Sq((px - p2x) as real) + Sq((py - p2y) as real)
      else if t > 0.0 then Sq(px as real - (p1x as real + dx * t)) + Sq(py as real - (p1y as real + dy * t))
      else Sq((px - p1x) as real) + Sq((py - p1y) as real)
    else Sq((px - p1x) as real) + Sq((py - p1y) as real)
  }

  /** The projection parameter of (px, py) on the line through p1 and p2 (p1 != p2). */
  function Projection(px: int, py: int, p1x: int, p1y: int, p2x: int, p2y: int): real
    requires p1x != p2x || p1y != p2y
  {
    var dx := p2x - p1x;
    var dy := p2y - p1y;
    SquaresNonNegative(dx, dy);
    ((px - p1x) * dx + (py - p1y) * dy) as real / (dx * dx + dy * dy) as real
  }

  /** Each end point of the segment is at distance 0 from it. */
  lemma SqSegDistOfEnds(p1x: int, p1y: int, p2x: int, p2y: int)
    ensures SqSegDist(p1x, p1y, p1x, p1y, p2x, p2y) == 0.0
    ensures SqSegDist(p2x, p2y, p1x, p1y, p2x, p2y) == 0.0
  {
    if p1x != p2x || p1y != p2y {
      var dx := p2x - p1x;
      var dy := p2y - p1y;
      SquaresNonNegative(dx, dy);
      assert Projection(p1x, p1y, p1x, p1y, p2x, p2y) == 0.0;
      assert Projection(p2x, p2y, p1x, p1y, p2x, p2y) == 1.0 by {
        var n := dx * dx + dy * dy;
        assert (p2x - p1x) * dx + (p2y - p1y) * dy == n;
        assert n as real / n as real == 1.0;
      }
      assert p2x as real - (p1x as real + dx as real * 1.0) == 0.0;
      assert p2y as real - (p1y as real + dy as real * 1.0) == 0.0;
    }
  }

  // ---------------------------------------------------------------------------
  // simplify

  /** Squared distance of vertex `j` of `p` to the segment from vertex `f` to vertex `l`. */
  function SegDist(p: seq<int>, j: nat, f: nat, l: nat): real
    requires 2 * j + 1 < |p| && 2 * f + 1 < |p| && 2 * l + 1 < |p|
  {
    SqSegDist(p[2 * j], p[2 * j + 1], p[2 * f], p[2 * f + 1], p[2 * l], p[2 * l + 1])
  }

  /**
   * The scan of `simplify`'s inner `for` loop from vertex `i` on: the index of
   * the first vertex whose distance exceeds everything before it, and that
   * distance (`idx`, `maxD` are the values carried in).
   */
  function Farthest(p: seq<int>, f: nat, l: nat, i: nat, idx: int, maxD: real): (r: (int, real))
    requires 2 * f + 1 < |p| && 2 * l + 1 < |p| && i <= l
    ensures r.1 >= maxD
    ensures r.1 > maxD ==> i <= r.0 < l && SegDist(p, r.0, f, l) == r.1
    ensures r.1 == maxD ==> r.0 == idx
    ensures forall k :: i <= k < l ==> SegDist(p, k, f, l) <= r.1
    decreases l - i
  {
    if i == l then (idx, maxD)
    else
      var d := SegDist(p, i, f, l);
      if d > maxD then Farthest(p, f, l, i + 1, i, d)
      else Farthest(p, f, l, i + 1, idx, maxD)
  }

  /** The index carried in only matters when nothing beats the initial maximum. */
  lemma {:induction false} FarthestCarriedIndex(p: seq<int>, f: nat, l: nat, i: nat, a: int, b: int, maxD: real)
    requires 2 * f + 1 < |p| && 2 * l + 1 < |p| && i <= l
    ensures Farthest(p, f, l, i, a, maxD).1 == Farthest(p, f, l, i, b, maxD).1
    ensures Farthest(p, f, l, i, a, maxD).1 > maxD ==> Farthest(p, f, l, i, a, maxD).0 == Farthest(p, f, l, i, b, maxD).0
    decreases l - i
  {
    if i < l {
      var d := SegDist(p, i, f, l);
      if d <= maxD {
        FarthestCarriedIndex(p, f, l, i + 1, a, b, maxD);
      }
    }
  }

  /** The squared tolerance of `simplify`. */
  const SqTolerance: real := 2.0

  /**
   * The interior vertices of segment f-l that Douglas-Peucker keeps: the
   * farthest vertex when its squared distance exceeds the tolerance, and
   * then, recursively, those of the two halves.
   */
  function Marks(p: seq<int>, f: nat, l: nat): set<int>
    requires f < l && 2 * l + 1 < |p|
    decreases l - f
  {
    var (idx, d) := Farthest(p, f, l, f + 1, f, 0.0);
    if d > SqTolerance then {idx} + Marks(p, f, idx) + Marks(p, idx, l) else {}
  }

  lemma {:induction false} MarksInside(p: seq<int>, f: nat, l: nat)
    requires f < l && 2 * l + 1 < |p|
    ensures forall k :: k in Marks(p, f, l) ==> f < k < l
    decreases l - f
  {
    var (idx, d) := Farthest(p, f, l, f + 1, f, 0.0);
    if d > SqTolerance {
      MarksInside(p, f, idx);
      MarksInside(p, idx, l);
    }
  }

  /** All vertex indices `simplify` keeps: both ends and the marked interior ones. */
  function Kept(p: seq<int>): set<int>
  {
    var len := |p| / 2;
    if len == 0 then {}
    else if len == 1 then {0}
    else {0, len - 1} + Marks(p, 0, len - 1)
  }

  /** The pairs of the first `n` vertices of `p` whose index is in `keep`, in order. */
  function Select(p: seq<int>, keep: set<int>, n: nat): (r: seq<int>)
    requires 2 * n <= |p|
    ensures |r| % 2 == 0 && |r| <= 2 * n
  {
    if n == 0 then []
    else Select(p, keep, n - 1) + (if n - 1 in keep then [p[2 * (n - 1)], p[2 * (n - 1) + 1]] else [])
  }

  /** What `simplify` returns. */
  function Simplified(p: seq<int>): (r: seq<int>)
    requires |p| % 2 == 0
  {
    Select(p, Kept(p), |p| / 2)
  }

  /** Every index `Marks` or `Kept` yields is a vertex of the ring. */
  lemma KeptInRange(p: seq<int>)
    ensures forall k :: k in Kept(p) ==> 0 <= k < |p| / 2
    ensures |p| / 2 >= 1 ==> 0 in Kept(p) && |p| / 2 - 1 in Kept(p)
  {
    if |p| / 2 >= 2 {
      MarksInside(p, 0, |p| / 2 - 1);
    }
  }

  /**
   * Tolerance of the recursion: a vertex strictly inside f-l that is not
   * marked lies within the tolerance of the segment between its nearest
   * kept neighbours.
   */
  lemma {:induction false} MarksCover(p: seq<int>, f: nat, l: nat, j: nat) returns (a: nat, b: nat)
    requires f < j < l && 2 * l + 1 < |p|
    requires j !in Marks(p, f, l)
    ensures f <= a < j < b <= l
    ensures a == f || a in Marks(p, f, l)
    ensures b == l || b in Marks(p, f, l)
    ensures forall k :: a < k < b ==> k !in Marks(p, f, l)
    ensures SegDist(p, j, a, b) <= SqTolerance
    decreases l - f
  {
    var (idx, d) := Farthest(p, f, l, f + 1, f, 0.0);
    var m := Marks(p, f, l);
    if d > SqTolerance {
      MarksInside(p, f, idx);
      MarksInside(p, idx, l);
      assert m == {idx} + Marks(p, f, idx) + Marks(p, idx, l);
      if j < idx {
        a, b := MarksCover(p, f, idx, j);
        AvoidUnion(m, Marks(p, f, idx), Marks(p, idx, l), idx, a, b);
      } else {
        a, b := MarksCover(p, idx, l, j);
        AvoidUnion(m, Marks(p, f, idx), Marks(p, idx, l), idx, a, b);
      }
    } else {
      a, b := f, l;
      assert forall k :: f < k < l ==> k !in m;
    }
  }

  /** A gap free of the half it lies in is free of the whole split: the other half lies beyond `idx`. */
  lemma AvoidUnion(m: set<int>, left: set<int>, right: set<int>, idx: int, a: int, b: int)
    requires m == {idx} + left + right
    requires forall k :: k in left ==> k < idx
    requires forall k :: k in right ==> idx < k
    requires b <= idx || idx <= a
    requires b <= idx ==> forall k :: a < k < b ==> k !in left
    requires idx <= a ==> forall k :: a < k < b ==> k !in right
    ensures forall k :: a < k < b ==> k !in m
  {
  }

  /**
   * The promise of Douglas-Peucker: every vertex `simplify` drops lies within
   * the tolerance (squared distance 2) of the segment joining its nearest kept
   * neighbours.
   */
  lemma SimplifyTolerance(p: seq<int>, j: nat)
    requires |p| % 2 == 0 && j < |p| / 2 && j !in Kept(p)
    ensures exists a: nat, b: nat :: a < j < b < |p| / 2 && a in Kept(p) && b in Kept(p)
              && (forall k :: a < k < b ==> k !in Kept(p))
              && SegDist(p, j, a, b) <= SqTolerance
  {
    var len := |p| / 2;
    assert 0 < j < len - 1;
    var m := Marks(p, 0, len - 1);
    assert Kept(p) == {0, len - 1} + m;
    MarksInside(p, 0, len - 1);
    var a, b := MarksCover(p, 0, len - 1, j);
    assert a in Kept(p) && b in Kept(p);
    KeptBetween(p, a, b, m);
    assert a < j < b < len;
  }

  /** No vertex strictly between two vertices is kept when none of them is marked. */
  lemma KeptBetween(p: seq<int>, a: nat, b: nat, m: set<int>)
    requires |p| / 2 >= 2 && b <= |p| / 2 - 1 && m == Marks(p, 0, |p| / 2 - 1)
    requires forall k :: a < k < b ==> k !in m
    ensures forall k :: a < k < b ==> k !in Kept(p)
  {
    assert Kept(p) == {0, |p| / 2 - 1} + m;
  }

  /** `Select` keeps exactly the chosen vertices, in order: its pairs and their count. */
  lemma {:induction false} SelectFirst(p: seq<int>, keep: set<int>, n: nat)
    requires 2 * n <= |p| && n >= 1 && 0 in keep
    ensures |Select(p, keep, n)| >= 2 && Select(p, keep, n)[..2] == p[..2]
  {
    if n > 1 {
      SelectFirst(p, keep, n - 1);
    }
  }

  lemma {:induction false} SelectAll(p: seq<int>, keep: set<int>, n: nat)
    requires 2 * n <= |p| && forall k :: 0 <= k < n ==> k in keep
    ensures Select(p, keep, n) == p[..2 * n]
  {
    if n > 0 {
      SelectAll(p, keep, n - 1);
      assert p[..2 * n] == p[..2 * (n - 1)] + [p[2 * (n - 1)], p[2 * (n - 1) + 1]];
    }
  }

  /** A selection that keeps the first and the last vertex starts and ends with them. */
  lemma SelectEnds(p: seq<int>, keep: set<int>, n: nat)
    requires 2 * n <= |p| && n >= 1 && 0 in keep && n - 1 in keep
    ensures |Select(p, keep, n)| >= 2
    ensures Select(p, keep, n)[..2] == p[..2]
    ensures Select(p, keep, n)[|Select(p, keep, n)| - 2..] == p[2 * n - 2..2 * n]
  {
    SelectFirst(p, keep, n);
    var r := Select(p, keep, n);
    assert r == Select(p, keep, n - 1) + [p[2 * (n - 1)], p[2 * (n - 1) + 1]];
  }

  /** The simplified ring starts at the first vertex and ends at the last. */
  lemma SimplifyKeepsEnds(p: seq<int>)
    requires |p| % 2 == 0 && |p| >= 2
    ensures |Simplified(p)| >= 2
    ensures Simplified(p)[..2] == p[..2]
    ensures Simplified(p)[|Simplified(p)| - 2..] == p[|p| - 2..]
    ensures |Simplified(p)| <= |p|
  {
    var len := |p| / 2;
    KeptInRange(p);
    SelectEnds(p, Kept(p), len);
    assert 2 * len == |p|;
  }

  /** Rings of up to two vertices come back unchanged. */
  lemma SimplifyShort(p: seq<int>)
    requires |p| % 2 == 0 && |p| <= 4
    ensures Simplified(p) == p
  {
    KeptInRange(p);
    SelectAll(p, Kept(p), |p| / 2);
    assert p[..|p|] == p;
  }

  /** Interior marks still to be found for the segments on the two stacks. */
  ghost predicate StacksOk(fs: seq<int>, ls: seq<int>, len: int)
  {
    |fs| == |ls| && forall k :: 0 <= k < |fs| ==> 0 <= fs[k] < ls[k] < len
  }

  ghost function Pending(p: seq<int>, fs: seq<int>, ls: seq<int>): set<int>
    requires StacksOk(fs, ls, |p| / 2)
  {
    if fs == [] then {}
    else Pending(p, fs[..|fs| - 1], ls[..|ls| - 1]) + Marks(p, fs[|fs| - 1], ls[|ls| - 1])
  }

  ghost function Weight(fs: seq<int>, ls: seq<int>, len: int): nat
    requires StacksOk(fs, ls, len)
  {
    if fs == [] then 0
    else Weight(fs[..|fs| - 1], ls[..|ls| - 1], len) + 2 * (ls[|ls| - 1] - fs[|fs| - 1]) - 1
  }

  /** Pushing one segment onto both stacks adds that segment's marks. */
  lemma PendingPush(p: seq<int>, fs: seq<int>, ls: seq<int>, f: int, l: int)
    requires StacksOk(fs, ls, |p| / 2) && 0 <= f < l < |p| / 2
    ensures StacksOk(fs + [f], ls + [l], |p| / 2)
    ensures Pending(p, fs + [f], ls + [l]) == Pending(p, fs, ls) + Marks(p, f, l)
    ensures Weight(fs + [f], ls + [l], |p| / 2) == Weight(fs, ls, |p| / 2) + 2 * (l - f) - 1
  {
    assert (fs + [f])[..|fs|] == fs;
    assert (ls + [l])[..|ls|] == ls;
  }

  /** One step of the marking loop: what splitting first-last at the farthest vertex adds. */
  lemma MarksSplit(p: seq<int>, first: nat, last: nat, index0: int, index: int, maxSqDist: real)
    requires first < last && 2 * last + 1 < |p|
    requires (index, maxSqDist) == Farthest(p, first, last, first + 1, index0, 0.0)
    ensures maxSqDist > SqTolerance ==> first < index < last
    ensures Marks(p, first, last)
            == if maxSqDist > SqTolerance then {index} + Marks(p, first, index) + Marks(p, index, last) else {}
  {
    FarthestCarriedIndex(p, first, last, first + 1, index0, first, 0.0);
  }

  /** The inner `for` loop of `simplify`: the farthest interior vertex of first-last. */
  method FarthestVertex(points: seq<int>, first: nat, last: nat, index0: int) returns (index: int, maxSqDist: real)
    requires first < last && 2 * last + 1 < |points|
    ensures (index, maxSqDist) == Farthest(points, first, last, first + 1, index0, 0.0)
  {
    index, maxSqDist := index0, 0.0;
    var i := first + 1;
    while i < last
      invariant first + 1 <= i <= last
      invariant Farthest(points, first, last, i, index, maxSqDist)
                == Farthest(points, first, last, first + 1, index0, 0.0)
    {
      var sqDist := SegDist(points, i, first, last);
      if sqDist > maxSqDist {
        index := i;
        maxSqDist := sqDist;
      }
      i := i + 1;
    }
  }

  /**
   * One pass of the marking loop of `simplify` over segment first-last: find
   * the farthest vertex and, when it lies beyond the tolerance, mark it and
   * push the two halves.
   */
  method SplitSegment(points: seq<int>, markers: array<bool>, first: nat, last: nat, index0: int,
                      firstStack: seq<int>, lastStack: seq<int>, ghost marked: set<int>)
      returns (index: int, firstStack': seq<int>, lastStack': seq<int>, ghost marked': set<int>)
    requires |points| % 2 == 0 && markers.Length == |points| / 2
    requires first < last < markers.Length
    requires StacksOk(firstStack, lastStack, markers.Length)
    requires forall k :: 0 <= k < markers.Length ==> (markers[k] <==> k in marked)
    modifies markers
    ensures forall k :: 0 <= k < markers.Length ==> (markers[k] <==> k in marked')
    ensures StacksOk(firstStack', lastStack', markers.Length)
    ensures marked' + Pending(points, firstStack', lastStack')
            == marked + Pending(points, firstStack, lastStack) + Marks(points, first, last)
    ensures Weight(firstStack', lastStack', markers.Length) < Weight(firstStack, lastStack, markers.Length) + 2 * (last - first) - 1
  {
    var split;
    index, split := FindSplit(points, first, last, index0);
    firstStack', lastStack', marked' := firstStack, lastStack, marked;
    if split {
      marked' := MarkVertex(markers, index, marked);
      PushHalves(points, firstStack, lastStack, first, index, last);
      firstStack', lastStack' := firstStack + [first] + [index], lastStack + [index] + [last];
    }
  }

  /** Pushing the two halves first-index and index-last of a split segment. */
  lemma PushHalves(p: seq<int>, fs: seq<int>, ls: seq<int>, first: int, index: int, last: int)
    requires StacksOk(fs, ls, |p| / 2) && 0 <= first < index < last < |p| / 2
    ensures StacksOk(fs + [first] + [index], ls + [index] + [last], |p| / 2)
    ensures Pending(p, fs + [first] + [index], ls + [index] + [last])
            == Pending(p, fs, ls) + Marks(p, first, index) + Marks(p, index, last)
    ensures Weight(fs + [first] + [index], ls + [index] + [last], |p| / 2)
            == Weight(fs, ls, |p| / 2) + 2 * (last - first) - 2
  {
    PendingPush(p, fs, ls, first, index);
    PendingPush(p, fs + [first], ls + [index], index, last);
  }

  /** `markers[index] = true`, with the set of marked vertices it stands for. */
  method MarkVertex(markers: array<bool>, index: int, ghost marked: set<int>) returns (ghost marked': set<int>)
    requires 0 <= index < markers.Length
    requires forall k :: 0 <= k < markers.Length ==> (markers[k] <==> k in marked)
    modifies markers
    ensures marked' == marked + {index}
    ensures forall k :: 0 <= k < markers.Length ==> (markers[k] <==> k in marked')
  {
    markers[index] := true;
    marked' := marked + {index};
  }

  /** Whether and where `simplify` splits segment first-last, with what that adds. */
  method FindSplit(points: seq<int>, first: nat, last: nat, index0: int) returns (index: int, split: bool)
    requires first < last && 2 * last + 1 < |points|
    ensures split ==> first < index < last
    ensures Marks(points, first, last)
            == if split then {index} + Marks(points, first, index) + Marks(points, index, last) else {}
  {
    var maxSqDist;
    index, maxSqDist := FarthestVertex(points, first, last, index0);
    MarksSplit(points, first, last, index0, index, maxSqDist);
    split := maxSqDist > SqTolerance;
  }

  /**
   * The marking loop of `simplify`: Douglas-Peucker with two explicit stacks.
   * The loop's `while (last)` ends when `pop` on the empty stacks yields
   * `undefined`; the model writes 0 for that value (no stacked segment ends at 0).
   */
  method MarkVertices(points: seq<int>, markers: array<bool>)
    requires |points| % 2 == 0 && markers.Length == |points| / 2 >= 1
    requires forall k :: 0 <= k < markers.Length ==> (markers[k] <==> k == 0 || k == markers.Length - 1)
    modifies markers
    ensures forall k :: 0 <= k < markers.Length ==> (markers[k] <==> k in Kept(points))
  {
    var len := markers.Length;
    ghost var marked: set<int> := {0, len - 1};
    var first, last := 0, len - 1;
    var firstStack: seq<int>, lastStack: seq<int> := [], [];
    var index := 0;
    ghost var target := Kept(points);
    while last != 0
      invariant forall k :: 0 <= k < len ==> (markers[k] <==> k in marked)
      invariant last != 0 ==> 0 <= first < last < len
      invariant last == 0 ==> firstStack == []
      invariant StacksOk(firstStack, lastStack, len)
      invariant target == marked + Pending(points, firstStack, lastStack)
                          + (if last != 0 then Marks(points, first, last) else {})
      decreases Weight(firstStack, lastStack, len) + (if last != 0 then 2 * (last - first) - 1 else 0)
    {
      first, last, index, firstStack, lastStack, marked :=
        MarkStep(points, markers, first, last, index, firstStack, lastStack, marked);
    }
  }

  /**
   * One turn of the marking loop: split segment first-last, then pop the next
   * segment (0-0 when the stacks are empty).
   */
  method MarkStep(points: seq<int>, markers: array<bool>, first: nat, last: nat, index0: int,
                  firstStack: seq<int>, lastStack: seq<int>, ghost marked: set<int>)
      returns (first': nat, last': nat, index: int, firstStack': seq<int>, lastStack': seq<int>, ghost marked': set<int>)
    requires |points| % 2 == 0 && markers.Length == |points| / 2
    requires first < last < markers.Length
    requires StacksOk(firstStack, lastStack, markers.Length)
    requires forall k :: 0 <= k < markers.Length ==> (markers[k] <==> k in marked)
    modifies markers
    ensures forall k :: 0 <= k < markers.Length ==> (markers[k] <==> k in marked')
    ensures last' != 0 ==> first' < last' < markers.Length
    ensures last' == 0 ==> firstStack' == []
    ensures StacksOk(firstStack', lastStack', markers.Length)
    ensures marked' + Pending(points, firstStack', lastStack') + (if last' != 0 then Marks(points, first', last') else {})
            == marked + Pending(points, firstStack, lastStack) + Marks(points, first, last)
    ensures Weight(firstStack', lastStack', markers.Length) + (if last' != 0 then 2 * (last' - first') - 1 else 0)
            < Weight(firstStack, lastStack, markers.Length) + 2 * (last - first) - 1
  {
    var fs, ls;
    index, fs, ls, marked' := SplitSegment(points, markers, first, last, index0, firstStack, lastStack, marked);
    if fs == [] {
      first', last', firstStack', lastStack' := 0, 0, [], [];
    } else {
      first', last' := fs[|fs| - 1], ls[|ls| - 1];
      firstStack', lastStack' := fs[..|fs| - 1], ls[..|ls| - 1];
    }
  }

  /** `simplify`: the vertices kept by Douglas-Peucker, in their original order. */
  method Simplify(points: seq<int>) returns (newPoints: seq<int>)
    requires |points| % 2 == 0
    ensures newPoints == Simplified(points)
  {
    var len := |points| / 2;
    if len == 0 {
      // the source's loop then runs once over an empty interior and marks nothing
      return [];
    }
    var markers := new bool[len](_ => false);
    markers[0], markers[len - 1] := true, true;
    MarkVertices(points, markers);
    newPoints := [];
    var j := 0;
    while j < len
      invariant 0 <= j <= len
      invariant newPoints == Select(points, Kept(points), j)
    {
      if markers[j] {
        newPoints := newPoints + [points[j * 2], points[j * 2 + 1]];
      }
      j := j + 1;
    }
  }

  // ---------------------------------------------------------------------------
  // getWinding, makeWinding

  datatype Winding = CW | CCW

  /**
   * Rings handed to `getWinding` and `makeWinding` are latitude/longitude
   * pairs, so these functions work on `real` coordinates.
   *
   * Twice the signed area swept by the ring's edges: the sum of
   * x_i * y_(i+1) - x_(i+1) * y_i over consecutive vertices (no wrap-around edge).
   */
  function CrossSum(s: seq<real>): real
  {
    if |s| < 4 then 0.0 else s[0] * s[3] - s[2] * s[1] + CrossSum(s[2..])
  }

  /** What `getWinding` answers: 'CW' exactly when half the cross sum is positive. */
  function WindingOf(s: seq<real>): (w: Winding)
    ensures w == CW <==> CrossSum(s) > 0.0
  {
    if CrossSum(s) > 0.0 then CW else CCW
  }

  /** `getWinding`, with its accumulation loop. */
  method GetWinding(points: seq<real>) returns (w: Winding)
    ensures w == WindingOf(points)
  {
    var a := 0.0;
    var i := 0;
    while i < |points| - 3
      invariant 0 <= i <= |points| && i % 2 == 0
      invariant a + CrossSum(points[i..]) == CrossSum(points)
    {
      assert points[i..][2..] == points[i + 2..];
      a := a + (points[i] * points[i + 3] - points[i + 2] * points[i + 1]);
      i := i + 2;
    }
    w := if a > 0.0 then CW else CCW;
  }

  /**
   * The vertices of `s` in reverse order, as `makeWinding` collects them going
   * back from the last pair; for an odd length the leftover first number is dropped.
   */
  function ReversePairs(s: seq<real>): (r: seq<real>)
    ensures |r| == |s| - |s| % 2
  {
    if |s| < 2 then [] else s[|s| - 2..] + ReversePairs(s[..|s| - 2])
  }

  lemma ReversePairsStep(s: seq<real>, i: nat)
    requires i + 2 <= |s|
    ensures ReversePairs(s[..i + 2]) == [s[i], s[i + 1]] + ReversePairs(s[..i])
  {
    var t := s[..i + 2];
    assert t[|t| - 2..] == [s[i], s[i + 1]];
    assert t[..|t| - 2] == s[..i];
  }

  /** The ring `makeWinding(points, direction)` returns. */
  function Oriented(s: seq<real>, d: Winding): seq<real>
  {
    if WindingOf(s) == d then s else ReversePairs(s)
  }

  /** `makeWinding`: the ring as it is when it already turns the requested way, reversed otherwise. */
  method MakeWinding(points: seq<real>, direction: Winding) returns (r: seq<real>)
    ensures r == Oriented(points, direction)
  {
    var winding := GetWinding(points);
    if winding == direction {
      return points;
    }
    r := ReverseVertices(points);
  }

  /** The reversing loop of `makeWinding`: vertex pairs collected from the last one back. */
  method ReverseVertices(points: seq<real>) returns (r: seq<real>)
    ensures r == ReversePairs(points)
  {
    r := [];
    var i := |points| - 2;
    assert points[..|points|] == points;
    assert [] + ReversePairs(points) == ReversePairs(points);
    while i >= 0
      invariant -2 <= i <= |points| - 2
      invariant (|points| - i) % 2 == 0
      invariant r + ReversePairs(points[..i + 2]) == ReversePairs(points)
    {
      ReversePairsStep(points, i);
      assert r + ReversePairs(points[..i + 2]) == (r + [points[i], points[i + 1]]) + ReversePairs(points[..i]);
      r := r + [points[i], points[i + 1]];
      i := i - 2;
    }
    assert |points[..i + 2]| < 2;
    assert r + [] == r;
  }

  /** Appending one vertex adds the cross term of the new last edge. */
  lemma {:induction false} CrossSumSnoc(s: seq<real>, x: real, y: real)
    requires |s| >= 2 && |s| % 2 == 0
    ensures CrossSum(s + [x, y]) == CrossSum(s) + (s[|s| - 2] * y - x * s[|s| - 1])
    decreases |s|
  {
    if |s| >= 4 {
      assert (s + [x, y])[2..] == s[2..] + [x, y];
      CrossSumSnoc(s[2..], x, y);
    }
  }

  /** Reversing the vertices negates the cross sum. */
  lemma {:induction false} CrossSumReverse(s: seq<real>)
    requires |s| % 2 == 0
    ensures CrossSum(ReversePairs(s)) == -CrossSum(s)
    decreases |s|
  {
    if |s| >= 4 {
      var t := s[..|s| - 2];
      var x, y := s[|s| - 2], s[|s| - 1];
      assert s == t + [x, y];
      CrossSumReverse(t);
      CrossSumSnoc(t, x, y);
      var rt := ReversePairs(t);
      assert rt[..2] == t[|t| - 2..];
      assert ReversePairs(s) == [x, y] + rt;
      assert ([x, y] + rt)[2..] == rt;
    }
  }

  /** Reversing twice gives back an even-length ring. */
  lemma {:induction false} ReversePairsInvolutive(s: seq<real>)
    requires |s| % 2 == 0
    ensures ReversePairs(ReversePairs(s)) == s
    decreases |s|
  {
    if |s| >= 2 {
      var t := s[..|s| - 2];
      ReversePairsInvolutive(t);
      ReversePairsSnoc(ReversePairs(t), s[|s| - 2..]);
      assert s == t + s[|s| - 2..];
    }
  }

  lemma {:induction false} ReversePairsSnoc(s: seq<real>, q: seq<real>)
    requires |s| % 2 == 0 && |q| == 2
    ensures ReversePairs(q + s) == ReversePairs(s) + q
    decreases |s|
  {
    if |s| >= 2 {
      var t := s[..|s| - 2];
      assert (q + s)[..|q + s| - 2] == q + t;
      assert (q + s)[|q + s| - 2..] == s[|s| - 2..];
      ReversePairsSnoc(t, q);
    } else {
      assert ReversePairs(q) == q[0..] + ReversePairs(q[..0]);
    }
  }

  /**
   * `makeWinding` reaches the requested direction whenever the ring has
   * non-zero area, and then the result has the same vertices.
   */
  lemma OrientedWinding(s: seq<real>, d: Winding)
    requires |s| % 2 == 0 && CrossSum(s) != 0.0
    ensures WindingOf(Oriented(s, d)) == d
    ensures CrossSum(Oriented(s, d)) == CrossSum(s) || CrossSum(Oriented(s, d)) == -CrossSum(s)
  {
    CrossSumReverse(s);
  }

  /**
   * For any even-length ring, the result of `makeWinding` keeps the length and
   * has the requested direction unless its area is zero.
   */
  lemma OrientedDirection(s: seq<real>, d: Winding)
    requires |s| % 2 == 0
    ensures |Oriented(s, d)| == |s|
    ensures CrossSum(Oriented(s, d)) != 0.0 ==> WindingOf(Oriented(s, d)) == d
  {
    if CrossSum(s) != 0.0 {
      OrientedWinding(s, d);
    } else {
      CrossSumReverse(s);
    }
  }

  /** Orienting twice in the same direction changes nothing more (non-zero area). */
  lemma OrientedIdempotent(s: seq<real>, d: Winding)
    requires |s| % 2 == 0 && CrossSum(s) != 0.0
    ensures Oriented(Oriented(s, d), d) == Oriented(s, d)
  {
    OrientedWinding(s, d);
  }

  /**
   * A ring of zero area is always reported 'CCW', so `makeWinding(points, 'CW')`
   * reverses it on every call.
   */
  lemma ZeroAreaFlips(s: seq<real>)
    requires |s| % 2 == 0 && CrossSum(s) == 0.0
    ensures Oriented(s, CW) == ReversePairs(s)
    ensures Oriented(Oriented(s, CW), CW) == s
  {
    CrossSumReverse(s);
    ReversePairsInvolutive(s);
  }
}
