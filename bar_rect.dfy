/**
 * The bar-rectangle outline of MapView.makeBarRect: a rectangle drawn with as
 * many path points as a region's ring has, spread around its four sides, so
 * that the bar can be interpolated point by point into the region's shape.
 *
 * A path is a sequence of points: element 0 is the point of the opening move
 * command, every further element the end point of one line command, and the
 * closing command is implicit.
 */
module BarRect {
  import opened Common

  /** The rectangle of one bar segment: top-left corner, width along x, band height along y. */
  datatype Rect = Rect(left: real, top: real, width: real, height: real)

  function Sum4(c: seq<int>): int
    requires |c| == 4
  {
    c[0] + c[1] + c[2] + c[3]
  }

  /** Number of line points emitted before side `j` starts. */
  function SideOffset(c: seq<int>, j: nat): int
    requires |c| == 4 && j <= 4
  {
    if j == 0 then 0
    else if j == 1 then c[0]
    else if j == 2 then c[0] + c[1]
    else if j == 3 then c[0] + c[1] + c[2]
    else Sum4(c)
  }

  /**
   * The four per-side counts before the move/close adjustment: the quotient of
   * `n` by 4 on every side, the remainder handed out one each to the first sides.
   */
  function BaseSideCounts(n: nat): (c: seq<int>)
    ensures |c| == 4 && Sum4(c) == n
    ensures forall j :: 0 <= j < 4 ==> c[j] == n / 4 || c[j] == n / 4 + 1
    ensures forall j :: 0 <= j < 4 ==> (c[j] == n / 4 + 1 <==> j < n % 4)
  {
    var q := n / 4;
    seq(4, j requires 0 <= j < 4 => if n % 4 >= j + 1 then q + 1 else q)
  }

  /**
   * The per-side counts actually walked: a fixed [1, 1, 1, 0] below six points,
   * otherwise the base counts with one point less on side 0 (taken by the move)
   * and on side 3 (taken by the close).
   */
  function SideCounts(n: nat): (c: seq<int>)
    ensures |c| == 4
    ensures forall j :: 0 <= j < 4 ==> c[j] >= 0
    ensures c[0] >= 1 && c[1] >= 1 && c[2] >= 1
    ensures n < 6 ==> c == [1, 1, 1, 0]
    ensures n >= 6 ==> Sum4(c) == n - 2
    ensures n >= 6 ==> var b := BaseSideCounts(n); c == [b[0] - 1, b[1], b[2], b[3] - 1]
  {
    var base := BaseSideCounts(n);
    if n < 6 then [1, 1, 1, 0]
    else base[0 := base[0] - 1][3 := base[3] - 1]
  }

  /** The corner where side `j` begins: top-left, top-right, bottom-right, bottom-left. */
  function Corner(r: Rect, j: nat): Point
    requires j < 4
  {
    if j == 0 then Point(r.left, r.top)
    else if j == 1 then Point(r.left + r.width, r.top)
    else if j == 2 then Point(r.left + r.width, r.top + r.height)
    else Point(r.left, r.top + r.height)
  }

  /** Sides 0 and 1 are walked forward, sides 2 and 3 backward. */
  function Direction(j: nat): real
  {
    if j < 2 then 1.0 else -1.0
  }

  /** One of the `c` steps along side `j`: even sides move along x, odd sides along y. */
  function Step(r: Rect, j: nat, c: nat): Point
    requires c > 0
  {
    if j % 2 == 0 then Point(Direction(j) * (r.width / (c as real)), 0.0)
    else Point(0.0, Direction(j) * (r.height / (c as real)))
  }

  /** The point reached after `k` of the `c` steps along side `j`. */
  function StepPoint(r: Rect, j: nat, c: nat, k: nat): Point
    requires j < 4 && c > 0
  {
    var start := Corner(r, j);
    var d := Step(r, j, c);
    Point(start.x + (k as real) * d.x, start.y + (k as real) * d.y)
  }

  /** `p` lies on the outline of the rectangle `r`. */
  predicate OnBoundary(r: Rect, p: Point)
  {
    || (r.left <= p.x <= r.left + r.width && (p.y == r.top || p.y == r.top + r.height))
    || (r.top <= p.y <= r.top + r.height && (p.x == r.left || p.x == r.left + r.width))
  }

  predicate ValidCounts(c: seq<int>)
  {
    |c| == 4 && (forall j :: 0 <= j < 4 ==> c[j] >= 0) && c[0] >= 1 && c[1] >= 1 && c[2] >= 1
  }

  /**
   * `p` is the outline of `r` walked with side counts `c`: the move point at the
   * top-left corner, then side by side the `c[j]` step points of side `j`.
   */
  predicate IsBarPath(p: seq<Point>, r: Rect, c: seq<int>)
    requires ValidCounts(c)
  {
    && |p| == 1 + Sum4(c)
    && p[0] == Corner(r, 0)
    && forall j, k :: 0 <= j < 4 && 1 <= k <= c[j] ==>
         p[SideOffset(c, j) + k] == StepPoint(r, j, c[j], k)
  }

  /** The side `j` and step `k` that emit line point `i` of a path with counts `c`. */
  function Locate(c: seq<int>, i: int): (jk: (nat, nat))
    requires ValidCounts(c) && 1 <= i <= Sum4(c)
    ensures jk.0 < 4 && 1 <= jk.1 <= c[jk.0]
    ensures SideOffset(c, jk.0) + jk.1 == i
  {
    if i <= c[0] then (0, i)
    else if i <= c[0] + c[1] then (1, i - c[0])
    else if i <= c[0] + c[1] + c[2] then (2, i - c[0] - c[1])
    else (3, i - c[0] - c[1] - c[2])
  }

  /** `k` equal steps of a non-negative length `len / c` stay within `[0, len]`. */
  lemma StepsWithinSide(len: real, c: nat, k: nat)
    requires len >= 0.0 && 0 < c && k <= c
    ensures 0.0 <= (k as real) * (len / (c as real)) <= len
  {
    var s := len / (c as real);
    assert (c as real) * s == len;
    assert ((c - k) as real) * s >= 0.0;
  }

  /** After all `c` steps, side `j` ends at the corner where the next side begins. */
  lemma SideEndsAtCorner(r: Rect, j: nat, c: nat)
    requires j < 4 && c > 0
    ensures StepPoint(r, j, c, c) == Corner(r, (j + 1) % 4)
  {
    assert (c as real) * (r.width / (c as real)) == r.width;
    assert (c as real) * (r.height / (c as real)) == r.height;
  }

  /** Consecutive points of a side are one equal step apart. */
  lemma StepStride(r: Rect, j: nat, c: nat, k: nat)
    requires j < 4 && 1 <= k <= c
    ensures StepPoint(r, j, c, 0) == Corner(r, j)
    ensures var prev, d := StepPoint(r, j, c, k - 1), Step(r, j, c);
            StepPoint(r, j, c, k) == Point(prev.x + d.x, prev.y + d.y)
  {
  }

  /** Every step point of a side lies on the rectangle's outline. */
  lemma StepPointOnBoundary(r: Rect, j: nat, c: nat, k: nat)
    requires r.width >= 0.0 && r.height >= 0.0
    requires j < 4 && 0 < c && k <= c
    ensures OnBoundary(r, StepPoint(r, j, c, k))
  {
    StepsWithinSide(r.width, c, k);
    StepsWithinSide(r.height, c, k);
  }

  /** Every point of a bar path lies on the outline of its rectangle. */
  lemma BarPathOnBoundary(p: seq<Point>, r: Rect, n: nat)
    requires r.width >= 0.0 && r.height >= 0.0
    requires IsBarPath(p, r, SideCounts(n))
    ensures forall i :: 0 <= i < |p| ==> OnBoundary(r, p[i])
  {
    var c := SideCounts(n);
    forall i | 0 <= i < |p|
      ensures OnBoundary(r, p[i])
    {
      if i > 0 {
        var (j, k) := Locate(c, i);
        StepPointOnBoundary(r, j, c[j], k);
      }
    }
  }

  /** The bar path of a rectangle and a point count is determined uniquely. */
  lemma BarPathUnique(p: seq<Point>, q: seq<Point>, r: Rect, n: nat)
    requires IsBarPath(p, r, SideCounts(n)) && IsBarPath(q, r, SideCounts(n))
    ensures p == q
  {
    var c := SideCounts(n);
    forall i | 0 <= i < |p|
      ensures p[i] == q[i]
    {
      if i > 0 {
        var (j, k) := Locate(c, i);
        assert p[SideOffset(c, j) + k] == StepPoint(r, j, c[j], k);
      }
    }
  }

  /**
   * One side of makeBarRect's walk: from the corner where side `j` begins,
   * `side` equal steps forward (sides 0 and 1) or backward (sides 2 and 3),
   * along x on even sides and along y on odd sides, emitting each point reached.
   */
  method WalkSide(r: Rect, j: nat, side: nat, left0: real, top0: real)
    returns (points: seq<Point>, left: real, top: real)
    requires j < 4 && Point(left0, top0) == Corner(r, j)
    ensures |points| == side
    ensures forall k :: 1 <= k <= side ==> points[k - 1] == StepPoint(r, j, side, k)
    ensures side > 0 ==> Point(left, top) == Corner(r, (j + 1) % 4)
    ensures side == 0 ==> left == left0 && top == top0
  {
    var direction := if j < 2 then 1.0 else -1.0;
    left, top := left0, top0;
    points := [];
    var k := 0;
    while k < side
      invariant 0 <= k <= side && |points| == k
      invariant side > 0 ==> Point(left, top) == StepPoint(r, j, side, k)
      invariant side == 0 ==> left == left0 && top == top0
      invariant forall kk :: 1 <= kk <= k ==> points[kk - 1] == StepPoint(r, j, side, kk)
    {
      StepStride(r, j, side, k + 1);
      if j % 2 == 0 {
        left := left + direction * (r.width / (side as real));
      } else {
        top := top + direction * (r.height / (side as real));
      }
      points := points + [Point(left, top)];
      k := k + 1;
    }
    if side > 0 {
      SideEndsAtCorner(r, j, side);
    }
  }

  /**
   * makeBarRect: walks the outline of `r` with `SideCounts(n)` points per side,
   * where `n` is the point count of the region ring the bar will morph into.
   * The result is one move point and, for `n >= 6`, `n - 2` line points
   * (three below six), followed by the implicit close.
   */
  method MakeBarRect(r: Rect, n: nat) returns (path: seq<Point>)
    ensures IsBarPath(path, r, SideCounts(n))
    ensures |path| == if n < 6 then 4 else n - 1
  {
    var sidePoints := SideCounts(n);
    var left, top := r.left, r.top;
    path := [Point(left, top)];
    var j := 0;
    while j < 4
      invariant 0 <= j <= 4
      invariant |path| == 1 + SideOffset(sidePoints, j)
      invariant path[0] == Corner(r, 0)
      invariant j < 4 ==> Point(left, top) == Corner(r, j)
      invariant forall jj, k :: 0 <= jj < j && 1 <= k <= sidePoints[jj] ==>
                  path[SideOffset(sidePoints, jj) + k] == StepPoint(r, jj, sidePoints[jj], k)
    {
      var points;
      points, left, top := WalkSide(r, j, sidePoints[j], left, top);
      ghost var before := path;
      path := path + points;
      forall jj, k | 0 <= jj <= j && 1 <= k <= sidePoints[jj]
        ensures path[SideOffset(sidePoints, jj) + k] == StepPoint(r, jj, sidePoints[jj], k)
      {
        if jj == j {
          assert path[SideOffset(sidePoints, jj) + k] == points[k - 1];
        } else {
          assert path[SideOffset(sidePoints, jj) + k] == before[SideOffset(sidePoints, jj) + k];
        }
      }
      j := j + 1;
    }
  }

  /** The worked case of thirteen ring points: [4, 3, 3, 3] before adjustment, twelve points walked. */
  lemma ThirteenPoints()
    ensures BaseSideCounts(13) == [4, 3, 3, 3]
    ensures SideCounts(13) == [3, 3, 3, 2]
  {
  }
}
