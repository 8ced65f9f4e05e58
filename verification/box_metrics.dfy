/**
 The geometry computed at the start of `simulateLLMAnalysis`: the area of each
 box, their difference (absolute and as a percentage of the ground-truth area)
 and the distance between the box centres. JavaScript doubles are idealised as
 real numbers.
 */
module BoxMetrics {
  import opened Wrappers

  /** An axis-aligned box given by two opposite corners, in any order. */
  datatype Box = Box(x1: real, y1: real, x2: real, y2: real)

  datatype Point = Point(x: real, y: real)

  /** The result of a JavaScript division `n / d` of non-negative numbers:
      a finite value, or the `NaN` (0 / 0) or `Infinity` (n / 0 with n > 0)
      that IEEE-754 produces when the divisor is zero. */
  datatype JsNumber = Finite(value: real) | NaN | Infinity

  function Abs(x: real): (r: real)
    ensures r >= 0.0 && (r == x || r == -x)
  {
    if x < 0.0 then -x else x
  }

  /** `Math.abs((x2 - x1) * (y2 - y1))`: never negative, and zero exactly
      for the degenerate boxes. */
  function Area(b: Box): (r: real)
    ensures r >= 0.0
    ensures r == 0.0 <==> Degenerate(b)
  {
    RectangleArea(b.x2 - b.x1, b.y2 - b.y1)
  }

  /** The area of a rectangle with signed sides `w` and `h`. */
  function RectangleArea(w: real, h: real): (r: real)
    ensures r >= 0.0
    ensures r == 0.0 <==> w == 0.0 || h == 0.0
  {
    ProductZero(w, h);
    Abs(w * h)
  }

  /** A box is degenerate when its corners share an x or a y coordinate. */
  predicate Degenerate(b: Box) {
    b.x1 == b.x2 || b.y1 == b.y2
  }

  /** Naming the corners in the other order along either axis leaves the area
      unchanged. */
  lemma AreaCornerOrder(b: Box)
    ensures Area(Box(b.x2, b.y1, b.x1, b.y2)) == Area(b)
    ensures Area(Box(b.x1, b.y2, b.x2, b.y1)) == Area(b)
    ensures Area(Box(b.x2, b.y2, b.x1, b.y1)) == Area(b)
  {
    var w, h := b.x2 - b.x1, b.y2 - b.y1;
    assert b.x1 - b.x2 == -w && b.y1 - b.y2 == -h;
    RectangleAreaSigns(w, h);
    RectangleAreaSigns(-w, h);
  }

  /** Flipping the sign of a side leaves the area unchanged. */
  lemma RectangleAreaSigns(w: real, h: real)
    ensures RectangleArea(-w, h) == RectangleArea(w, h)
    ensures RectangleArea(w, -h) == RectangleArea(w, h)
  {
    assert (-w) * h == -(w * h);
    assert w * (-h) == -(w * h);
  }

  /** A product of reals vanishes exactly when a factor does. */
  lemma ProductZero(a: real, b: real)
    ensures a * b == 0.0 <==> a == 0.0 || b == 0.0
  {
    if a != 0.0 && b != 0.0 {
      var x, y := Abs(a), Abs(b);
      assert x > 0.0 && y > 0.0;
      assert x * y > 0.0;
      assert x * y == a * b || x * y == -(a * b);
    }
  }

  /** `Math.abs(gtArea - xaiArea)`: non-negative, symmetric, and zero exactly
      when the two areas agree. */
  function AreaDiff(gtArea: real, xaiArea: real): (r: real)
    ensures r >= 0.0
    ensures r == 0.0 <==> gtArea == xaiArea
    ensures r == gtArea - xaiArea || r == xaiArea - gtArea
  {
    Abs(gtArea - xaiArea)
  }

  lemma AreaDiffSymmetric(a: real, b: real)
    ensures AreaDiff(a, b) == AreaDiff(b, a)
  {
  }

  /** `(areaDiff / gtArea) * 100` as the source evaluates it, with no guard
      against a zero ground-truth area. */
  function PercentAsWritten(gtArea: real, xaiArea: real): (r: JsNumber)
    requires gtArea >= 0.0
    ensures r.NaN? <==> gtArea == 0.0 && xaiArea == 0.0
    ensures r.Infinity? <==> gtArea == 0.0 && xaiArea != 0.0
    ensures r.Finite? ==> r.value * gtArea == 100.0 * AreaDiff(gtArea, xaiArea)
  {
    var diff := AreaDiff(gtArea, xaiArea);
    if gtArea == 0.0 then (if diff == 0.0 then NaN else Infinity)
    else
      var p := diff / gtArea * 100.0;
      assert p * gtArea == 100.0 * diff;
      Finite(p)
  }

  /** The area difference as a percentage of the ground-truth area; undefined
      (None) when the ground-truth area is zero. A defined percentage is
      non-negative, zero exactly when the areas agree, and scaled so that
      `percent * gtArea == 100 * areaDiff`. */
  function AreaDiffPercent(gtArea: real, xaiArea: real): (r: Option<real>)
    requires gtArea >= 0.0
    ensures r.None? <==> gtArea == 0.0
    ensures r.Some? ==> r.value >= 0.0
    ensures r.Some? ==> r.value * gtArea == 100.0 * AreaDiff(gtArea, xaiArea)
    ensures r.Some? ==> (r.value == 0.0 <==> gtArea == xaiArea)
  {
    if gtArea == 0.0 then None
    else
      var p := AreaDiff(gtArea, xaiArea) / gtArea * 100.0;
      assert p * gtArea == 100.0 * AreaDiff(gtArea, xaiArea);
      Some(p)
  }

  /** The guarded percentage is defined exactly when the source's value is
      finite, and then the two agree. */
  lemma PercentAgreesWithSource(gtArea: real, xaiArea: real)
    requires gtArea >= 0.0
    ensures PercentAsWritten(gtArea, xaiArea).Finite? <==> AreaDiffPercent(gtArea, xaiArea).Some?
    ensures PercentAsWritten(gtArea, xaiArea).Finite? ==>
              PercentAsWritten(gtArea, xaiArea).value == AreaDiffPercent(gtArea, xaiArea).value
  {
  }

  /** The percentage depends on which box is the ground truth: exchanging the
      two areas keeps the percentage only when the areas are equal. */
  lemma PercentDenominatorMatters(a: real, b: real)
    requires a >= 0.0 && b >= 0.0
    ensures AreaDiffPercent(a, b) == AreaDiffPercent(b, a) <==> a == b
  {
    AreaDiffSymmetric(a, b);
  }

  /** The midpoint of the two corners. */
  function Centre(b: Box): (c: Point)
    ensures c.x - b.x1 == b.x2 - c.x && c.y - b.y1 == b.y2 - c.y
  {
    Point((b.x1 + b.x2) / 2.0, (b.y1 + b.y2) / 2.0)
  }

  /** Naming the corners in the other order leaves the centre unchanged. */
  lemma CentreCornerOrder(b: Box)
    ensures Centre(Box(b.x2, b.y2, b.x1, b.y1)) == Centre(b)
  {
  }

  /** The square of the Euclidean distance between two points: never
      negative, and zero exactly when the points coincide. */
  function SquaredDistance(p: Point, q: Point): (r: real)
    ensures r >= 0.0
    ensures r == 0.0 <==> p == q
  {
    SumOfSquares(p.x - q.x, p.y - q.y);
    (p.x - q.x) * (p.x - q.x) + (p.y - q.y) * (p.y - q.y)
  }

  /** A sum of two real squares is non-negative and vanishes only when both
      terms are zero. */
  lemma SumOfSquares(dx: real, dy: real)
    ensures dx * dx + dy * dy >= 0.0
    ensures dx * dx + dy * dy == 0.0 <==> dx == 0.0 && dy == 0.0
  {
    var sq := dx * dx + dy * dy;
    SquarePositive(dx);
    SquarePositive(dy);
    if dx != 0.0 {
      calc {
        sq;
      ==
        dx * dx + dy * dy;
      >=
        dx * dx;
      >
        0.0;
      }
    } else if dy != 0.0 {
      calc {
        sq;
      ==
        dx * dx + dy * dy;
      >=
        dy * dy;
      >
        0.0;
      }
    } else {
      assert sq == 0.0 * 0.0 + 0.0 * 0.0;
    }
  }

  /** The squared distance does not depend on the order of the two points. */
  lemma SquaredDistanceSymmetric(p: Point, q: Point)
    ensures SquaredDistance(p, q) == SquaredDistance(q, p)
  {
    assert (q.x - p.x) * (q.x - p.x) == (p.x - q.x) * (p.x - q.x);
    assert (q.y - p.y) * (q.y - p.y) == (p.y - q.y) * (p.y - q.y);
  }

  /** A real square is non-negative and vanishes only at zero. */
  lemma SquarePositive(x: real)
    ensures x * x >= 0.0
    ensures x != 0.0 ==> x * x > 0.0
  {
    if x < 0.0 {
      assert x * x == (-x) * (-x);
    }
  }

  /** Squaring is strictly increasing on the non-negative reals. */
  lemma SquareMonotone(a: real, b: real)
    requires 0.0 <= a < b
    ensures a * a < b * b
  {
    calc {
      a * a;
    <=
      a * b;
    <
      b * b;
    }
  }

  /** The squared distance between the centres of the two boxes. */
  function CentreDistanceSquared(gt: Box, xai: Box): (r: real)
    ensures r >= 0.0
    ensures r == 0.0 <==> Centre(gt) == Centre(xai)
    ensures r == SquaredDistance(Centre(xai), Centre(gt))
  {
    SquaredDistanceSymmetric(Centre(gt), Centre(xai));
    SquaredDistance(Centre(gt), Centre(xai))
  }

  /** `d` is what `Math.sqrt(dx² + dy²)` computes over the reals: the
      non-negative square root of the squared centre distance. */
  ghost predicate IsCentreDistance(d: real, gt: Box, xai: Box) {
    d >= 0.0 && d * d == CentreDistanceSquared(gt, xai)
  }

  /** The centre distance is determined uniquely, is symmetric in the two
      boxes, and is zero exactly when the centres coincide. */
  lemma CentreDistanceProperties(d: real, gt: Box, xai: Box)
    requires IsCentreDistance(d, gt, xai)
    ensures forall e :: IsCentreDistance(e, gt, xai) ==> e == d
    ensures IsCentreDistance(d, xai, gt)
    ensures d == 0.0 <==> Centre(gt) == Centre(xai)
  {
    var sq := CentreDistanceSquared(gt, xai);
    forall e | IsCentreDistance(e, gt, xai) ensures e == d {
      if e < d {
        SquareMonotone(e, d);
      } else if d < e {
        SquareMonotone(d, e);
      }
    }
    if d != 0.0 {
      SquarePositive(d);
      calc {
        sq;
      ==
        d * d;
      >
        0.0;
      }
    }
  }

  /** The metrics the report quotes for a pair of boxes. */
  datatype Metrics = Metrics(
    gtArea: real,
    xaiArea: real,
    areaDiff: real,
    areaDiffPercent: JsNumber,
    centreDistanceSquared: real)

  /** The metric block of `simulateLLMAnalysis`. */
  function ComputeMetrics(gt: Box, xai: Box): (m: Metrics)
    ensures m.gtArea >= 0.0 && m.xaiArea >= 0.0 && m.areaDiff >= 0.0
    ensures m.areaDiff == 0.0 <==> m.gtArea == m.xaiArea
    ensures m.gtArea == 0.0 <==> Degenerate(gt)
    ensures m.areaDiffPercent.Finite? <==> !Degenerate(gt)
    ensures m.areaDiffPercent.Finite? ==>
              m.areaDiffPercent.value * m.gtArea == 100.0 * m.areaDiff
    ensures m.areaDiffPercent == NaN <==> Degenerate(gt) && Degenerate(xai)
    ensures m.centreDistanceSquared >= 0.0
    ensures m.centreDistanceSquared == 0.0 <==> Centre(gt) == Centre(xai)
    ensures m.gtArea == Area(gt) && m.xaiArea == Area(xai)
    ensures m.areaDiff == AreaDiff(m.gtArea, m.xaiArea)
    ensures m.areaDiffPercent == PercentAsWritten(m.gtArea, m.xaiArea)
    ensures m.centreDistanceSquared == SquaredDistance(Centre(gt), Centre(xai))
  {
    var gtArea := Area(gt);
    var xaiArea := Area(xai);
    var diff := AreaDiff(gtArea, xaiArea);
    var percent := PercentAsWritten(gtArea, xaiArea);
    Metrics(gtArea, xaiArea, diff, percent, CentreDistanceSquared(gt, xai))
  }

  /** Two boxes with the same corners differ in nothing. */
  lemma IdenticalBoxes(b: Box)
    ensures ComputeMetrics(b, b).areaDiff == 0.0
    ensures ComputeMetrics(b, b).centreDistanceSquared == 0.0
    ensures !Degenerate(b) ==> ComputeMetrics(b, b).areaDiffPercent == Finite(0.0)
  {
  }

  /** Ground truth (0,0)-(10,10) against (5,5)-(15,15): equal areas of 100,
      no area difference, and centres sqrt(50) apart. */
  lemma ShiftedSquareExample()
    ensures ComputeMetrics(Box(0.0, 0.0, 10.0, 10.0), Box(5.0, 5.0, 15.0, 15.0))
         == Metrics(100.0, 100.0, 0.0, Finite(0.0), 50.0)
  {
    var gt, xai := Box(0.0, 0.0, 10.0, 10.0), Box(5.0, 5.0, 15.0, 15.0);
    assert Area(gt) == 100.0 && Area(xai) == 100.0;
    assert Centre(gt) == Point(5.0, 5.0) && Centre(xai) == Point(10.0, 10.0);
    assert CentreDistanceSquared(gt, xai) == 50.0;
  }

  /** A ground truth with all four coordinates zero gives `NaN` when the other
      box is degenerate too and `Infinity` otherwise; the guarded percentage
      is undefined in both cases. */
  lemma DegenerateGroundTruth(xai: Box)
    ensures ComputeMetrics(Box(0.0, 0.0, 0.0, 0.0), xai).areaDiffPercent
         == (if Degenerate(xai) then NaN else Infinity)
    ensures AreaDiffPercent(Area(Box(0.0, 0.0, 0.0, 0.0)), Area(xai)).None?
  {
    var gt := Box(0.0, 0.0, 0.0, 0.0);
    assert Area(gt) == 0.0;
  }
}
