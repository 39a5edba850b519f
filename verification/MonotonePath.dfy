/** The monotone cubic path of the equity curve, before coordinates are printed. */
module MonotonePath {
  import opened Types
  import opened Reals

  datatype Point = Point(x: real, y: real)

  /** A control point; a height that is not a finite number is None. */
  datatype Control = Control(x: real, y: Option<real>)

  /** One cubic Bezier segment: two end points and two control points. */
  datatype Segment = Segment(p0: Point, c1: Control, c2: Control, p3: Point)

  datatype Path = Empty | Path(start: Point, segments: seq<Segment>)

  /** x never goes back. */
  ghost predicate Forward(pts: seq<Point>) {
    forall i :: 0 <= i < |pts| - 1 ==> pts[i].x <= pts[i + 1].x
  }

  function Dx(pts: seq<Point>, i: nat): real
    requires i + 1 < |pts|
  {
    pts[i + 1].x - pts[i].x
  }

  function Dy(pts: seq<Point>, i: nat): real
    requires i + 1 < |pts|
  {
    pts[i + 1].y - pts[i].y
  }

  function Slope(pts: seq<Point>, i: nat): real
    requires i + 1 < |pts|
  {
    SecantSlope(Dy(pts, i), Dx(pts, i))
  }

  /** A vertical step counts as one unit wide. */
  function SecantSlope(dy: real, dx: real): real {
    if dx == 0.0 then dy / 1.0 else dy / dx
  }

  predicate SameSign(a: real, b: real) { (a > 0.0 && b > 0.0) || (a < 0.0 && b < 0.0) }

  /** The weighted harmonic mean of two slopes; a division by zero gives no finite number. */
  function HarmonicMean(w1: real, m1: real, w2: real, m2: real): Option<real>
    requires SameSign(m1, m2)
  {
    var d := w1 / m1 + w2 / m2;
    if d == 0.0 then None else Some((w1 + w2) / d)
  }

  function Tangent(pts: seq<Point>, i: nat): Option<real>
    requires i < |pts| && |pts| >= 2
  {
    if i == 0 then Some(Slope(pts, 0))
    else if i == |pts| - 1 then Some(Slope(pts, i - 1))
    else InteriorTangent(Dx(pts, i - 1), Slope(pts, i - 1), Dx(pts, i), Slope(pts, i))
  }

  /** Flat where the slopes disagree in sign, else the harmonic mean weighted by the gaps. */
  function InteriorTangent(dx0: real, m0: real, dx1: real, m1: real): Option<real> {
    if !SameSign(m0, m1) then Some(0.0)
    else HarmonicMean(2.0 * dx1 + dx0, m0, dx1 + 2.0 * dx0, m1)
  }

  function SegmentAt(pts: seq<Point>, i: nat): Segment
    requires i + 1 < |pts|
  {
    Bend(pts[i], pts[i + 1], Tangent(pts, i), Tangent(pts, i + 1))
  }

  /** How far a tangent rises over a third of the gap. */
  function ControlStep(tangent: real, h: real): real { (tangent * h) / 3.0 }

  /** The height a third of the gap after (or, with h negative, before) an end point. */
  function ControlHeight(y: real, tangent: Option<real>, h: real): Option<real> {
    if tangent.None? then None else Some(y + ControlStep(tangent.value, h))
  }

  /** The segment from p to q leaving and arriving with the given tangents. */
  function Bend(p: Point, q: Point, t0: Option<real>, t1: Option<real>): Segment {
    var h := q.x - p.x;
    Segment(p, Control(p.x + h / 3.0, ControlHeight(p.y, t0, h)), Control(q.x - h / 3.0, ControlHeight(q.y, t1, -h)), q)
  }

  /** Every coordinate of the segment is a number. */
  predicate Finite(g: Segment) { g.c1.y.Some? && g.c2.y.Some? }

  lemma SameSignIsPositiveProduct(a: real, b: real)
    ensures SameSign(a, b) <==> a * b > 0.0
  {
  }

  method Secants(pts: seq<Point>) returns (dx: seq<real>, m: seq<real>)
    requires |pts| >= 2
    ensures |dx| == |m| == |pts| - 1
    ensures forall k :: 0 <= k < |pts| - 1 ==> dx[k] == Dx(pts, k) && m[k] == Slope(pts, k)
  {
    var dy: seq<real> := [];
    dx, m := [], [];
    for i := 0 to |pts| - 1
      invariant |dx| == |dy| == |m| == i
      invariant forall k :: 0 <= k < i ==> dx[k] == Dx(pts, k) && m[k] == Slope(pts, k)
    {
      dx := dx + [pts[i + 1].x - pts[i].x];
      dy := dy + [pts[i + 1].y - pts[i].y];
      m := m + [SecantSlope(dy[i], dx[i])];
    }
  }

  method TangentAt(dx0: real, m0: real, dx1: real, m1: real) returns (t: Option<real>)
    ensures t == InteriorTangent(dx0, m0, dx1, m1)
  {
    SameSignIsPositiveProduct(m0, m1);
    if m0 * m1 <= 0.0 {
      t := Some(0.0);
    } else {
      var w1 := 2.0 * dx1 + dx0;
      var w2 := dx1 + 2.0 * dx0;
      t := HarmonicMean(w1, m0, w2, m1);
    }
  }

  method Tangents(pts: seq<Point>, dx: seq<real>, m: seq<real>) returns (tangents: array<Option<real>>)
    requires |pts| >= 2 && |dx| == |m| == |pts| - 1
    requires forall k :: 0 <= k < |pts| - 1 ==> dx[k] == Dx(pts, k) && m[k] == Slope(pts, k)
    ensures fresh(tangents) && tangents.Length == |pts|
    ensures forall k :: 0 <= k < |pts| ==> tangents[k] == Tangent(pts, k)
  {
    var n := |pts|;
    tangents := new Option<real>[n](_ => None);
    tangents[0] := Some(m[0]);
    tangents[n - 1] := Some(m[n - 2]);
    for i := 1 to n - 1
      invariant tangents[0] == Tangent(pts, 0) && tangents[n - 1] == Tangent(pts, n - 1)
      invariant forall k :: 0 <= k < i ==> tangents[k] == Tangent(pts, k)
    {
      var t := TangentAt(dx[i - 1], m[i - 1], dx[i], m[i]);
      tangents[i] := t;
    }
  }

  method MonotoneCubicPath(pts: seq<Point>) returns (path: Path)
    ensures pts == [] ==> path == Empty
    ensures pts != [] ==> path.Path? && path.start == pts[0] && |path.segments| == |pts| - 1
    ensures forall i :: 0 <= i < |pts| - 1 ==> path.segments[i] == SegmentAt(pts, i)
  {
    if |pts| == 0 {
      return Empty;
    }
    if |pts| == 1 {
      return Path(pts[0], []);
    }
    var dx, m := Secants(pts);
    var tangents := Tangents(pts, dx, m);
    var segments: seq<Segment> := [];
    for i := 0 to |pts| - 1
      invariant |segments| == i
      invariant forall k :: 0 <= k < i ==> segments[k] == SegmentAt(pts, k)
    {
      segments := segments + [Bend(pts[i], pts[i + 1], tangents[i], tangents[i + 1])];
    }
    path := Path(pts[0], segments);
  }

  // ------------------------------------------------------ tangent bounds

  /** Between zero and three times the slope. */
  predicate Tame(t: real, m: real) {
    if m >= 0.0 then 0.0 <= t <= 3.0 * m else 3.0 * m <= t <= 0.0
  }

  lemma HarmonicMeanPositive(w1: real, m1: real, w2: real, m2: real)
    requires w1 > 0.0 && w2 > 0.0 && m1 > 0.0 && m2 > 0.0 && w2 <= 2.0 * w1 && w1 <= 2.0 * w2
    ensures HarmonicMean(w1, m1, w2, m2).Some?
    ensures Tame(HarmonicMean(w1, m1, w2, m2).value, m1) && Tame(HarmonicMean(w1, m1, w2, m2).value, m2)
  {
    var a, b := w1 / m1, w2 / m2;
    DivPositive(w1, m1);
    DivPositive(w2, m2);
    DivTimes(w1, m1);
    DivTimes(w2, m2);
    MeanBound(w1 + w2, a + b, a, m1);
    MeanBound(w1 + w2, a + b, b, m2);
  }

  lemma MeanBound(w: real, d: real, a: real, m: real)
    requires w > 0.0 && d >= a > 0.0 && m > 0.0 && w <= 3.0 * (a * m)
    ensures 0.0 <= w / d <= 3.0 * m
  {
  }

  lemma NegatedQuotient(x: real, y: real)
    requires y != 0.0
    ensures x / (-y) == -(x / y)
  {
  }

  lemma HarmonicMeanOdd(w1: real, m1: real, w2: real, m2: real)
    requires m1 < 0.0 && m2 < 0.0 && HarmonicMean(w1, -m1, w2, -m2).Some?
    ensures HarmonicMean(w1, m1, w2, m2) == Some(-HarmonicMean(w1, -m1, w2, -m2).value)
  {
    NegatedQuotient(w1, m1);
    NegatedQuotient(w2, m2);
    NegatedQuotient(w1 + w2, w1 / m1 + w2 / m2);
  }

  /** No finite tangent exactly where both gaps vanish between slopes of the same sign. */
  lemma FiniteTangentIff(dx0: real, m0: real, dx1: real, m1: real)
    requires dx0 >= 0.0 && dx1 >= 0.0
    ensures InteriorTangent(dx0, m0, dx1, m1).None? <==> SameSign(m0, m1) && dx0 == dx1 == 0.0
  {
  }

  lemma {:induction false} WideTangentIsTame(dx0: real, m0: real, dx1: real, m1: real)
    requires dx0 >= 0.0 && dx1 >= 0.0 && dx0 + dx1 > 0.0
    ensures InteriorTangent(dx0, m0, dx1, m1).Some?
    ensures Tame(InteriorTangent(dx0, m0, dx1, m1).value, m0)
    ensures Tame(InteriorTangent(dx0, m0, dx1, m1).value, m1)
  {
    var w1, w2 := 2.0 * dx1 + dx0, dx1 + 2.0 * dx0;
    if m0 > 0.0 && m1 > 0.0 {
      HarmonicMeanPositive(w1, m0, w2, m1);
    } else if m0 < 0.0 && m1 < 0.0 {
      HarmonicMeanPositive(w1, -m0, w2, -m1);
      HarmonicMeanOdd(w1, m0, w2, m1);
    }
  }

  /** A finite interior tangent never exceeds three times either adjacent slope, and shares their sign. */
  lemma {:induction false} InteriorTangentIsTame(dx0: real, m0: real, dx1: real, m1: real)
    requires dx0 >= 0.0 && dx1 >= 0.0 && InteriorTangent(dx0, m0, dx1, m1).Some?
    ensures Tame(InteriorTangent(dx0, m0, dx1, m1).value, m0)
    ensures Tame(InteriorTangent(dx0, m0, dx1, m1).value, m1)
  {
    FiniteTangentIff(dx0, m0, dx1, m1);
    if dx0 + dx1 > 0.0 {
      WideTangentIsTame(dx0, m0, dx1, m1);
    }
  }

  /**
   The tangent between two slopes of one sign is their harmonic mean in which either slope
   weighs a third, and another third for the other gap's share of both.
   */
  lemma {:induction false} TangentWeighsGaps(dx0: real, m0: real, dx1: real, m1: real)
    requires dx0 > 0.0 && dx1 > 0.0 && SameSign(m0, m1)
    ensures
      var t := InteriorTangent(dx0, m0, dx1, m1);
      t.Some? && t.value * ((2.0 * dx1 + dx0) * m1 + (dx1 + 2.0 * dx0) * m0) == 3.0 * (dx0 + dx1) * (m0 * m1)
  {
    FiniteTangentIff(dx0, m0, dx1, m1);
    WeightedMean(2.0 * dx1 + dx0, m0, dx1 + 2.0 * dx0, m1);
  }

  lemma WeightedMean(w1: real, m1: real, w2: real, m2: real)
    requires m1 != 0.0 && m2 != 0.0 && w1 / m1 + w2 / m2 != 0.0
    ensures (w1 + w2) / (w1 / m1 + w2 / m2) * (w1 * m2 + w2 * m1) == (w1 + w2) * (m1 * m2)
  {
    var d := w1 / m1 + w2 / m2;
    DivTimes(w1, m1);
    DivTimes(w2, m2);
    CrossMultiplied(w1 / m1, m1, w2 / m2, m2);
    assert w1 * m2 + w2 * m1 == d * (m1 * m2);
    DivTimes(w1 + w2, d);
    Reassociate((w1 + w2) / d, d, m1 * m2);
  }

  lemma CrossMultiplied(a: real, m1: real, b: real, m2: real)
    ensures a * m1 * m2 + b * m2 * m1 == (a + b) * (m1 * m2)
  {
  }

  lemma Reassociate(a: real, b: real, c: real)
    ensures a * (b * c) == a * b * c
  {
  }

  /** The slope over the shorter gap has the greater say: the mean moves from even towards it. */
  lemma {:induction false} ShorterGapPrevails(dx0: real, m0: real, dx1: real, m1: real)
    requires 0.0 < dx0 <= dx1 && 0.0 < m0 <= m1
    ensures InteriorTangent(dx0, m0, dx1, m1).Some?
    ensures InteriorTangent(dx0, m0, dx1, m1).value * (m0 + m1) <= 2.0 * (m0 * m1)
  {
    TangentWeighsGaps(dx0, m0, dx1, m1);
    InteriorTangentIsTame(dx0, m0, dx1, m1);
    var t, gaps := InteriorTangent(dx0, m0, dx1, m1).value, dx0 + dx1;
    MulNonNegative(dx1 - dx0, m1 - m0);
    assert 2.0 * ((2.0 * dx1 + dx0) * m1 + (dx1 + 2.0 * dx0) * m0)
        == 3.0 * (gaps * (m0 + m1)) + (dx1 - dx0) * (m1 - m0);
    MulNonNegative(t, (dx1 - dx0) * (m1 - m0));
    EvenShare(t, gaps, m0 + m1, m0 * m1, (dx1 - dx0) * (m1 - m0));
  }

  lemma EvenShare(t: real, gaps: real, sum: real, product: real, more: real)
    requires gaps > 0.0 && t * more >= 0.0
    requires t * ((3.0 * (gaps * sum) + more) / 2.0) == 3.0 * gaps * product
    ensures t * sum <= 2.0 * product
  {
    assert t * (3.0 * (gaps * sum) + more) == 6.0 * gaps * product;
    assert t * (3.0 * (gaps * sum) + more) == 3.0 * (gaps * (t * sum)) + t * more;
    assert gaps * (2.0 * product - t * sum) == 2.0 * (gaps * product) - gaps * (t * sum);
    NonNegativeFactor(gaps, 2.0 * product - t * sum);
  }

  lemma {:induction false} TangentsAreTame(pts: seq<Point>, i: nat)
    requires Forward(pts) && i + 1 < |pts| && Finite(SegmentAt(pts, i))
    ensures Tame(Tangent(pts, i).value, Slope(pts, i)) && Tame(Tangent(pts, i + 1).value, Slope(pts, i))
  {
    if i > 0 {
      InteriorTangentIsTame(Dx(pts, i - 1), Slope(pts, i - 1), Dx(pts, i), Slope(pts, i));
    }
    if i + 2 < |pts| {
      InteriorTangentIsTame(Dx(pts, i), Slope(pts, i), Dx(pts, i + 1), Slope(pts, i + 1));
    }
  }

  /** A point with both neighbours at its own x, on a climb or a fall. */
  predicate Pinched(pts: seq<Point>, k: nat) {
    && 0 < k < |pts| - 1
    && pts[k - 1].x == pts[k].x == pts[k + 1].x
    && SameSign(Slope(pts, k - 1), Slope(pts, k))
  }

  /** When x never goes back, a segment is drawn in numbers exactly when neither end is pinched. */
  lemma FiniteIffNotPinched(pts: seq<Point>, i: nat)
    requires Forward(pts) && i + 1 < |pts|
    ensures Finite(SegmentAt(pts, i)) <==> !Pinched(pts, i) && !Pinched(pts, i + 1)
  {
  }

  // -------------------------------------------------------- Bezier curves

  function Bezier(a: real, b: real, c: real, d: real, t: real): real {
    var u := 1.0 - t;
    u * u * u * a + 3.0 * (u * u * t) * b + 3.0 * (u * t * t) * c + t * t * t * d
  }

  /** Averages of the derivative's three basis functions over [s, t], times three. */
  function First(s: real, t: real): real { (1.0 - s) * (1.0 - s) + (1.0 - s) * (1.0 - t) + (1.0 - t) * (1.0 - t) }

  function Middle(s: real, t: real): real { 3.0 * (s + t) - 2.0 * (s * s + s * t + t * t) }

  function Last(s: real, t: real): real { s * s + s * t + t * t }

  lemma BasisNonNegative(s: real, t: real)
    requires 0.0 <= s <= 1.0 && 0.0 <= t <= 1.0
    ensures First(s, t) >= 0.0 && Middle(s, t) >= 0.0 && Last(s, t) >= 0.0
    ensures First(s, t) - Middle(s, t) + Last(s, t) >= 0.0
  {
    SquaresAndProduct(1.0 - s, 1.0 - t);
    SquaresAndProduct(s, t);
    MiddleNonNegative(s, t);
    BasisExcess(s, t);
  }

  lemma SquaresAndProduct(a: real, b: real)
    requires a >= 0.0 && b >= 0.0
    ensures a * a + a * b + b * b >= 0.0
  {
    MulNonNegative(a, a);
    MulNonNegative(a, b);
    MulNonNegative(b, b);
  }

  lemma MiddleNonNegative(s: real, t: real)
    requires 0.0 <= s <= 1.0 && 0.0 <= t <= 1.0
    ensures Middle(s, t) >= 0.0
  {
    MulNonNegative(t, 1.0 - t);
    MulNonNegative(s, 1.0 - s);
    MulNonNegative(t, 1.0 - s);
    MulNonNegative(s, 1.0 - t);
    assert Middle(s, t) == 2.0 * (t * (1.0 - t)) + 2.0 * (s * (1.0 - s)) + t * (1.0 - s) + s * (1.0 - t);
  }

  lemma BasisExcess(s: real, t: real)
    ensures First(s, t) - Middle(s, t) + Last(s, t) >= 0.0
  {
    Square(1.0 - s - t);
    Square(s - t);
    assert First(s, t) - Middle(s, t) + Last(s, t)
        == 3.0 * ((1.0 - s - t) * (1.0 - s - t)) + (s - t) * (s - t);
  }

  lemma Square(x: real)
    ensures x * x >= 0.0
  {
  }

  /** The curve that starts at a and takes the steps p, q and r between its control points. */
  function Curve(a: real, p: real, q: real, r: real, t: real): real {
    a + (p * Rise(t) + q * Swell(t) + r * (t * t * t))
  }

  /** Change of a curve between two parameters, from its control-point steps. */
  lemma CurveChange(a: real, p: real, q: real, r: real, s: real, t: real)
    ensures Curve(a, p, q, r, t) - Curve(a, p, q, r, s)
         == (t - s) * (p * First(s, t) + q * Middle(s, t) + r * Last(s, t))
  {
    StepDifferences(s, t);
    ThreeSteps(p, q, r, Rise(s), Swell(s), s * s * s, Rise(t), Swell(t), t * t * t, t - s,
               First(s, t), Middle(s, t), Last(s, t));
  }

  lemma ThreeSteps(p: real, q: real, r: real, a: real, b: real, c: real, a': real, b': real, c': real,
                   k: real, f: real, m: real, l: real)
    requires a' - a == k * f && b' - b == k * m && c' - c == k * l
    ensures (p * a' + q * b' + r * c') - (p * a + q * b + r * c) == k * (p * f + q * m + r * l)
  {
  }

  /** Share of the first and of the middle step taken by time t. */
  function Rise(t: real): real { 3.0 * t - 3.0 * (t * t) + t * t * t }

  function Swell(t: real): real { 3.0 * (t * t) - 2.0 * (t * t * t) }

  lemma BezierFromSteps(a: real, p: real, q: real, r: real, t: real)
    ensures Bezier(a, a + p, a + p + q, a + p + q + r, t) == Curve(a, p, q, r, t)
  {
  }

  lemma StepDifferences(s: real, t: real)
    ensures Rise(t) - Rise(s) == (t - s) * First(s, t)
    ensures Swell(t) - Swell(s) == (t - s) * Middle(s, t)
    ensures t * t * t - s * s * s == (t - s) * Last(s, t)
  {
  }

  lemma {:induction false} TameCurveRises(a: real, p: real, q: real, r: real, s: real, t: real)
    requires p >= 0.0 && r >= 0.0 && p + q >= 0.0 && q + r >= 0.0 && 0.0 <= s <= t <= 1.0
    ensures Curve(a, p, q, r, s) <= Curve(a, p, q, r, t)
  {
    ChangeNonNegative(p, q, r, s, t);
    CurveChange(a, p, q, r, s, t);
  }

  lemma {:induction false} ChangeNonNegative(p: real, q: real, r: real, s: real, t: real)
    requires p >= 0.0 && r >= 0.0 && p + q >= 0.0 && q + r >= 0.0 && 0.0 <= s <= t <= 1.0
    ensures (t - s) * (p * First(s, t) + q * Middle(s, t) + r * Last(s, t)) >= 0.0
  {
    BasisNonNegative(s, t);
    MixNonNegative(p, q, r, First(s, t), Middle(s, t), Last(s, t));
    MulNonNegative(t - s, p * First(s, t) + q * Middle(s, t) + r * Last(s, t));
  }

  /** First and last step of the same sign as the whole rise, and no larger: the curve only rises. */
  lemma {:induction false} TameStepsRise(a: real, p: real, r: real, rise: real, s: real, t: real)
    requires 0.0 <= p <= rise && 0.0 <= r <= rise && 0.0 <= s <= t <= 1.0
    ensures Bezier(a, a + p, a + rise - r, a + rise, s) <= Bezier(a, a + p, a + rise - r, a + rise, t)
  {
    var q := rise - p - r;
    TameCurveRises(a, p, q, r, s, t);
    BezierFromSteps(a, p, q, r, s);
    BezierFromSteps(a, p, q, r, t);
    assert a + p + q == a + rise - r && a + p + q + r == a + rise;
  }

  lemma MixNonNegative(p: real, q: real, r: real, f: real, m: real, l: real)
    requires p >= 0.0 && r >= 0.0 && p + q >= 0.0 && q + r >= 0.0
    requires f >= 0.0 && m >= 0.0 && l >= 0.0 && f - m + l >= 0.0
    ensures p * f + q * m + r * l >= 0.0
  {
    if q >= 0.0 {
      MulNonNegative(p, f);
      MulNonNegative(q, m);
      MulNonNegative(r, l);
    } else {
      MulNonNegative(p + q, f);
      MulNonNegative(q + r, l);
      MulNonNegative(-q, f - m + l);
      assert p * f + q * m + r * l == (p + q) * f + (q + r) * l + -q * (f - m + l);
    }
  }

  function XAt(g: Segment, t: real): real { Bezier(g.p0.x, g.c1.x, g.c2.x, g.p3.x, t) }

  function YAt(g: Segment, t: real): real
    requires Finite(g)
  {
    Bezier(g.p0.y, g.c1.y.value, g.c2.y.value, g.p3.y, t)
  }

  lemma BezierEnds(a: real, b: real, c: real, d: real)
    ensures Bezier(a, b, c, d, 0.0) == a && Bezier(a, b, c, d, 1.0) == d
  {
  }

  lemma BezierNegated(a: real, b: real, c: real, d: real, t: real)
    ensures Bezier(-a, -b, -c, -d, t) == -Bezier(a, b, c, d, t)
  {
  }

  /** The curve moves evenly in x, so it is the graph of a function of x. */
  lemma XIsLinear(pts: seq<Point>, i: nat, t: real)
    requires i + 1 < |pts|
    ensures XAt(SegmentAt(pts, i), t) == pts[i].x + t * Dx(pts, i)
  {
  }

  /** First and last control step of a segment, against its whole rise. */
  lemma StepsAreTame(dx: real, dy: real, tangent: real)
    requires dx >= 0.0 && Tame(tangent, SecantSlope(dy, dx))
    ensures TameStep(ControlStep(tangent, dx), dy)
  {
  }

  /** Every segment moves one way only: up if its end is no lower than its start, else down. */
  lemma {:induction false} SegmentsAreMonotone(pts: seq<Point>, i: nat, s: real, t: real)
    requires Forward(pts) && i + 1 < |pts| && Finite(SegmentAt(pts, i)) && 0.0 <= s <= t <= 1.0
    ensures
      var g := SegmentAt(pts, i);
      if pts[i].y <= pts[i + 1].y then YAt(g, s) <= YAt(g, t) else YAt(g, t) <= YAt(g, s)
  {
    TangentsAreTame(pts, i);
    var dx, dy, t0, t1 := Dx(pts, i), Dy(pts, i), Tangent(pts, i).value, Tangent(pts, i + 1).value;
    StepsAreTame(dx, dy, t0);
    StepsAreTame(dx, dy, t1);
    BendIsMonotone(pts[i], pts[i + 1], t0, t1, s, t);
  }

  /** A step of the same sign as the whole rise, and no larger. */
  predicate TameStep(step: real, dy: real) {
    if dy >= 0.0 then 0.0 <= step <= dy else dy <= step <= 0.0
  }

  lemma {:induction false} BendIsMonotone(p: Point, q: Point, t0: real, t1: real, s: real, t: real)
    requires 0.0 <= s <= t <= 1.0
    requires TameStep(ControlStep(t0, q.x - p.x), q.y - p.y) && TameStep(ControlStep(t1, q.x - p.x), q.y - p.y)
    ensures
      var g := Bend(p, q, Some(t0), Some(t1));
      if p.y <= q.y then YAt(g, s) <= YAt(g, t) else YAt(g, t) <= YAt(g, s)
  {
    TameStepsMonotone(p.y, q.y, ControlStep(t0, q.x - p.x), ControlStep(t1, q.x - p.x), s, t);
  }

  lemma {:induction false} TameStepsMonotone(y0: real, y1: real, first: real, last: real, s: real, t: real)
    requires 0.0 <= s <= t <= 1.0 && TameStep(first, y1 - y0) && TameStep(last, y1 - y0)
    ensures
      var before, after := Bezier(y0, y0 + first, y1 - last, y1, s), Bezier(y0, y0 + first, y1 - last, y1, t);
      if y0 <= y1 then before <= after else after <= before
  {
    if y0 <= y1 {
      TameStepsRise(y0, first, last, y1 - y0, s, t);
      assert y0 + (y1 - y0) == y1;
    } else {
      TameStepsRise(-y0, -first, -last, y0 - y1, s, t);
      assert -y0 + -first == -(y0 + first) && -y0 + (y0 - y1) - -last == -(y1 - last) && -y0 + (y0 - y1) == -y1;
      BezierNegated(y0, y0 + first, y1 - last, y1, s);
      BezierNegated(y0, y0 + first, y1 - last, y1, t);
    }
  }

  /** The curve never leaves the band between two neighbouring points: no overshoot. */
  lemma {:induction false} NeverOvershoots(pts: seq<Point>, i: nat, t: real)
    requires Forward(pts) && i + 1 < |pts| && Finite(SegmentAt(pts, i)) && 0.0 <= t <= 1.0
    ensures Min(pts[i].y, pts[i + 1].y) <= YAt(SegmentAt(pts, i), t) <= Max(pts[i].y, pts[i + 1].y)
    ensures YAt(SegmentAt(pts, i), 0.0) == pts[i].y && YAt(SegmentAt(pts, i), 1.0) == pts[i + 1].y
  {
    var g := SegmentAt(pts, i);
    BezierEnds(g.p0.y, g.c1.y.value, g.c2.y.value, g.p3.y);
    SegmentsAreMonotone(pts, i, 0.0, t);
    SegmentsAreMonotone(pts, i, t, 1.0);
  }

  /** Slope of the line from one control point or end point to another, further right. */
  function SlopeBetween(x0: real, y0: real, x1: real, y1: real): real
    requires x0 < x1
  {
    (y1 - y0) / (x1 - x0)
  }

  /** Neighbouring segments arrive at and leave their common point with its tangent: no kinks. */
  lemma {:induction false} BendsJoin(pts: seq<Point>, i: nat)
    requires i + 2 < |pts| && Dx(pts, i) > 0.0 && Dx(pts, i + 1) > 0.0
    ensures Tangent(pts, i + 1).Some?
    ensures
      var g, f, t := SegmentAt(pts, i), SegmentAt(pts, i + 1), Tangent(pts, i + 1).value;
      && g.c2.y.Some? && g.c2.x < g.p3.x && SlopeBetween(g.c2.x, g.c2.y.value, g.p3.x, g.p3.y) == t
      && f.c1.y.Some? && f.p0.x < f.c1.x && SlopeBetween(f.p0.x, f.p0.y, f.c1.x, f.c1.y.value) == t
  {
    WideTangentIsTame(Dx(pts, i), Slope(pts, i), Dx(pts, i + 1), Slope(pts, i + 1));
    var t := Tangent(pts, i + 1).value;
    StepOverThird(t, Dx(pts, i));
    StepOverThird(t, Dx(pts, i + 1));
    assert ControlStep(t, -Dx(pts, i)) == -ControlStep(t, Dx(pts, i));
  }

  lemma StepOverThird(tangent: real, h: real)
    requires h > 0.0
    ensures ControlStep(tangent, h) / (h / 3.0) == tangent
  {
  }
}
