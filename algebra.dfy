/**
 * The geometry kernel of src/algebra.c: vector length and normalisation,
 * the perpendicular distance used for fisheye correction, the single-step
 * angle wrap, and the ray/segment intersection test.
 *
 * Doubles are modelled as reals; the libm functions arrive as a `Libm`.
 */
module Algebra {
  import opened MathLib
  import opened Nullable
  import opened Constants

  /** `struct line`: a wall or door segment from (x0, y0) to (xf, yf). */
  datatype Line = Line(x0: real, y0: real, xf: real, yf: real)

  /** `struct point`. */
  datatype Point = Point(x: real, y: real)

  /** A `double[2]` vector, as passed by value. */
  datatype Vec2 = Vec2(x: real, y: real)

  const ZERO: Vec2 := Vec2(0.0, 0.0)

  function Dot(u: Vec2, v: Vec2): real { u.x * v.x + u.y * v.y }

  function Cross(u: Vec2, v: Vec2): real { u.x * v.y - u.y * v.x }

  function Min(a: real, b: real): real { if a < b then a else b }

  function Max(a: real, b: real): real { if a > b then a else b }

  lemma DotSelf(v: Vec2)
    ensures 0.0 <= Dot(v, v)
    ensures Dot(v, v) == 0.0 <==> v == ZERO
  {
    assert v.x * v.x >= 0.0 && v.y * v.y >= 0.0;
    if Dot(v, v) == 0.0 { SumSquaresZero(v.x, v.y); }
  }

  // ---------------------------------------------------------------------
  // abs_vector2, normalize_vector2
  // ---------------------------------------------------------------------

  /** abs_vector2: the square root of `v`'s squared length. */
  function AbsVector2(m: Libm, v: Vec2): real {
    m.sqrt(Dot(v, v))
  }

  /** abs_vector2 is the Euclidean length: non-negative, and zero exactly for the zero vector. */
  lemma AbsVector2IsLength(m: Libm, v: Vec2)
    requires Lawful(m)
    ensures var r := AbsVector2(m, v);
            0.0 <= r && r * r == Dot(v, v) && (r == 0.0 <==> v == ZERO)
  {
    DotSelf(v);
    SqrtLaw(m, Dot(v, v));
  }

  /** Dividing a nonzero vector by its length gives a unit vector pointing the same way. */
  lemma DivideByLength(v: Vec2, len: real)
    requires v != ZERO && 0.0 < len && len * len == Dot(v, v)
    ensures var r := Vec2(v.x / len, v.y / len);
            Dot(r, r) == 1.0 && Cross(r, v) == 0.0 && 0.0 < Dot(r, v)
  {
    var r := Vec2(v.x / len, v.y / len);
    assert r.x * len == v.x && r.y * len == v.y;
    assert Dot(r, r) * (len * len) == Dot(v, v);
    ProductZero(Dot(r, r) - 1.0, len * len);
    assert Cross(r, v) * len == v.x * v.y - v.y * v.x;
    ProductZero(Cross(r, v), len);
    DotSelf(v);
    assert Dot(r, v) * len == Dot(v, v);
  }

  /**
   * What normalize_vector2 leaves in its array: the vector divided by its
   * length, or by 1 when the length is 0.
   */
  function Normalized(m: Libm, v: Vec2): (r: Vec2)
    ensures v == ZERO ==> r == ZERO
  {
    var len := m.sqrt(Dot(v, v));
    Vec2(v.x / (if len != 0.0 then len else 1.0), v.y / (if len != 0.0 then len else 1.0))
  }

  /** A nonzero vector is normalised to a unit vector pointing the same way. */
  lemma NormalizedIsUnit(m: Libm, v: Vec2)
    requires Lawful(m) && v != ZERO
    ensures var r := Normalized(m, v);
            Dot(r, r) == 1.0 && Cross(r, v) == 0.0 && 0.0 < Dot(r, v)
  {
    DotSelf(v);
    SqrtLaw(m, Dot(v, v));
    DivideByLength(v, m.sqrt(Dot(v, v)));
  }

  /** normalize_vector2: rewrites the two-element array in place. */
  method NormalizeVector2(m: Libm, v: array<real>)
    requires v.Length == 2
    modifies v
    ensures Vec2(v[0], v[1]) == Normalized(m, Vec2(old(v[0]), old(v[1])))
  {
    var len := m.sqrt(Dot(Vec2(v[0], v[1]), Vec2(v[0], v[1])));
    v[0] := v[0] / (if len != 0.0 then len else 1.0);
    v[1] := v[1] / (if len != 0.0 then len else 1.0);
  }

  // ---------------------------------------------------------------------
  // distance_from_line
  // ---------------------------------------------------------------------

  /** The coefficient of the projection of (x, y) onto `plane`. */
  function ProjectionFactor(plane: Vec2, x: real, y: real): real
    requires plane != ZERO
  {
    DotSelf(plane);
    (plane.x * x + plane.y * y) / (plane.x * plane.x + plane.y * plane.y)
  }

  /**
   * (x, y) minus its projection onto `plane` (`orto_proj`): orthogonal to
   * `plane`, and its squared length times |plane|^2 is the squared cross
   * product (Lagrange's identity).
   */
  function OrthogonalPart(plane: Vec2, x: real, y: real): Vec2
    requires plane != ZERO
  {
    var proj := ProjectionFactor(plane, x, y);
    Vec2(x - proj * plane.x, y - proj * plane.y)
  }

  lemma OrthogonalPartFacts(plane: Vec2, x: real, y: real)
    requires plane != ZERO
    ensures var o := OrthogonalPart(plane, x, y);
            Dot(o, plane) == 0.0 &&
            Dot(o, o) * Dot(plane, plane) == Cross(plane, Vec2(x, y)) * Cross(plane, Vec2(x, y))
  {
    var s := Dot(plane, plane);
    var v := Vec2(x, y);
    var proj := ProjectionFactor(plane, x, y);
    DotSelf(plane);
    assert proj * s == Dot(plane, v);
    var o := Vec2(x - proj * plane.x, y - proj * plane.y);
    assert Dot(o, plane) == Dot(plane, v) - proj * s;
    ScaledResidual(plane, v, proj);
    Lagrange(plane, v);
  }

  /** `|v - k·p|²·|p|²`, expanded around `k·|p|²`. */
  lemma ScaledResidual(p: Vec2, v: Vec2, k: real)
    ensures var o := Vec2(v.x - k * p.x, v.y - k * p.y);
            var s := Dot(p, p);
            Dot(o, o) * s == Dot(v, v) * s - 2.0 * (k * s) * Dot(p, v) + (k * s) * (k * s)
  {
    var o := Vec2(v.x - k * p.x, v.y - k * p.y);
    var s := Dot(p, p);
    assert Dot(o, o) == Dot(v, v) - 2.0 * k * Dot(p, v) + k * k * s;
  }

  /** Lagrange's identity in two dimensions: `|v|²·|p|² - (p·v)² == (p×v)²`. */
  lemma Lagrange(p: Vec2, v: Vec2)
    ensures Dot(v, v) * Dot(p, p) - Dot(p, v) * Dot(p, v) == Cross(p, v) * Cross(p, v)
  {}

  /**
   * distance_from_line: the distance of (x, y) from the line through the
   * origin along `plane`. The source divides by |plane|^2 without a guard,
   * so `plane` must be nonzero.
   */
  function DistanceFromLine(m: Libm, plane: Vec2, x: real, y: real): real
    requires plane != ZERO
  {
    AbsVector2(m, OrthogonalPart(plane, x, y))
  }

  /**
   * The distance is non-negative, its square times |plane|^2 is the squared
   * cross product, and it is zero exactly when (x, y) lies along `plane`.
   */
  lemma DistanceFromLineFacts(m: Libm, plane: Vec2, x: real, y: real)
    requires Lawful(m) && plane != ZERO
    ensures var r, c := DistanceFromLine(m, plane, x, y), Cross(plane, Vec2(x, y));
            0.0 <= r && r * r * Dot(plane, plane) == c * c && (r == 0.0 <==> c == 0.0)
  {
    var o := OrthogonalPart(plane, x, y);
    OrthogonalPartFacts(plane, x, y);
    AbsVector2IsLength(m, o);
    DistanceZeroIff(plane, x, y, o);
  }

  lemma DistanceZeroIff(plane: Vec2, x: real, y: real, o: Vec2)
    requires plane != ZERO
    requires Dot(o, o) * Dot(plane, plane) == Cross(plane, Vec2(x, y)) * Cross(plane, Vec2(x, y))
    ensures o == ZERO <==> Cross(plane, Vec2(x, y)) == 0.0
  {
    DotSelf(plane);
    DotSelf(o);
    ScaledSquareZero(Dot(o, o), Dot(plane, plane), Cross(plane, Vec2(x, y)));
  }

  lemma ScaledSquareZero(a: real, s: real, c: real)
    requires 0.0 < s && a * s == c * c
    ensures a == 0.0 <==> c == 0.0
  {
    if a == 0.0 { SquareZero(c); }
    if c == 0.0 { ProductZero(a, s); }
  }

  /** A point on the line along `plane` is at distance 0. */
  lemma DistanceZeroOnLine(m: Libm, plane: Vec2, k: real)
    requires Lawful(m) && plane != ZERO
    ensures DistanceFromLine(m, plane, k * plane.x, k * plane.y) == 0.0
  {
    assert Cross(plane, Vec2(k * plane.x, k * plane.y)) == 0.0;
    DistanceFromLineFacts(m, plane, k * plane.x, k * plane.y);
  }

  /**
   * A point at distance 0 is its own projection onto `plane`: together with
   * DistanceFromLine's contract, distance 0 holds exactly on that line.
   */
  lemma {:induction false} ZeroCrossIsOnLine(plane: Vec2, x: real, y: real)
    requires plane != ZERO && Cross(plane, Vec2(x, y)) == 0.0
    ensures x == ProjectionFactor(plane, x, y) * plane.x
    ensures y == ProjectionFactor(plane, x, y) * plane.y
  {
    var proj := ProjectionFactor(plane, x, y);
    var o := OrthogonalPart(plane, x, y);
    OrthogonalPartFacts(plane, x, y);
    DistanceZeroIff(plane, x, y, o);
  }

  /** Against a unit `plane` the distance is the absolute cross product. */
  lemma UnitPlaneDistance(m: Libm, plane: Vec2, x: real, y: real)
    requires Lawful(m) && Dot(plane, plane) == 1.0
    ensures plane != ZERO
    ensures var c := Cross(plane, Vec2(x, y));
            DistanceFromLine(m, plane, x, y) == if c < 0.0 then -c else c
  {
    DotSelf(plane);
    var c := Cross(plane, Vec2(x, y));
    var r := DistanceFromLine(m, plane, x, y);
    DistanceFromLineFacts(m, plane, x, y);
    var a := if c < 0.0 then -c else c;
    assert r * r == a * a;
    NonNegSquaresEqual(r, a);
  }

  // ---------------------------------------------------------------------
  // normalize_angle
  // ---------------------------------------------------------------------

  /**
   * normalize_angle: one step of 2*PI towards [-PI, PI]. Only angles in
   * [-3*PI, 3*PI] are guaranteed to land in range.
   */
  function NormalizeAngle(a: real): (r: real)
    ensures r == a || r == a + 2.0 * PI || r == a - 2.0 * PI
    ensures -PI <= a <= PI ==> r == a
    ensures -3.0 * PI <= a <= 3.0 * PI ==> -PI <= r <= PI
  {
    if a < -PI then a + 2.0 * PI
    else if a > PI then a - 2.0 * PI
    else a
  }

  /** The wrap is a single step: 4*PI is left at 2*PI, outside [-PI, PI]. */
  lemma NormalizeAngleIsSingleStep()
    ensures NormalizeAngle(4.0 * PI) == 2.0 * PI > PI
    ensures NormalizeAngle(-4.0 * PI) == -2.0 * PI < -PI
  {}

  // ---------------------------------------------------------------------
  // intersection_lines
  // ---------------------------------------------------------------------

  /** `bo`: the ray is written as ao*x + bo*y + co = 0 with bo = -1. */
  const BO: real := -1.0

  /** `co`: the ray's intercept for slope tan(angle) through (xi, yi). */
  function RayIntercept(m: Libm, angle: real, xi: real, yi: real): real
  { yi - xi * m.tan(angle) }

  /** `at`, `bt`, `ct`: the segment's line is at*x + bt*y + ct = 0. */
  function SegA(l: Line): real { l.y0 - l.yf }

  function SegB(l: Line): real { l.xf - l.x0 }

  function SegC(l: Line): real { l.yf * l.x0 - l.y0 * l.xf }

  /** The determinant of the 2x2 system. */
  function Det(m: Libm, angle: real, l: Line): real
  { m.tan(angle) * SegB(l) - SegA(l) * BO }

  predicate OnRayLine(m: Libm, angle: real, xi: real, yi: real, p: Point) {
    m.tan(angle) * p.x + BO * p.y + RayIntercept(m, angle, xi, yi) == 0.0
  }

  predicate OnSegmentLine(l: Line, p: Point) {
    SegA(l) * p.x + SegB(l) * p.y + SegC(l) == 0.0
  }

  /** Both endpoints lie on the segment's implicit line. */
  lemma EndpointsOnSegmentLine(l: Line)
    ensures OnSegmentLine(l, Point(l.x0, l.y0)) && OnSegmentLine(l, Point(l.xf, l.yf))
  {}

  /** The segment's inclusive axis-aligned bounding box. */
  predicate InBox(l: Line, p: Point) {
    Min(l.x0, l.xf) <= p.x <= Max(l.x0, l.xf) && Min(l.y0, l.yf) <= p.y <= Max(l.y0, l.yf)
  }

  /** The horizontal-segment facing test: the line is not behind the ray's vertical direction. */
  predicate FacesHorizontal(angle: real, yi: real, l: Line) {
    !((angle < 0.0 && l.y0 > yi) || (angle > 0.0 && l.y0 < yi))
  }

  /**
   * The four-way forward test: p lies strictly inside the quadrant the
   * angle points into. Angles exactly 0 and +-PI/2 match no case.
   */
  predicate AheadInQuadrant(angle: real, xi: real, yi: real, p: Point) {
    if angle < 0.0 then
      (-(PI / 2.0) < angle && xi < p.x && yi > p.y) || (angle < -(PI / 2.0) && xi > p.x && yi > p.y)
    else
      (angle < PI / 2.0 && xi < p.x && yi < p.y) || (PI / 2.0 < angle && xi > p.x && yi < p.y)
  }

  /**
   * The result of intersection_lines: `hit` is the returned flag and
   * `written` what was stored into the `intersection` array, if anything.
   */
  datatype Outcome = Outcome(hit: bool, written: Option<Point>)

  /** With a nonzero determinant the two lines meet in at most one point. */
  lemma CrossingUnique(ao: real, co: real, at: real, bt: real, ct: real, p: Point, q: Point)
    requires ao * bt - at * BO != 0.0
    requires ao * p.x + BO * p.y + co == 0.0 && at * p.x + bt * p.y + ct == 0.0
    requires ao * q.x + BO * q.y + co == 0.0 && at * q.x + bt * q.y + ct == 0.0
    ensures p == q
  {
    var dx := p.x - q.x;
    var dy := p.y - q.y;
    assert dy == ao * dx;
    assert at * dx + bt * dy == 0.0;
    assert dx * (ao * bt - at * BO) == 0.0;
    ProductZero(dx, ao * bt - at * BO);
  }

  /** The horizontal-branch point lies on both lines. */
  lemma HorizontalSolves(m: Libm, angle: real, xi: real, yi: real, line: Line)
    requires SegA(line) == 0.0 && Det(m, angle, line) != 0.0
    ensures m.tan(angle) != 0.0
    ensures var p := Point(xi + (line.y0 - yi) / m.tan(angle), line.y0);
            OnRayLine(m, angle, xi, yi, p) && OnSegmentLine(line, p)
  {
    var ao := m.tan(angle);
    assert Det(m, angle, line) == ao * SegB(line);
    var p := Point(xi + (line.y0 - yi) / ao, line.y0);
    assert ao * ((line.y0 - yi) / ao) == line.y0 - yi;
    assert ao * p.x == ao * xi + (line.y0 - yi);
  }

  /**
   * The horizontal-segment branch (`at == 0`, determinant nonzero): nothing
   * is written when the origin is on the segment's line; otherwise the
   * written point is on both lines, and it is a hit when it lies within the
   * segment's x-span and the segment is not behind the ray.
   */
  function HorizontalBranch(m: Libm, angle: real, xi: real, yi: real, line: Line): (o: Outcome)
    requires SegA(line) == 0.0 && Det(m, angle, line) != 0.0
    ensures yi == line.y0 ==> o == Outcome(false, None)
    ensures yi != line.y0 ==>
              o.written.Some? &&
              OnRayLine(m, angle, xi, yi, o.written.value) && OnSegmentLine(line, o.written.value)
    ensures o.hit <==>
              o.written.Some? && InBox(line, o.written.value) && FacesHorizontal(angle, yi, line)
  {
    if yi == line.y0 then Outcome(false, None)
    else
      var ao := m.tan(angle);
      HorizontalSolves(m, angle, xi, yi, line);
      var p := Point(xi + (line.y0 - yi) / ao, line.y0);
      if p.x < Min(line.x0, line.xf) || p.x > Max(line.x0, line.xf) then Outcome(false, Some(p))
      else if (angle < 0.0 && line.y0 > yi) || (angle > 0.0 && line.y0 < yi) then Outcome(false, Some(p))
      else Outcome(true, Some(p))
  }

  /** (`intersection[0]`, `intersection[1]`) of the general branch, by Cramer's rule. */
  function CramerPoint(m: Libm, angle: real, xi: real, yi: real, line: Line): (p: Point)
    requires Det(m, angle, line) != 0.0
    ensures OnRayLine(m, angle, xi, yi, p) && OnSegmentLine(line, p)
  {
    var ao := m.tan(angle);
    var co := yi - xi * ao;
    var at := line.y0 - line.yf;
    var bt := line.xf - line.x0;
    var ct := line.yf * line.x0 - line.y0 * line.xf;
    var det := ao * bt - at * BO;
    var p := Point((BO * ct - bt * co) / det, (at * co - ao * ct) / det);
    CramerSolvesAt(m, angle, xi, yi, line, p);
    p
  }

  /** The Cramer-rule point of the ray and the segment lies on both lines. */
  lemma CramerSolvesAt(m: Libm, angle: real, xi: real, yi: real, line: Line, p: Point)
    requires Det(m, angle, line) != 0.0
    requires p.x * Det(m, angle, line) == BO * SegC(line) - SegB(line) * RayIntercept(m, angle, xi, yi)
    requires p.y * Det(m, angle, line) == SegA(line) * RayIntercept(m, angle, xi, yi) - m.tan(angle) * SegC(line)
    ensures OnRayLine(m, angle, xi, yi, p) && OnSegmentLine(line, p)
  {
    var ao, co := m.tan(angle), RayIntercept(m, angle, xi, yi);
    var at, bt, ct := SegA(line), SegB(line), SegC(line);
    var det := Det(m, angle, line);
    assert (ao * p.x + BO * p.y + co) * det == ao * (p.x * det) + BO * (p.y * det) + co * det;
    ProductZero(ao * p.x + BO * p.y + co, det);
    assert (at * p.x + bt * p.y + ct) * det == at * (p.x * det) + bt * (p.y * det) + ct * det;
    ProductZero(at * p.x + bt * p.y + ct, det);
  }

  /**
   * The general branch: Cramer's rule gives the point on both lines; it is
   * a hit when it is inside the segment's inclusive box and strictly
   * ahead of the origin in the angle's quadrant.
   */
  function GeneralBranch(m: Libm, angle: real, xi: real, yi: real, line: Line): (o: Outcome)
    requires Det(m, angle, line) != 0.0
    ensures o.written.Some?
    ensures OnRayLine(m, angle, xi, yi, o.written.value) && OnSegmentLine(line, o.written.value)
    ensures o.hit <==> InBox(line, o.written.value) && AheadInQuadrant(angle, xi, yi, o.written.value)
  {
    var p := CramerPoint(m, angle, xi, yi, line);
    var maxy := if line.y0 > line.yf then line.y0 else line.yf;
    var miny := if line.y0 < line.yf then line.y0 else line.yf;
    var maxx := if line.x0 > line.xf then line.x0 else line.xf;
    var minx := if line.x0 < line.xf then line.x0 else line.xf;
    if p.y > maxy || p.y < miny || p.x < minx || p.x > maxx then Outcome(false, Some(p))
    else if angle < 0.0 then
      if angle > -(PI / 2.0) && xi < p.x && yi > p.y then Outcome(true, Some(p))
      else if angle < -(PI / 2.0) && xi > p.x && yi > p.y then Outcome(true, Some(p))
      else Outcome(false, Some(p))
    else
      if angle < PI / 2.0 && xi < p.x && yi < p.y then Outcome(true, Some(p))
      else if angle > PI / 2.0 && xi > p.x && yi < p.y then Outcome(true, Some(p))
      else Outcome(false, Some(p))
  }

  /**
   * intersection_lines (src/algebra.c). It writes a point exactly when the
   * lines cross and the ray's origin is not on a horizontal segment's line;
   * the written point is on both lines (CrossingIsWritten: it is the only
   * such point); the flag is set exactly when that point is in the
   * segment's box and passes the forward test of its branch.
   */
  function IntersectionLines(m: Libm, angle: real, xi: real, yi: real, line: Line): (o: Outcome)
    ensures o.hit ==> o.written.Some?
    ensures Det(m, angle, line) == 0.0 ==> o == Outcome(false, None)
    ensures SegA(line) == 0.0 && yi == line.y0 ==> o == Outcome(false, None)
    ensures Det(m, angle, line) != 0.0 && !(SegA(line) == 0.0 && yi == line.y0) ==> o.written.Some?
    ensures o.written.Some? ==>
              OnRayLine(m, angle, xi, yi, o.written.value) && OnSegmentLine(line, o.written.value)
    ensures o.hit <==>
              o.written.Some? && InBox(line, o.written.value) &&
              if SegA(line) == 0.0 then FacesHorizontal(angle, yi, line)
              else AheadInQuadrant(angle, xi, yi, o.written.value)
  {
    if Det(m, angle, line) == 0.0 then Outcome(false, None)
    else if SegA(line) == 0.0 then HorizontalBranch(m, angle, xi, yi, line)
    else GeneralBranch(m, angle, xi, yi, line)
  }

  /** Any point on both lines is the point that was written. */
  lemma CrossingIsWritten(m: Libm, angle: real, xi: real, yi: real, line: Line, q: Point)
    requires IntersectionLines(m, angle, xi, yi, line).written.Some?
    requires OnRayLine(m, angle, xi, yi, q) && OnSegmentLine(line, q)
    ensures IntersectionLines(m, angle, xi, yi, line).written == Some(q)
  {
    var p := IntersectionLines(m, angle, xi, yi, line).written.value;
    assert Det(m, angle, line) != 0.0;
    SameCrossing(m, angle, xi, yi, line, p, q);
  }

  /** Two points on both the ray's line and the segment's line coincide. */
  lemma SameCrossing(m: Libm, angle: real, xi: real, yi: real, line: Line, p: Point, q: Point)
    requires Det(m, angle, line) != 0.0
    requires OnRayLine(m, angle, xi, yi, p) && OnSegmentLine(line, p)
    requires OnRayLine(m, angle, xi, yi, q) && OnSegmentLine(line, q)
    ensures p == q
  {
    CrossingUnique(m.tan(angle), RayIntercept(m, angle, xi, yi), SegA(line), SegB(line), SegC(line), p, q);
  }

  /** A hit on a horizontal segment is at the segment's height, within its x-span. */
  lemma HorizontalHitOnSegment(m: Libm, angle: real, xi: real, yi: real, line: Line)
    requires SegA(line) == 0.0 && IntersectionLines(m, angle, xi, yi, line).hit
    ensures var p := IntersectionLines(m, angle, xi, yi, line).written.value;
            p.y == line.y0 && Min(line.x0, line.xf) <= p.x <= Max(line.x0, line.xf)
  {}

  /** A horizontal segment behind the ray's vertical direction is never hit. */
  lemma HorizontalBehindMisses(m: Libm, angle: real, xi: real, yi: real, line: Line)
    requires SegA(line) == 0.0
    requires (angle < 0.0 && line.y0 > yi) || (angle > 0.0 && line.y0 < yi)
    ensures !IntersectionLines(m, angle, xi, yi, line).hit
  {}

  /**
   * Rays at exactly 0 (when tan(0) = 0), PI/2 or -PI/2 never hit a
   * segment that is not horizontal: the forward test is strict.
   */
  lemma AxisAnglesMissSlanted(m: Libm, angle: real, xi: real, yi: real, line: Line)
    requires SegA(line) != 0.0
    requires angle == PI / 2.0 || angle == -(PI / 2.0) || (angle == 0.0 && m.tan(0.0) == 0.0)
    ensures !IntersectionLines(m, angle, xi, yi, line).hit
  {
    var o := IntersectionLines(m, angle, xi, yi, line);
    if angle == 0.0 && o.written.Some? {
      assert OnRayLine(m, angle, xi, yi, o.written.value);
      assert o.written.value.y == yi;
    }
  }

  /**
   * A wall straight ahead at angle 0 is missed: from (60, 60) the ray along
   * +x crosses the wall (110, 10)-(110, 110) at (110, 60), but the strict
   * test `yi < y` rejects it.
   */
  lemma AngleZeroMissesWallAhead(m: Libm)
    requires m.tan(0.0) == 0.0
    ensures IntersectionLines(m, 0.0, 60.0, 60.0, Line(110.0, 10.0, 110.0, 110.0)).written == Some(Point(110.0, 60.0))
    ensures !IntersectionLines(m, 0.0, 60.0, 60.0, Line(110.0, 10.0, 110.0, 110.0)).hit
  {
    var line := Line(110.0, 10.0, 110.0, 110.0);
    var q := Point(110.0, 60.0);
    assert OnRayLine(m, 0.0, 60.0, 60.0, q) && OnSegmentLine(line, q);
    CrossingIsWritten(m, 0.0, 60.0, 60.0, line, q);
    AxisAnglesMissSlanted(m, 0.0, 60.0, 60.0, line);
  }
}
