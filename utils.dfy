/**
 * src/utils.c, the float-era copy of the geometry kernel. Its vector and
 * angle helpers have the same text as src/algebra.c's; its
 * intersection_lines has no horizontal-segment branch. Float and double
 * are both modelled as reals.
 */
module Utils {
  import opened MathLib
  import opened Nullable
  import opened Constants
  import Algebra

  type Vec2 = Algebra.Vec2
  type Line = Algebra.Line
  type Point = Algebra.Point
  type Outcome = Algebra.Outcome

  /** normalize_vector2 (float): the same in-place normalisation as src/algebra.c's. */
  method NormalizeVector2(m: Libm, v: array<real>)
    requires v.Length == 2
    modifies v
    ensures Algebra.Vec2(v[0], v[1]) == Algebra.Normalized(m, Algebra.Vec2(old(v[0]), old(v[1])))
  {
    var len := m.sqrt(v[0] * v[0] + v[1] * v[1]);
    assert v[0] * v[0] + v[1] * v[1] == Algebra.Dot(Algebra.Vec2(v[0], v[1]), Algebra.Vec2(v[0], v[1]));
    v[0] := v[0] / (if len != 0.0 then len else 1.0);
    v[1] := v[1] / (if len != 0.0 then len else 1.0);
  }

  /** abs_vector2 (float): the same value as src/algebra.c's. */
  function AbsVector2(m: Libm, v: Vec2): (r: real)
    ensures r == Algebra.AbsVector2(m, v)
  {
    assert v.x * v.x + v.y * v.y == Algebra.Dot(v, v);
    m.sqrt(v.x * v.x + v.y * v.y)
  }

  /** abs_vector2 (float) is non-negative and zero exactly for the zero vector. */
  lemma AbsVector2IsLength(m: Libm, v: Vec2)
    requires Lawful(m)
    ensures 0.0 <= AbsVector2(m, v) && (AbsVector2(m, v) == 0.0 <==> v == Algebra.ZERO)
  {
    Algebra.AbsVector2IsLength(m, v);
  }

  /** normalize_angle (float): the same single step of 2*PI. */
  function NormalizeAngle(a: real): (r: real)
    ensures r == Algebra.NormalizeAngle(a)
    ensures -3.0 * PI <= a <= 3.0 * PI ==> -PI <= r <= PI
  {
    if a < -PI then a + 2.0 * PI
    else if a > PI then a - 2.0 * PI
    else a
  }

  /** distance_from_plane: the same value as src/algebra.c's distance_from_line. */
  function DistanceFromPlane(m: Libm, plane: Vec2, x: real, y: real): (r: real)
    requires plane != Algebra.ZERO
    ensures r == Algebra.DistanceFromLine(m, plane, x, y)
  {
    Algebra.DotSelf(plane);
    var proj := (plane.x * x + plane.y * y) / (plane.x * plane.x + plane.y * plane.y);
    assert proj == Algebra.ProjectionFactor(plane, x, y);
    assert Algebra.Vec2(x - proj * plane.x, y - proj * plane.y) == Algebra.OrthogonalPart(plane, x, y);
    AbsVector2(m, Algebra.Vec2(x - proj * plane.x, y - proj * plane.y))
  }

  /**
   * intersection_lines (float): no horizontal branch. It writes a point
   * exactly when the determinant is nonzero, the point is on both lines,
   * and the flag is set exactly when the point is in the segment's box and
   * strictly ahead in the angle's quadrant.
   */
  function IntersectionLines(m: Libm, angle: real, xi: real, yi: real, line: Line): (o: Outcome)
    ensures Algebra.Det(m, angle, line) == 0.0 <==> o == Algebra.Outcome(false, None)
    ensures o.written.Some? <==> Algebra.Det(m, angle, line) != 0.0
    ensures o.written.Some? ==>
              Algebra.OnRayLine(m, angle, xi, yi, o.written.value) &&
              Algebra.OnSegmentLine(line, o.written.value)
    ensures o.hit <==>
              o.written.Some? && Algebra.InBox(line, o.written.value) &&
              Algebra.AheadInQuadrant(angle, xi, yi, o.written.value)
  {
    var ao := m.tan(angle);
    var co := yi - xi * m.tan(angle);
    var at := line.y0 - line.yf;
    var bt := line.xf - line.x0;
    var ct := line.yf * line.x0 - line.y0 * line.xf;
    if ao * bt - at * Algebra.BO == 0.0 then Algebra.Outcome(false, None)
    else
      var p := Algebra.CramerPoint(m, angle, xi, yi, line);
      var maxy := if line.y0 > line.yf then line.y0 else line.yf;
      var miny := if line.y0 < line.yf then line.y0 else line.yf;
      var maxx := if line.x0 > line.xf then line.x0 else line.xf;
      var minx := if line.x0 < line.xf then line.x0 else line.xf;
      if p.y > maxy || p.y < miny || p.x < minx || p.x > maxx then Algebra.Outcome(false, Some(p))
      else if angle < 0.0 then
        if angle > -(PI / 2.0) && xi < p.x && yi > p.y then Algebra.Outcome(true, Some(p))
        else if angle < -(PI / 2.0) && xi > p.x && yi > p.y then Algebra.Outcome(true, Some(p))
        else Algebra.Outcome(false, Some(p))
      else
        if angle < PI / 2.0 && xi < p.x && yi < p.y then Algebra.Outcome(true, Some(p))
        else if angle > PI / 2.0 && xi > p.x && yi < p.y then Algebra.Outcome(true, Some(p))
        else Algebra.Outcome(false, Some(p))
  }

  /** On segments that are not horizontal the two versions give the same flag and point. */
  lemma AgreesWithAlgebraOffHorizontal(m: Libm, angle: real, xi: real, yi: real, line: Line)
    requires Algebra.SegA(line) != 0.0
    ensures IntersectionLines(m, angle, xi, yi, line) == Algebra.IntersectionLines(m, angle, xi, yi, line)
  {
    var u := IntersectionLines(m, angle, xi, yi, line);
    var a := Algebra.IntersectionLines(m, angle, xi, yi, line);
    if Algebra.Det(m, angle, line) != 0.0 {
      Algebra.CrossingIsWritten(m, angle, xi, yi, line, u.written.value);
    }
  }

  /**
   * On a horizontal segment both versions compute the same crossing point
   * when src/algebra.c writes one; they differ only in how they decide
   * whether it is in front.
   */
  lemma HorizontalSamePoint(m: Libm, angle: real, xi: real, yi: real, line: Line)
    requires Algebra.SegA(line) == 0.0
    requires Algebra.IntersectionLines(m, angle, xi, yi, line).written.Some?
    ensures IntersectionLines(m, angle, xi, yi, line).written ==
            Algebra.IntersectionLines(m, angle, xi, yi, line).written
  {
    var u := IntersectionLines(m, angle, xi, yi, line);
    Algebra.CrossingIsWritten(m, angle, xi, yi, line, u.written.value);
  }

  /**
   * With the origin on a horizontal segment's line, this version writes
   * the origin itself and reports no hit, as src/algebra.c's early return does.
   */
  lemma {:induction false} OriginOnHorizontalLineMisses(m: Libm, angle: real, xi: real, yi: real, line: Line)
    requires Algebra.SegA(line) == 0.0 && yi == line.y0
    requires Algebra.Det(m, angle, line) != 0.0
    ensures IntersectionLines(m, angle, xi, yi, line).written == Some(Algebra.Point(xi, yi))
    ensures !IntersectionLines(m, angle, xi, yi, line).hit
  {
    var q := Algebra.Point(xi, yi);
    assert Algebra.OnRayLine(m, angle, xi, yi, q);
    assert Algebra.OnSegmentLine(line, q);
    var p := IntersectionLines(m, angle, xi, yi, line).written.value;
    Algebra.CrossingUnique(m.tan(angle), Algebra.RayIntercept(m, angle, xi, yi),
                           Algebra.SegA(line), Algebra.SegB(line), Algebra.SegC(line), p, q);
  }
}
