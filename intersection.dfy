/**
 * Segment intersection (helper/intersection.js).
 *
 * The JavaScript works on floating-point numbers with `+ - * /` only; the model
 * uses exact reals, so rounding is not modelled.  JavaScript truthiness matters in
 * `getLineIntersection`: an offset of exactly 0 is falsy, like `null`.
 */
module Intersection {
  import opened Wrappers

  datatype Point = Point(x: real, y: real)

  /** A segment `[A, B]`. */
  datatype Line = Line(a: Point, b: Point)

  /** The object `{ x, y, offset }` returned for an intersection. */
  datatype Hit = Hit(x: real, y: real, offset: real)

  /** `lerp(A, B, t)`: the point a fraction `t` of the way from `a` to `b`. */
  function Lerp(a: real, b: real, t: real): (r: real)
    ensures t == 0.0 ==> r == a
    ensures t == 1.0 ==> r == b
    ensures a == b ==> r == a
  {
    a + (b - a) * t
  }

  /** `top` in `calculateOffsets`. */
  function Numerator(a: Point, b: Point, c: Point, d: Point): real
  {
    (d.y - c.y) * (a.x - c.x) - (d.x - c.x) * (a.y - c.y)
  }

  /** `bottom` in `calculateOffsets`: zero exactly when the two segments are parallel. */
  function Denominator(a: Point, b: Point, c: Point, d: Point): real
  {
    (d.x - c.x) * (b.y - a.y) - (d.y - c.y) * (b.x - a.x)
  }

  /**
   * `calculateOffsets(A, B, C, D)`: the fraction along AB at which the line CD
   * crosses it, when that fraction lies in [0, 1]; `null` otherwise.
   */
  function CalculateOffsets(a: Point, b: Point, c: Point, d: Point): (r: Option<real>)
    ensures Denominator(a, b, c, d) == 0.0 ==> r == None
    ensures r.Some? ==> 0.0 <= r.value <= 1.0
    ensures r.Some? ==> r.value * Denominator(a, b, c, d) == Numerator(a, b, c, d)
  {
    var top := Numerator(a, b, c, d);
    var bottom := Denominator(a, b, c, d);
    if bottom != 0.0 then
      var offset := top / bottom;
      if 0.0 <= offset <= 1.0 then Some(offset) else None
    else
      None
  }

  /** JavaScript truthiness of a number-or-null: `null` and `0` are falsy. */
  predicate Truthy(o: Option<real>)
  {
    o.Some? && o.value != 0.0
  }

  /** `getLineIntersection(line1, line2)`. */
  function GetLineIntersection(line1: Line, line2: Line): (r: Option<Hit>)
    ensures r.Some? <==> Truthy(CalculateOffsets(line1.a, line1.b, line2.a, line2.b))
                         && Truthy(CalculateOffsets(line2.a, line2.b, line1.a, line1.b))
    ensures r.Some? ==> r.value.offset == CalculateOffsets(line1.a, line1.b, line2.a, line2.b).value
    ensures r.Some? ==> 0.0 < r.value.offset <= 1.0
  {
    var t := CalculateOffsets(line1.a, line1.b, line2.a, line2.b);
    var u := CalculateOffsets(line2.a, line2.b, line1.a, line1.b);
    if Truthy(t) && Truthy(u) then
      Some(Hit(Lerp(line1.a.x, line1.b.x, t.value), Lerp(line1.a.y, line1.b.y, t.value), t.value))
    else
      None
  }

  /** Swapping the segment order swaps the two offsets: it reverses the denominator's sign. */
  lemma DenominatorSwap(a: Point, b: Point, c: Point, d: Point)
    ensures Denominator(c, d, a, b) == -Denominator(a, b, c, d)
  {
  }

  /**
   * A hit lies on both segments: the point reached at fraction `t` along the first
   * segment is the point reached at fraction `u` along the second.
   */
  lemma {:induction false} HitIsOnBothSegments(line1: Line, line2: Line)
    requires GetLineIntersection(line1, line2).Some?
    ensures var h := GetLineIntersection(line1, line2).value;
            var u := CalculateOffsets(line2.a, line2.b, line1.a, line1.b).value;
            h.x == Lerp(line2.a.x, line2.b.x, u) && h.y == Lerp(line2.a.y, line2.b.y, u)
  {
    var a, b, c, d := line1.a, line1.b, line2.a, line2.b;
    var t := CalculateOffsets(a, b, c, d).value;
    var u := CalculateOffsets(c, d, a, b).value;
    var den := Denominator(a, b, c, d);
    DenominatorSwap(a, b, c, d);
    var ex, ey, fx, fy, gx, gy := b.x - a.x, b.y - a.y, d.x - c.x, d.y - c.y, a.x - c.x, a.y - c.y;
    assert den == fx * ey - fy * ex;
    assert t * den == fy * gx - fx * gy;
    assert u * den == ey * gx - ex * gy by {
      assert u * -den == Numerator(c, d, a, b);
    }
    assert (gx + t * ex) * den == (u * fx) * den by {
      calc {
        (gx + t * ex) * den;
        gx * den + (t * den) * ex;
        gx * (fx * ey - fy * ex) + (fy * gx - fx * gy) * ex;
        fx * (ey * gx - ex * gy);
        fx * (u * den);
      }
    }
    assert (gy + t * ey) * den == (u * fy) * den by {
      calc {
        (gy + t * ey) * den;
        gy * den + (t * den) * ey;
        gy * (fx * ey - fy * ex) + (fy * gx - fx * gy) * ey;
        fy * (ey * gx - ex * gy);
        fy * (u * den);
      }
    }
    CancelFactor(gx + t * ex, u * fx, den);
    CancelFactor(gy + t * ey, u * fy, den);
  }

  lemma CancelFactor(p: real, q: real, k: real)
    requires k != 0.0 && p * k == q * k
    ensures p == q
  {
    assert (p - q) * k == 0.0;
  }

  /** Whether two segments intersect does not depend on their order. */
  lemma IntersectionSymmetric(line1: Line, line2: Line)
    ensures GetLineIntersection(line1, line2).None? <==> GetLineIntersection(line2, line1).None?
  {
  }

  /**
   * The converse of `CalculateOffsets`' contract: any fraction in [0, 1] that solves
   * the crossing equation of non-parallel segments is the one returned.
   */
  lemma OffsetIsTheSolution(a: Point, b: Point, c: Point, d: Point, v: real)
    requires Denominator(a, b, c, d) != 0.0
    requires 0.0 <= v <= 1.0 && v * Denominator(a, b, c, d) == Numerator(a, b, c, d)
    ensures CalculateOffsets(a, b, c, d) == Some(v)
  {
    var top, bottom := Numerator(a, b, c, d), Denominator(a, b, c, d);
    assert top / bottom == v by {
      assert (v * bottom) / bottom == v;
    }
  }

  /**
   * Touching at the start of a segment counts as no intersection: `(0,0)-(2,0)`
   * and `(0,-1)-(0,1)` cross at `(0,0)`, offset 0 along the first, yet the result is null.
   */
  lemma TouchingAtStartIsNull()
    ensures CalculateOffsets(Point(0.0, 0.0), Point(2.0, 0.0), Point(0.0, -1.0), Point(0.0, 1.0)) == Some(0.0)
    ensures GetLineIntersection(Line(Point(0.0, 0.0), Point(2.0, 0.0)),
                                Line(Point(0.0, -1.0), Point(0.0, 1.0))) == None
  {
    var a, b, c, d := Point(0.0, 0.0), Point(2.0, 0.0), Point(0.0, -1.0), Point(0.0, 1.0);
    OffsetIsTheSolution(a, b, c, d, 0.0);
  }

  /** Two crossing diagonals of the unit square meet at its centre, halfway along both. */
  lemma DiagonalsMeetAtCentre()
    ensures GetLineIntersection(Line(Point(0.0, 0.0), Point(1.0, 1.0)),
                                Line(Point(0.0, 1.0), Point(1.0, 0.0))) == Some(Hit(0.5, 0.5, 0.5))
  {
    DiagonalOffsets();
    assert Lerp(0.0, 1.0, 0.5) == 0.5;
  }

  lemma DiagonalOffsets()
    ensures CalculateOffsets(Point(0.0, 0.0), Point(1.0, 1.0), Point(0.0, 1.0), Point(1.0, 0.0)) == Some(0.5)
    ensures CalculateOffsets(Point(0.0, 1.0), Point(1.0, 0.0), Point(0.0, 0.0), Point(1.0, 1.0)) == Some(0.5)
  {
    HalfwayOffset(Point(0.0, 0.0), Point(1.0, 1.0), Point(0.0, 1.0), Point(1.0, 0.0), 2.0);
    HalfwayOffset(Point(0.0, 1.0), Point(1.0, 0.0), Point(0.0, 0.0), Point(1.0, 1.0), -2.0);
  }

  lemma HalfwayOffset(a: Point, b: Point, c: Point, d: Point, k: real)
    requires k != 0.0 && Denominator(a, b, c, d) == k && Numerator(a, b, c, d) == k / 2.0
    ensures CalculateOffsets(a, b, c, d) == Some(0.5)
  {
    OffsetIsTheSolution(a, b, c, d, 0.5);
  }
}
