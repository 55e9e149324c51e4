/**
 * `TransformationMatrix2DH` of src/transformation_matrix_2dh.js: a 2D affine transform in
 * homogeneous coordinates, laid out as a canvas transform is,
 *
 *     | a c e |
 *     | b d f |
 *     | 0 0 1 |
 *
 * The value datatype `Affine` gives the meaning of each operation as a function of the old
 * six components; the class `TransformationMatrix2DH` holds the six fields and updates them
 * in place exactly as the source does. `Product` is matrix multiplication, and the lemmas
 * show that rotate, scale, skew and translate each multiply the matrix on the right by the
 * elementary transform they name, so that a point is moved by the new transform first and
 * by the old one after.
 *
 * Angles reach `rotate` as their cosine and sine.
 */
module TransformationMatrix {
  import opened Vectors
  import M = Matrices

  /** The tolerance of `is_equal`: 1e-14. */
  const Epsilon: real := 0.00000000000001

  /** `abs(f1 - f2) < 1e-14`, the module-level `is_equal` of two numbers. */
  predicate NearlyEqual(f1: real, f2: real) {
    (if f1 - f2 < 0.0 then f2 - f1 else f1 - f2) < Epsilon
  }

  datatype Affine = Affine(a: real, b: real, c: real, d: real, e: real, f: real) {

    /** The determinant of the linear part. */
    function Determinant(): real {
      a * d - b * c
    }

    /** `apply_to_point(x, y)` */
    function ApplyToPoint(x: real, y: real): Vec2 {
      Vec2(x * a + y * c + e, x * b + y * d + f)
    }

    /** `apply_to_points(points)`: each point moved by `apply_to_point`, in order. */
    function ApplyToPoints(points: seq<Vec2>): (r: seq<Vec2>)
      ensures |r| == |points|
      ensures forall i :: 0 <= i < |points| ==> r[i] == ApplyToPoint(points[i].x, points[i].y)
    {
      if points == [] then []
      else [ApplyToPoint(points[0].x, points[0].y)] + ApplyToPoints(points[1..])
    }

    /** What `flip_x()` leaves: the first column negated. */
    function FlippedX(): Affine {
      this.(a := a * -1.0, b := b * -1.0)
    }

    /** What `flip_y()` leaves: the second column negated. */
    function FlippedY(): Affine {
      this.(c := c * -1.0, d := d * -1.0)
    }

    /** What `rotate(angle)` leaves, given the angle's cosine and sine. */
    function Rotated(cos: real, sin: real): Affine {
      this.(a := a * cos + c * sin, b := b * cos + d * sin,
            c := a * -sin + c * cos, d := b * -sin + d * cos)
    }

    /** What `scale(scaler_x, scaler_y)` leaves; `scaler_y` defaults to `scaler_x`. */
    function Scaled(scalerX: real, scalerY: real := scalerX): Affine {
      this.(a := a * scalerX, b := b * scalerX, c := c * scalerY, d := d * scalerY)
    }

    /** What `scale_x(scaler_x)` leaves. */
    function ScaledX(scalerX: real): Affine {
      this.(a := a * scalerX, b := b * scalerX)
    }

    /** What `scale_y(scaler_y)` leaves. */
    function ScaledY(scalerY: real): Affine {
      this.(c := c * scalerY, d := d * scalerY)
    }

    /**
     * What `skew(angle_x, angle_y)` leaves: from a snapshot of the old `a..d`, `angle_x`
     * shears the first column along the second and `angle_y` the second along the first.
     */
    function Skewed(angleX: real, angleY: real := angleX): Affine {
      this.(a := a + c * angleX, b := b + d * angleX, c := c + a * angleY, d := d + b * angleY)
    }

    /**
     * `skew` with each factor on the axis that `skew_x` and `skew_y` give it: `angle_x` moves
     * the second column, `angle_y` the first.
     */
    function SkewedByAxis(angleX: real, angleY: real := angleX): Affine {
      this.(a := a + c * angleY, b := b + d * angleY, c := c + a * angleX, d := d + b * angleX)
    }

    /** What `skew_x(angle_x)` leaves. */
    function SkewedX(angleX: real): Affine {
      this.(c := c + a * angleX, d := d + b * angleX)
    }

    /** What `skew_y(angle_y)` leaves. */
    function SkewedY(angleY: real): Affine {
      this.(a := a + c * angleY, b := b + d * angleY)
    }

    /** What `translate(distance_x, distance_y)` leaves; `distance_y` defaults to `distance_x`. */
    function Translated(distanceX: real, distanceY: real := distanceX): Affine {
      this.(e := e + (a * distanceX + c * distanceY), f := f + (b * distanceX + d * distanceY))
    }

    /** What `translate_x(distance_x)` leaves. */
    function TranslatedX(distanceX: real): Affine {
      this.(e := e + a * distanceX, f := f + b * distanceX)
    }

    /** What `translate_y(distance_y)` leaves. */
    function TranslatedY(distanceY: real): Affine {
      this.(e := e + c * distanceY, f := f + d * distanceY)
    }

    /**
     * What `transform(a, b, c, d, e, f)` leaves. It assigns the fields one after another, so
     * the new `c` and `d` are computed from the already updated `a` and `b`, and the new `e`
     * and `f` from all four updated entries.
     */
    function TransformedAsWritten(n: Affine): Affine {
      var a1 := a * n.a + c * n.b;
      var b1 := b * n.a + d * n.b;
      var c1 := a1 * n.c + c * n.d;
      var d1 := b1 * n.c + d * n.d;
      Affine(a1, b1, c1, d1, a1 * n.e + c1 * n.f + e, b1 * n.e + d1 * n.f + f)
    }
  }

  /** `TransformedAsWritten`, one assignment at a time: each step reads the entries already updated. */
  lemma TransformedAsWrittenSteps(m: Affine, n: Affine, r: Affine)
    requires r.a == m.a * n.a + m.c * n.b && r.b == m.b * n.a + m.d * n.b
    requires r.c == r.a * n.c + m.c * n.d && r.d == r.b * n.c + m.d * n.d
    requires r.e == r.a * n.e + r.c * n.f + m.e && r.f == r.b * n.e + r.d * n.f + m.f
    ensures r == m.TransformedAsWritten(n)
  {
  }

  /** `Product`, entry by entry: each entry of `r` reads only the entries of `m` and `n`. */
  lemma ProductSteps(m: Affine, n: Affine, r: Affine)
    requires r.a == m.a * n.a + m.c * n.b && r.b == m.b * n.a + m.d * n.b
    requires r.c == m.a * n.c + m.c * n.d && r.d == m.b * n.c + m.d * n.d
    requires r.e == m.a * n.e + m.c * n.f + m.e && r.f == m.b * n.e + m.d * n.f + m.f
    ensures r == Product(m, n)
  {
  }

  /** The identity transform, the constructor's default and what `set_identity()` leaves. */
  const Identity: Affine := Affine(1.0, 0.0, 0.0, 1.0, 0.0, 0.0)

  /**
   * The product `m * n` of two transforms: a point is moved by `n` first and then by `m`.
   * It is what `transform(n)` is meant to leave in `m`.
   */
  function Product(m: Affine, n: Affine): Affine {
    Affine(m.a * n.a + m.c * n.b,
           m.b * n.a + m.d * n.b,
           m.a * n.c + m.c * n.d,
           m.b * n.c + m.d * n.d,
           m.a * n.e + m.c * n.f + m.e,
           m.b * n.e + m.d * n.f + m.f)
  }

  /** static `inverse(matrix)`: needs a non-zero determinant. */
  function Inverse(m: Affine): Affine
    requires m.Determinant() != 0.0
  {
    InverseOf(m.a, m.b, m.c, m.d, m.e, m.f)
  }

  /** The inverse of the transform with components `a`..`f`, as `inverse` computes it. */
  function InverseOf(a: real, b: real, c: real, d: real, e: real, f: real): Affine
    requires a * d - b * c != 0.0
  {
    var determinant := a * d - b * c;
    Affine(d / determinant,
           -b / determinant,
           -c / determinant,
           a / determinant,
           (c * f - d * e) / determinant,
           (b * e - a * f) / determinant)
  }

  /** static `interpolate(m1, m2, range)`: each component moved `range` of the way from `m1` to `m2`. */
  function Interpolate(m1: Affine, m2: Affine, range: real): (r: Affine)
    ensures range == 0.0 ==> r == m1
    ensures range == 1.0 ==> r == m2
    ensures m1 == m2 ==> r == m1
  {
    Affine(m1.a + (m2.a - m1.a) * range,
           m1.b + (m2.b - m1.b) * range,
           m1.c + (m2.c - m1.c) * range,
           m1.d + (m2.d - m1.d) * range,
           m1.e + (m2.e - m1.e) * range,
           m1.f + (m2.f - m1.f) * range)
  }

  /** static `is_equal(m1, m2)`: every component within the tolerance. */
  predicate IsEqual(m1: Affine, m2: Affine) {
    NearlyEqual(m1.a, m2.a) &&
    NearlyEqual(m1.b, m2.b) &&
    NearlyEqual(m1.c, m2.c) &&
    NearlyEqual(m1.d, m2.d) &&
    NearlyEqual(m1.e, m2.e) &&
    NearlyEqual(m1.f, m2.f)
  }

  /** `is_equal` holds of equal matrices and does not depend on the order of its arguments. */
  lemma IsEqualReflexiveSymmetric(m1: Affine, m2: Affine)
    ensures IsEqual(m1, m1)
    ensures IsEqual(m1, m2) <==> IsEqual(m2, m1)
  {
  }

  /** Tolerance is not transitive: two steps just under it add up to more than it. */
  lemma IsEqualNotTransitive()
    ensures var half := Identity.(e := Epsilon * 0.75);
            var whole := Identity.(e := Epsilon * 1.5);
            IsEqual(Identity, half) && IsEqual(half, whole) && !IsEqual(Identity, whole)
  {
  }

  /** The determinant of a product is the product of the determinants. */
  lemma ProductDeterminant(m: Affine, n: Affine)
    ensures Product(m, n).Determinant() == m.Determinant() * n.Determinant()
  {
  }

  /** The first coordinate of a point moved by a product. */
  lemma ProductApplyX(m: Affine, n: Affine, x: real, y: real)
    ensures var p := n.ApplyToPoint(x, y);
            Product(m, n).ApplyToPoint(x, y).x == m.ApplyToPoint(p.x, p.y).x
  {
  }

  /** The second coordinate of a point moved by a product. */
  lemma ProductApplyY(m: Affine, n: Affine, x: real, y: real)
    ensures var p := n.ApplyToPoint(x, y);
            Product(m, n).ApplyToPoint(x, y).y == m.ApplyToPoint(p.x, p.y).y
  {
  }

  /** The product moves a point by `n` and then by `m`. */
  lemma ProductApply(m: Affine, n: Affine, x: real, y: real)
    ensures var p := n.ApplyToPoint(x, y);
            Product(m, n).ApplyToPoint(x, y) == m.ApplyToPoint(p.x, p.y)
  {
    ProductApplyX(m, n, x, y);
    ProductApplyY(m, n, x, y);
  }

  /** The identity leaves points where they are. */
  lemma IdentityFixesPoints(points: seq<Vec2>)
    ensures Identity.ApplyToPoints(points) == points
  {
    var r := Identity.ApplyToPoints(points);
    forall i | 0 <= i < |points|
      ensures r[i] == points[i]
    {
      var p := points[i];
      assert Identity.ApplyToPoint(p.x, p.y) == Vec2(p.x, p.y);
    }
  }

  /** The identity is neutral for the product on both sides. */
  lemma IdentityIsNeutral(m: Affine)
    ensures Product(m, Identity) == m && Product(Identity, m) == m
  {
  }

  /** `apply_to_points` with a product is `apply_to_points` twice. */
  lemma ProductApplyToPoints(m: Affine, n: Affine, points: seq<Vec2>)
    ensures Product(m, n).ApplyToPoints(points) == m.ApplyToPoints(n.ApplyToPoints(points))
  {
    forall i | 0 <= i < |points|
      ensures Product(m, n).ApplyToPoints(points)[i] == m.ApplyToPoints(n.ApplyToPoints(points))[i]
    {
      ProductApply(m, n, points[i].x, points[i].y);
    }
  }

  /** `rotate` multiplies on the right by the rotation, and keeps the determinant when cos² + sin² = 1. */
  lemma RotateIsProduct(m: Affine, cos: real, sin: real)
    ensures m.Rotated(cos, sin) == Product(m, Affine(cos, sin, -sin, cos, 0.0, 0.0))
    ensures cos * cos + sin * sin == 1.0 ==> m.Rotated(cos, sin).Determinant() == m.Determinant()
  {
    assert Affine(cos, sin, -sin, cos, 0.0, 0.0).Determinant() == cos * cos + sin * sin;
  }

  /** `scale` multiplies on the right by the scaling, and is `scale_x` followed by `scale_y`. */
  lemma ScaleIsProduct(m: Affine, scalerX: real, scalerY: real)
    ensures m.Scaled(scalerX, scalerY) == Product(m, Affine(scalerX, 0.0, 0.0, scalerY, 0.0, 0.0))
    ensures m.Scaled(scalerX, scalerY) == m.ScaledX(scalerX).ScaledY(scalerY)
    ensures m.ScaledX(scalerX) == m.Scaled(scalerX, 1.0) && m.ScaledY(scalerY) == m.Scaled(1.0, scalerY)
  {
  }

  /** What `translate` leaves, entry by entry. */
  lemma TranslatedEntries(m: Affine, distanceX: real, distanceY: real)
    ensures var t := m.Translated(distanceX, distanceY); t.a == m.a && t.b == m.b && t.c == m.c && t.d == m.d
    ensures m.Translated(distanceX, distanceY).e == m.e + (m.a * distanceX + m.c * distanceY)
    ensures m.Translated(distanceX, distanceY).f == m.f + (m.b * distanceX + m.d * distanceY)
  {
  }

  /** The product by a translation, entry by entry. */
  lemma TranslationProductEntries(m: Affine, distanceX: real, distanceY: real)
    ensures var p := Product(m, Affine(1.0, 0.0, 0.0, 1.0, distanceX, distanceY));
            p.a == m.a && p.b == m.b && p.c == m.c && p.d == m.d
    ensures Product(m, Affine(1.0, 0.0, 0.0, 1.0, distanceX, distanceY)).e == m.e + (m.a * distanceX + m.c * distanceY)
    ensures Product(m, Affine(1.0, 0.0, 0.0, 1.0, distanceX, distanceY)).f == m.f + (m.b * distanceX + m.d * distanceY)
  {
  }

  /** What `translate_x` and then `translate_y` leave, entry by entry. */
  lemma TranslatedTwiceEntries(m: Affine, distanceX: real, distanceY: real)
    ensures var t := m.TranslatedX(distanceX).TranslatedY(distanceY); t.a == m.a && t.b == m.b && t.c == m.c && t.d == m.d
    ensures m.TranslatedX(distanceX).TranslatedY(distanceY).e == m.e + (m.a * distanceX + m.c * distanceY)
    ensures m.TranslatedX(distanceX).TranslatedY(distanceY).f == m.f + (m.b * distanceX + m.d * distanceY)
  {
  }

  /** `translate` multiplies on the right by the translation. */
  lemma TranslateIsProduct(m: Affine, distanceX: real, distanceY: real)
    ensures m.Translated(distanceX, distanceY) == Product(m, Affine(1.0, 0.0, 0.0, 1.0, distanceX, distanceY))
  {
    TranslatedEntries(m, distanceX, distanceY);
    TranslationProductEntries(m, distanceX, distanceY);
  }

  /** `translate` is `translate_x` followed by `translate_y`. */
  lemma TranslateSplits(m: Affine, distanceX: real, distanceY: real)
    ensures m.Translated(distanceX, distanceY) == m.TranslatedX(distanceX).TranslatedY(distanceY)
  {
    TranslatedEntries(m, distanceX, distanceY);
    TranslatedTwiceEntries(m, distanceX, distanceY);
  }

  /** A point moved by the translated transform is the point moved by the distance first. */
  lemma TranslateMovesPoint(m: Affine, distanceX: real, distanceY: real, x: real, y: real)
    ensures m.Translated(distanceX, distanceY).ApplyToPoint(x, y) == m.ApplyToPoint(x + distanceX, y + distanceY)
  {
    TranslateIsProduct(m, distanceX, distanceY);
    ProductApply(m, Affine(1.0, 0.0, 0.0, 1.0, distanceX, distanceY), x, y);
  }

  /** `flip_x` and `flip_y` multiply by a reflection: they negate the determinant and undo themselves. */
  lemma FlipIsReflection(m: Affine)
    ensures m.FlippedX() == Product(m, Affine(-1.0, 0.0, 0.0, 1.0, 0.0, 0.0))
    ensures m.FlippedY() == Product(m, Affine(1.0, 0.0, 0.0, -1.0, 0.0, 0.0))
    ensures m.FlippedX().Determinant() == -m.Determinant() && m.FlippedY().Determinant() == -m.Determinant()
    ensures m.FlippedX().FlippedX() == m && m.FlippedY().FlippedY() == m
  {
  }

  /**
   * `skew_x` and `skew_y` multiply on the right by a shear. `skew(angle_x, angle_y)` does
   * too, but its factors sit on the other axes: `skew(k, 0)` is `skew_y(k)` and `skew(0, k)`
   * is `skew_x(k)`.
   */
  lemma SkewAsWritten(m: Affine, k: real)
    ensures m.SkewedX(k) == Product(m, Affine(1.0, 0.0, k, 1.0, 0.0, 0.0))
    ensures m.SkewedY(k) == Product(m, Affine(1.0, k, 0.0, 1.0, 0.0, 0.0))
    ensures m.Skewed(k, 0.0) == m.SkewedY(k) && m.Skewed(0.0, k) == m.SkewedX(k)
  {
  }

  /** A concrete case: on the identity, `skew(1, 0)` sets `b` where `skew_x(1)` sets `c`. */
  lemma SkewSwapsAxes()
    ensures Identity.Skewed(1.0, 0.0) == Affine(1.0, 1.0, 0.0, 1.0, 0.0, 0.0)
    ensures Identity.SkewedX(1.0) == Affine(1.0, 0.0, 1.0, 1.0, 0.0, 0.0)
  {
  }

  /** What `skew` with the factors on their own axes leaves, entry by entry. */
  lemma SkewedByAxisEntries(m: Affine, angleX: real, angleY: real)
    ensures var s := m.SkewedByAxis(angleX, angleY); s.e == m.e && s.f == m.f
    ensures var s := m.SkewedByAxis(angleX, angleY); s.a == m.a + m.c * angleY && s.b == m.b + m.d * angleY
    ensures var s := m.SkewedByAxis(angleX, angleY); s.c == m.c + m.a * angleX && s.d == m.d + m.b * angleX
  {
  }

  /** The product by a shear, entry by entry. */
  lemma ShearProductEntries(m: Affine, angleX: real, angleY: real)
    ensures var p := Product(m, Affine(1.0, angleY, angleX, 1.0, 0.0, 0.0)); p.e == m.e && p.f == m.f
    ensures var p := Product(m, Affine(1.0, angleY, angleX, 1.0, 0.0, 0.0)); p.a == m.a + m.c * angleY && p.b == m.b + m.d * angleY
    ensures var p := Product(m, Affine(1.0, angleY, angleX, 1.0, 0.0, 0.0)); p.c == m.c + m.a * angleX && p.d == m.d + m.b * angleX
  {
  }

  /**
   * With the factors on the axes `skew_x` and `skew_y` use, `skew` is the product by the
   * shear with both factors.
   */
  lemma SkewByAxisIsProduct(m: Affine, angleX: real, angleY: real)
    ensures m.SkewedByAxis(angleX, angleY) == Product(m, Affine(1.0, angleY, angleX, 1.0, 0.0, 0.0))
  {
    SkewedByAxisEntries(m, angleX, angleY);
    ShearProductEntries(m, angleX, angleY);
  }

  /** With one factor 0, `skew` with the factors on their own axes is `skew_x` or `skew_y`. */
  lemma SkewByAxisReduces(m: Affine, angleX: real, angleY: real)
    ensures m.SkewedByAxis(angleX, 0.0) == m.SkewedX(angleX)
    ensures m.SkewedByAxis(0.0, angleY) == m.SkewedY(angleY)
  {
  }

  /** A product whose six entries are those of the identity is the identity. */
  lemma IdentityByEntries(pa: real, pb: real, pc: real, pd: real, pe: real, pf: real,
                          qa: real, qb: real, qc: real, qd: real, qe: real, qf: real)
    requires pa * qa + pc * qb == 1.0 && pb * qa + pd * qb == 0.0
    requires pa * qc + pc * qd == 0.0 && pb * qc + pd * qd == 1.0
    requires pa * qe + pc * qf + pe == 0.0 && pb * qe + pd * qf + pf == 0.0
    ensures Product(Affine(pa, pb, pc, pd, pe, pf), Affine(qa, qb, qc, qd, qe, qf)) == Identity
  {
  }

  /**
   * Over plain reals: the linear entries `ra`..`rd` of the inverse, for the determinant `t`,
   * cancel the linear entries `a`..`d` in either order of the product.
   */
  lemma LinearCancels(a: real, b: real, c: real, d: real, t: real, ra: real, rb: real, rc: real, rd: real)
    requires t == a * d - b * c && t != 0.0
    requires ra == d / t && rb == -b / t && rc == -c / t && rd == a / t
    ensures ra * a + rc * b == 1.0 && rb * a + rd * b == 0.0 && ra * c + rc * d == 0.0 && rb * c + rd * d == 1.0
    ensures a * ra + c * rb == 1.0 && b * ra + d * rb == 0.0 && a * rc + c * rd == 0.0 && b * rc + d * rd == 1.0
  {
    var k := 1.0 / t;
    assert t * k == 1.0;
    assert ra == d * k && rb == -b * k && rc == -c * k && rd == a * k;
    assert ra * a + rc * b == t * k && rb * c + rd * d == t * k;
    assert a * ra + c * rb == t * k && b * rc + d * rd == t * k;
  }

  /**
   * Over plain reals: the translation `(re, rf)` of the inverse, for the determinant `t`,
   * cancels the translation `(e, f)` when the inverse is applied after the transform.
   */
  lemma TranslationCancelsAfter(a: real, b: real, c: real, d: real, e: real, f: real, t: real,
                                ra: real, rb: real, rc: real, rd: real, re: real, rf: real)
    requires t != 0.0
    requires ra == d / t && rb == -b / t && rc == -c / t && rd == a / t
    requires re == (c * f - d * e) / t && rf == (b * e - a * f) / t
    ensures ra * e + rc * f + re == 0.0 && rb * e + rd * f + rf == 0.0
  {
    var k := 1.0 / t;
    assert t * k == 1.0;
    assert ra == d * k && rb == -b * k && rc == -c * k && rd == a * k;
    assert re == (c * f - d * e) * k && rf == (b * e - a * f) * k;
  }

  /**
   * Over plain reals: the translation `(re, rf)` of the inverse, for the determinant `t`,
   * cancels the translation `(e, f)` when the inverse is applied before the transform.
   */
  lemma TranslationCancelsBefore(a: real, b: real, c: real, d: real, e: real, f: real, t: real,
                                 re: real, rf: real)
    requires t == a * d - b * c && t != 0.0
    requires re == (c * f - d * e) / t && rf == (b * e - a * f) / t
    ensures a * re + c * rf + e == 0.0 && b * re + d * rf + f == 0.0
  {
    var k := 1.0 / t;
    assert t * k == 1.0;
    assert re == (c * f - d * e) * k && rf == (b * e - a * f) * k;
    assert a * re + c * rf == -e * (t * k);
    assert b * re + d * rf == -f * (t * k);
  }

  /** The inverse written over the six components, times the transform, is the identity. */
  lemma InverseOfOnLeft(a: real, b: real, c: real, d: real, e: real, f: real)
    requires a * d - b * c != 0.0
    ensures Product(InverseOf(a, b, c, d, e, f), Affine(a, b, c, d, e, f)) == Identity
  {
    var r := InverseOf(a, b, c, d, e, f);
    LinearCancels(a, b, c, d, a * d - b * c, r.a, r.b, r.c, r.d);
    TranslationCancelsAfter(a, b, c, d, e, f, a * d - b * c, r.a, r.b, r.c, r.d, r.e, r.f);
    IdentityByEntries(r.a, r.b, r.c, r.d, r.e, r.f, a, b, c, d, e, f);
  }

  /** The transform times its inverse written over the six components is the identity. */
  lemma InverseOfOnRight(a: real, b: real, c: real, d: real, e: real, f: real)
    requires a * d - b * c != 0.0
    ensures Product(Affine(a, b, c, d, e, f), InverseOf(a, b, c, d, e, f)) == Identity
  {
    var r := InverseOf(a, b, c, d, e, f);
    LinearCancels(a, b, c, d, a * d - b * c, r.a, r.b, r.c, r.d);
    TranslationCancelsBefore(a, b, c, d, e, f, a * d - b * c, r.e, r.f);
    IdentityByEntries(a, b, c, d, e, f, r.a, r.b, r.c, r.d, r.e, r.f);
  }

  /** `inverse(m)` times `m` is the identity. */
  lemma InverseTimesTransform(m: Affine)
    requires m.Determinant() != 0.0
    ensures Product(Inverse(m), m) == Identity
  {
    InverseOfOnLeft(m.a, m.b, m.c, m.d, m.e, m.f);
  }

  /** `m` times `inverse(m)` is the identity. */
  lemma TransformTimesInverse(m: Affine)
    requires m.Determinant() != 0.0
    ensures Product(m, Inverse(m)) == Identity
  {
    InverseOfOnRight(m.a, m.b, m.c, m.d, m.e, m.f);
  }

  /** `inverse(m)` undoes `m`: a point moved by `m` and then by the inverse comes back. */
  lemma InverseAfter(m: Affine, v: Vec2)
    requires m.Determinant() != 0.0
    ensures var p := m.ApplyToPoint(v.x, v.y); Inverse(m).ApplyToPoint(p.x, p.y) == v
  {
    ProductApply(Inverse(m), m, v.x, v.y);
    InverseTimesTransform(m);
  }

  /** `m` undoes `inverse(m)`: a point moved by the inverse and then by `m` comes back. */
  lemma InverseBefore(m: Affine, v: Vec2)
    requires m.Determinant() != 0.0
    ensures var q := Inverse(m).ApplyToPoint(v.x, v.y); m.ApplyToPoint(q.x, q.y) == v
  {
    ProductApply(m, Inverse(m), v.x, v.y);
    TransformTimesInverse(m);
  }

  /** `inverse(m)` cancels `m` on either side, applied to any point. */
  lemma InverseRoundTrip(m: Affine, x: real, y: real)
    requires m.Determinant() != 0.0
    ensures var p := m.ApplyToPoint(x, y); Inverse(m).ApplyToPoint(p.x, p.y) == Vec2(x, y)
    ensures var q := Inverse(m).ApplyToPoint(x, y); m.ApplyToPoint(q.x, q.y) == Vec2(x, y)
  {
    InverseAfter(m, Vec2(x, y));
    InverseBefore(m, Vec2(x, y));
  }

  /** One coordinate of an interpolated transform, over plain reals. */
  lemma InterpolateCoordinate(a1: real, c1: real, e1: real, a2: real, c2: real, e2: real, range: real, x: real, y: real)
    ensures x * (a1 + (a2 - a1) * range) + y * (c1 + (c2 - c1) * range) + (e1 + (e2 - e1) * range)
         == (x * a1 + y * c1 + e1) * (1.0 - range) + (x * a2 + y * c2 + e2) * range
  {
    assert x * (a1 + (a2 - a1) * range) == x * a1 + (x * a2 - x * a1) * range;
    assert y * (c1 + (c2 - c1) * range) == y * c1 + (y * c2 - y * c1) * range;
  }

  /** The first coordinate of a point moved by an interpolated transform. */
  lemma InterpolateApplyX(m1: Affine, m2: Affine, range: real, x: real, y: real)
    ensures Interpolate(m1, m2, range).ApplyToPoint(x, y).x
         == Vec2.Lerp(m1.ApplyToPoint(x, y), m2.ApplyToPoint(x, y), range).x
  {
    InterpolateCoordinate(m1.a, m1.c, m1.e, m2.a, m2.c, m2.e, range, x, y);
  }

  /** The second coordinate of a point moved by an interpolated transform. */
  lemma InterpolateApplyY(m1: Affine, m2: Affine, range: real, x: real, y: real)
    ensures Interpolate(m1, m2, range).ApplyToPoint(x, y).y
         == Vec2.Lerp(m1.ApplyToPoint(x, y), m2.ApplyToPoint(x, y), range).y
  {
    InterpolateCoordinate(m1.b, m1.d, m1.f, m2.b, m2.d, m2.f, range, x, y);
  }

  /** Interpolating two transforms interpolates, by the same amount, where they send each point. */
  lemma InterpolateApply(m1: Affine, m2: Affine, range: real, x: real, y: real)
    ensures Interpolate(m1, m2, range).ApplyToPoint(x, y)
         == Vec2.Lerp(m1.ApplyToPoint(x, y), m2.ApplyToPoint(x, y), range)
  {
    InterpolateApplyX(m1, m2, range, x, y);
    InterpolateApplyY(m1, m2, range, x, y);
  }

  /** `transform` agrees with the product when the argument only translates. */
  lemma TransformAsWrittenOnTranslation(m: Affine, e: real, f: real)
    ensures m.TransformedAsWritten(Affine(1.0, 0.0, 0.0, 1.0, e, f)) == Product(m, Affine(1.0, 0.0, 0.0, 1.0, e, f))
  {
    var n := Affine(1.0, 0.0, 0.0, 1.0, e, f);
    var w := m.TransformedAsWritten(n);
    assert w.a == m.a && w.b == m.b && w.c == m.c && w.d == m.d;
    assert w.e == m.a * e + m.c * f + m.e;
    assert w.f == m.b * e + m.d * f + m.f;
  }

  /**
   * A concrete case where `transform` does not multiply: from the identity, `transform(2, 0,
   * 3, 1, 0, 0)` leaves `c` = 6, computed from the new `a` = 2, where the product has 3.
   */
  lemma TransformAsWrittenIsNotProduct()
    ensures Identity.TransformedAsWritten(Affine(2.0, 0.0, 3.0, 1.0, 0.0, 0.0)) == Affine(2.0, 0.0, 6.0, 1.0, 0.0, 0.0)
    ensures Product(Identity, Affine(2.0, 0.0, 3.0, 1.0, 0.0, 0.0)) == Affine(2.0, 0.0, 3.0, 1.0, 0.0, 0.0)
  {
  }

  class TransformationMatrix2DH {
    var a: real
    var b: real
    var c: real
    var d: real
    var e: real
    var f: real

    /** The current six components. */
    function Value(): Affine
      reads this
    {
      Affine(a, b, c, d, e, f)
    }

    /** `new TransformationMatrix2DH(a, b, c, d, e, f)`: every omitted component comes from the identity. */
    constructor (a: real := 1.0, b: real := 0.0, c: real := 0.0, d: real := 1.0, e: real := 0.0, f: real := 0.0)
      ensures Value() == Affine(a, b, c, d, e, f)
    {
      this.a, this.c, this.e := a, c, e;
      this.b, this.d, this.f := b, d, f;
    }

    /** `flip_x()` */
    method FlipX()
      modifies this
      ensures Value() == old(Value()).FlippedX()
    {
      a := a * -1.0;
      b := b * -1.0;
    }

    /** `flip_y()` */
    method FlipY()
      modifies this
      ensures Value() == old(Value()).FlippedY()
    {
      c := c * -1.0;
      d := d * -1.0;
    }

    /** `set_identity()` */
    method SetIdentity()
      modifies this
      ensures Value() == Identity
    {
      a, d := 1.0, 1.0;
      b, c, e, f := 0.0, 0.0, 0.0, 0.0;
    }

    /** `rotate(angle)`, given the angle's cosine and sine; reads a snapshot of `a..d`. */
    method Rotate(cos: real, sin: real)
      modifies this
      ensures Value() == old(Value()).Rotated(cos, sin)
    {
      var a0, b0, c0, d0 := a, b, c, d;
      a := a0 * cos + c0 * sin;
      b := b0 * cos + d0 * sin;
      c := a0 * -sin + c0 * cos;
      d := b0 * -sin + d0 * cos;
    }

    /** `scale(scaler_x, scaler_y = scaler_x)` */
    method Scale(scalerX: real, scalerY: real := scalerX)
      modifies this
      ensures Value() == old(Value()).Scaled(scalerX, scalerY)
    {
      a := a * scalerX;
      b := b * scalerX;
      c := c * scalerY;
      d := d * scalerY;
    }

    /** `scale_x(scaler_x)` */
    method ScaleX(scalerX: real)
      modifies this
      ensures Value() == old(Value()).ScaledX(scalerX)
    {
      a := a * scalerX;
      b := b * scalerX;
    }

    /** `scale_y(scaler_y)` */
    method ScaleY(scalerY: real)
      modifies this
      ensures Value() == old(Value()).ScaledY(scalerY)
    {
      c := c * scalerY;
      d := d * scalerY;
    }

    /** `skew(angle_x, angle_y = angle_x)`: reads a snapshot of `a..d`. */
    method Skew(angleX: real, angleY: real := angleX)
      modifies this
      ensures Value() == old(Value()).Skewed(angleX, angleY)
    {
      var a0, b0, c0, d0 := a, b, c, d;
      a := a + c0 * angleX;
      b := b + d0 * angleX;
      c := c + a0 * angleY;
      d := d + b0 * angleY;
    }

    /**
     * `skew(angle_x, angle_y)` as evidently intended: each factor on the axis `skew_x` and
     * `skew_y` give it, so the matrix is multiplied on the right by the shear.
     */
    method SkewByAxis(angleX: real, angleY: real := angleX)
      modifies this
      ensures Value() == old(Value()).SkewedByAxis(angleX, angleY)
    {
      var a0, b0, c0, d0 := a, b, c, d;
      a := a + c0 * angleY;
      b := b + d0 * angleY;
      c := c + a0 * angleX;
      d := d + b0 * angleX;
    }

    /** `skew_x(angle_x)` */
    method SkewX(angleX: real)
      modifies this
      ensures Value() == old(Value()).SkewedX(angleX)
    {
      c := c + a * angleX;
      d := d + b * angleX;
    }

    /** `skew_y(angle_y)` */
    method SkewY(angleY: real)
      modifies this
      ensures Value() == old(Value()).SkewedY(angleY)
    {
      a := a + c * angleY;
      b := b + d * angleY;
    }

    /** `set_transform(a, b, c, d, e, f)` */
    method SetTransform(a: real, b: real, c: real, d: real, e: real, f: real)
      modifies this
      ensures Value() == Affine(a, b, c, d, e, f)
    {
      this.a := a;
      this.b := b;
      this.c := c;
      this.d := d;
      this.e := e;
      this.f := f;
    }

    /** `translate(distance_x, distance_y = distance_x)` */
    method Translate(distanceX: real, distanceY: real := distanceX)
      modifies this
      ensures Value() == old(Value()).Translated(distanceX, distanceY)
    {
      e := e + (a * distanceX + c * distanceY);
      f := f + (b * distanceX + d * distanceY);
    }

    /** `translate_x(distance_x)` */
    method TranslateX(distanceX: real)
      modifies this
      ensures Value() == old(Value()).TranslatedX(distanceX)
    {
      e := e + a * distanceX;
      f := f + b * distanceX;
    }

    /** `translate_y(distance_y)` */
    method TranslateY(distanceY: real)
      modifies this
      ensures Value() == old(Value()).TranslatedY(distanceY)
    {
      e := e + c * distanceY;
      f := f + d * distanceY;
    }

    /**
     * `transform(a, b, c, d, e, f)`: the source assigns the fields one by one, each right-hand
     * side reading the fields already assigned; the locals here hold those updated values.
     */
    method Transform(a: real, b: real, c: real, d: real, e: real, f: real)
      modifies this
      ensures Value() == old(Value()).TransformedAsWritten(Affine(a, b, c, d, e, f))
    {
      var a1 := this.a * a + this.c * b;
      var b1 := this.b * a + this.d * b;
      var c1 := a1 * c + this.c * d;
      var d1 := b1 * c + this.d * d;
      var e1 := a1 * e + c1 * f + this.e;
      var f1 := b1 * e + d1 * f + this.f;
      TransformedAsWrittenSteps(Value(), Affine(a, b, c, d, e, f), Affine(a1, b1, c1, d1, e1, f1));
      this.a, this.b, this.c, this.d, this.e, this.f := a1, b1, c1, d1, e1, f1;
    }

    /**
     * `transform(a, b, c, d, e, f)` as evidently intended: every right-hand side reads the old
     * fields, so the matrix is multiplied on the right by the argument.
     */
    method TransformIntended(a: real, b: real, c: real, d: real, e: real, f: real)
      modifies this
      ensures Value() == Product(old(Value()), Affine(a, b, c, d, e, f))
    {
      var a1 := this.a * a + this.c * b;
      var b1 := this.b * a + this.d * b;
      var c1 := this.a * c + this.c * d;
      var d1 := this.b * c + this.d * d;
      var e1 := this.a * e + this.c * f + this.e;
      var f1 := this.b * e + this.d * f + this.f;
      ProductSteps(Value(), Affine(a, b, c, d, e, f), Affine(a1, b1, c1, d1, e1, f1));
      this.a, this.b, this.c, this.d, this.e, this.f := a1, b1, c1, d1, e1, f1;
    }

    /**
     * `apply_to_typed_array(points)`: a flat list of x, y pairs, each pair moved by
     * `apply_to_point` into a new array of the same length.
     */
    method ApplyToTypedArray(points: seq<real>) returns (transformed: array<real>)
      requires |points| % 2 == 0
      ensures transformed.Length == |points|
      ensures forall i :: 0 <= i < |points| / 2 ==>
                transformed[2 * i] == Value().ApplyToPoint(points[2 * i], points[2 * i + 1]).x &&
                transformed[2 * i + 1] == Value().ApplyToPoint(points[2 * i], points[2 * i + 1]).y
    {
      transformed := new real[|points|];
      var i, j := 0, 0;
      while i < |points|
        invariant 0 <= i <= |points| && i % 2 == 0 && j == i
        invariant forall k :: 0 <= k < i / 2 ==>
                    transformed[2 * k] == Value().ApplyToPoint(points[2 * k], points[2 * k + 1]).x &&
                    transformed[2 * k + 1] == Value().ApplyToPoint(points[2 * k], points[2 * k + 1]).y
      {
        var p := Value().ApplyToPoint(points[i], points[i + 1]);
        transformed[j] := p.x;
        j := j + 1;
        transformed[j] := p.y;
        j := j + 1;
        i := i + 2;
      }
    }

    /** `clone()`: a new, independent matrix with the same components. */
    method Clone() returns (m: TransformationMatrix2DH)
      ensures fresh(m) && m.Value() == Value()
    {
      m := new TransformationMatrix2DH(a, b, c, d, e, f);
    }
  }

  /**
   * Rotating, scaling and translating a matrix object in place and then applying it to a
   * point moves the point by the translation, then the scaling, then the rotation, then the
   * original transform.
   */
  method ComposeInPlace(m: TransformationMatrix2DH, cos: real, sin: real, scaler: real, distanceX: real, distanceY: real)
    modifies m
    ensures m.Value() == Product(Product(Product(old(m.Value()), Affine(cos, sin, -sin, cos, 0.0, 0.0)),
                                         Affine(scaler, 0.0, 0.0, scaler, 0.0, 0.0)),
                                 Affine(1.0, 0.0, 0.0, 1.0, distanceX, distanceY))
  {
    RotateIsProduct(m.Value(), cos, sin);
    m.Rotate(cos, sin);
    ScaleIsProduct(m.Value(), scaler, scaler);
    m.Scale(scaler);
    TranslateIsProduct(m.Value(), distanceX, distanceY);
    m.Translate(distanceX, distanceY);
  }
}
