/**
 * `Vector2` of src/vector2.js.
 *
 * The value of a vector is the datatype `Vec2`; the non-mutating instance methods
 * (perp_cw, perp_ccw, dot, cross, to, equal_to) and the static functions are defined on it.
 * The class `Vector2` holds the two components as fields and models the instance methods
 * that update them in place (add, subtract, scale, divide, add_scaled_vector, lerp, negate,
 * set), together with clone, from_object and the static assign.
 */
module Vectors {
  import opened JsMath

  datatype Vec2 = Vec2(x: real, y: real) {

    /** `perp_cw`: the vector turned a quarter turn clockwise. */
    function PerpCw(): Vec2 {
      Vec2(y, -x)
    }

    /** `perp_ccw`: the vector turned a quarter turn counter-clockwise. */
    function PerpCcw(): Vec2 {
      Vec2(-y, x)
    }

    /** `dot(other)` */
    function Dot(other: Vec2): real {
      x * other.x + y * other.y
    }

    /** `cross(other)`: the z component of the 3D cross product. */
    function Cross(other: Vec2): real {
      x * other.y - y * other.x
    }

    /** `to(other)`: the displacement from this vector to `other`. */
    function To(other: Vec2): Vec2
    {
      Vec2(other.x - x, other.y - y)
    }

    /** `length_squared()`: the dot product of the vector with itself, never negative. */
    function LengthSquared(): (r: real)
      ensures r >= 0.0
      ensures r == 0.0 <== this == Vec2(0.0, 0.0)
    {
      SquareNonNegative(x);
      SquareNonNegative(y);
      Dot(this)
    }

    /** The components with their signs flipped (what `negate` produces). */
    function Negated(): (r: Vec2)
      ensures Add(this, r) == Vec2(0.0, 0.0)
    {
      Vec2(-x, -y)
    }

    /** `equal_to(other)`: exact componentwise comparison. */
    function EqualTo(other: Vec2): (r: bool)
      ensures r <==> this == other
    {
      x == other.x && y == other.y
    }

    /** static `add(left, right)` */
    static function Add(left: Vec2, right: Vec2): Vec2 {
      Vec2(left.x + right.x, left.y + right.y)
    }

    /** static `add_value(left, value)`: adds the same number to both components. */
    static function AddValue(left: Vec2, value: real): (r: Vec2)
      ensures r == Add(left, Vec2(value, value))
    {
      Vec2(left.x + value, left.y + value)
    }

    /** static `subtract(left, right)` */
    static function Subtract(left: Vec2, right: Vec2): (r: Vec2)
      ensures Add(r, right) == left
    {
      Vec2(left.x - right.x, left.y - right.y)
    }

    /** static `scale(vector, scaler_x, scaler_y = scaler_x)` */
    static function Scale(vector: Vec2, scalerX: real, scalerY: real := scalerX): Vec2 {
      Vec2(vector.x * scalerX, vector.y * scalerY)
    }

    /** static `divide(vector, divider)`: undoes `Scale` by the same factor. */
    static function Divide(vector: Vec2, divider: real): (r: Vec2)
      requires divider != 0.0
      ensures Scale(r, divider) == vector
    {
      Vec2(vector.x / divider, vector.y / divider)
    }

    /** static `cross(vector, scalar)`: `(v.y * s, -v.x * s)`, the clockwise perpendicular scaled by `s`. */
    static function CrossVectorScalar(v: Vec2, s: real): (r: Vec2)
      ensures r == Scale(v.PerpCw(), s)
    {
      Vec2(v.y * s, -v.x * s)
    }

    /** static `cross(scalar, vector)`: `(-v.y * s, v.x * s)`, the counter-clockwise perpendicular scaled by `s`. */
    static function CrossScalarVector(s: real, v: Vec2): (r: Vec2)
      ensures r == Scale(v.PerpCcw(), s)
    {
      Vec2(-v.y * s, v.x * s)
    }

    /**
     * static `min(...vectors)`: the componentwise minimum of a non-empty list.
     * Each component is a lower bound of that component of every input and is attained by one of them.
     */
    static function Min(vectors: seq<Vec2>): (r: Vec2)
      requires |vectors| > 0
      ensures forall i :: 0 <= i < |vectors| ==> r.x <= vectors[i].x && r.y <= vectors[i].y
      ensures exists i :: 0 <= i < |vectors| && r.x == vectors[i].x
      ensures exists j :: 0 <= j < |vectors| && r.y == vectors[j].y
    {
      var xs := Xs(vectors);
      var ys := Ys(vectors);
      Vec2(MinOf(xs), MinOf(ys))
    }

    /**
     * static `max(...vectors)`: the componentwise maximum of a non-empty list.
     * Each component is an upper bound of that component of every input and is attained by one of them.
     */
    static function Max(vectors: seq<Vec2>): (r: Vec2)
      requires |vectors| > 0
      ensures forall i :: 0 <= i < |vectors| ==> vectors[i].x <= r.x && vectors[i].y <= r.y
      ensures exists i :: 0 <= i < |vectors| && r.x == vectors[i].x
      ensures exists j :: 0 <= j < |vectors| && r.y == vectors[j].y
    {
      var xs := Xs(vectors);
      var ys := Ys(vectors);
      Vec2(MaxOf(xs), MaxOf(ys))
    }

    /** static `distance_squared(a, b)`: the dot product of the difference with itself. */
    static function DistanceSquared(a: Vec2, b: Vec2): real {
      var c := Subtract(a, b);
      c.Dot(c)
    }

    /**
     * static `lerp(source, destination, alpha)`: scales a copy of `source` by `1 - alpha`, then
     * adds `destination` scaled by `alpha`. The source is not changed, so the result is
     * `source` at 0, `destination` at 1, and `source` throughout when both are the same point.
     */
    static function Lerp(source: Vec2, destination: Vec2, alpha: real): (r: Vec2)
      ensures alpha == 0.0 ==> r == source
      ensures alpha == 1.0 ==> r == destination
      ensures source == destination ==> r == source
    {
      var scaled := Scale(source, 1.0 - alpha);
      Vec2(scaled.x + destination.x * alpha, scaled.y + destination.y * alpha)
    }
  }

  /** `vectors.map(v => v.x)` */
  function Xs(vectors: seq<Vec2>): (xs: seq<real>)
    ensures |xs| == |vectors|
    ensures forall i :: 0 <= i < |vectors| ==> xs[i] == vectors[i].x
  {
    seq(|vectors|, i requires 0 <= i < |vectors| => vectors[i].x)
  }

  /** `vectors.map(v => v.y)` */
  function Ys(vectors: seq<Vec2>): (ys: seq<real>)
    ensures |ys| == |vectors|
    ensures forall i :: 0 <= i < |vectors| ==> ys[i] == vectors[i].y
  {
    seq(|vectors|, i requires 0 <= i < |vectors| => vectors[i].y)
  }

  lemma SquareNonNegative(u: real)
    ensures u * u >= 0.0
  {
    if u < 0.0 {
      var w := -u;
      assert u * u == w * w;
    }
  }

  /** `distance_squared` is symmetric, never negative, and zero from a point to itself. */
  lemma DistanceSquaredProperties(a: Vec2, b: Vec2)
    ensures Vec2.DistanceSquared(a, b) == Vec2.DistanceSquared(b, a)
    ensures Vec2.DistanceSquared(a, b) >= 0.0
    ensures Vec2.DistanceSquared(a, a) == 0.0
  {
    var c := Vec2.Subtract(a, b);
    SquareNonNegative(c.x);
    SquareNonNegative(c.y);
  }

  /** Both perpendiculars are orthogonal to the vector, and each undoes the other. */
  lemma PerpendicularsAreInverse(v: Vec2)
    ensures v.PerpCw().Dot(v) == 0.0 && v.PerpCcw().Dot(v) == 0.0
    ensures v.PerpCw().PerpCcw() == v && v.PerpCcw().PerpCw() == v
  {
  }

  /** `dot` is symmetric; `cross` is antisymmetric, so a vector crossed with itself is zero. */
  lemma DotSymmetricCrossAntisymmetric(u: Vec2, v: Vec2)
    ensures u.Dot(v) == v.Dot(u)
    ensures u.Cross(v) == -v.Cross(u)
    ensures u.Cross(u) == 0.0
  {
  }

  /** `to` undoes `add`: adding the displacement from `a` to `b` onto `a` gives `b`. */
  lemma ToUndoesAdd(a: Vec2, b: Vec2)
    ensures Vec2.Add(a, a.To(b)) == b
    ensures a.To(Vec2.Add(a, b)) == b
  {
  }

  /** Negating twice gives the vector back. */
  lemma NegatedInvolution(v: Vec2)
    ensures v.Negated().Negated() == v
  {
  }

  /** The static `lerp` is the sum of the two vectors scaled by `1 - alpha` and `alpha`. */
  lemma LerpIsScaledSum(source: Vec2, destination: Vec2, alpha: real)
    ensures Vec2.Lerp(source, destination, alpha) == Vec2.Add(Vec2.Scale(source, 1.0 - alpha), Vec2.Scale(destination, alpha))
  {
  }

  /** One coordinate of `lerp` with itself: scaled by `1 - alpha`, then that added times `alpha`. */
  lemma SelfLerpCoordinate(u: real, alpha: real)
    ensures u * (1.0 - alpha) + u * (1.0 - alpha) * alpha == u * ((1.0 - alpha) * (1.0 + alpha))
  {
  }

  /** Scaling by `1 - alpha` and adding the scaled vector times `alpha` scales by `(1 - alpha)(1 + alpha)`. */
  lemma SelfLerpScales(v: Vec2, alpha: real)
    ensures Vec2.Add(Vec2.Scale(v, 1.0 - alpha), Vec2.Scale(Vec2.Scale(v, 1.0 - alpha), alpha))
         == Vec2.Scale(v, (1.0 - alpha) * (1.0 + alpha))
  {
    SelfLerpCoordinate(v.x, alpha);
    SelfLerpCoordinate(v.y, alpha);
  }

  class Vector2 {
    var x: real
    var y: real

    /** The current value of the vector. */
    function Value(): Vec2
      reads this
    {
      Vec2(x, y)
    }

    /** `new Vector2(x = 0, y = x)`: no argument gives (0, 0), one argument gives (x, x). */
    constructor (x: real := 0.0, y: real := x)
      ensures Value() == Vec2(x, y)
    {
      this.x := x;
      this.y := y;
    }

    /** `add(other)`: in place; `other` may be this vector itself. */
    method Add(other: Vector2)
      modifies this
      ensures Value() == Vec2.Add(old(Value()), old(other.Value()))
    {
      x := x + other.x;
      y := y + other.y;
    }

    /** `subtract(other)`: in place; `other` may be this vector itself. */
    method Subtract(other: Vector2)
      modifies this
      ensures Value() == Vec2.Subtract(old(Value()), old(other.Value()))
    {
      x := x - other.x;
      y := y - other.y;
    }

    /** `scale(scaler)`: in place. */
    method Scale(scaler: real)
      modifies this
      ensures Value() == Vec2.Scale(old(Value()), scaler)
    {
      x := x * scaler;
      y := y * scaler;
    }

    /** `divide(divider)`: in place. */
    method Divide(divider: real)
      requires divider != 0.0
      modifies this
      ensures Value() == Vec2.Divide(old(Value()), divider)
    {
      x := x / divider;
      y := y / divider;
    }

    /** `add_scaled_vector(vector, scaler)`: in place; `vector` may be this vector itself. */
    method AddScaledVector(vector: Vector2, scaler: real)
      modifies this
      ensures Value() == Vec2.Add(old(Value()), Vec2.Scale(old(vector.Value()), scaler))
    {
      x := x + vector.x * scaler;
      y := y + vector.y * scaler;
    }

    /**
     * `lerp(other, alpha)`: `this.scale(1 - alpha).add_scaled_vector(other, alpha)`, in place.
     * For another vector this is the static `lerp`. When `other` is this vector itself, the
     * second step reads the already scaled components, so the result is the old value scaled
     * by `(1 - alpha) * (1 + alpha)` rather than the old value.
     */
    method Lerp(other: Vector2, alpha: real)
      modifies this
      ensures other != this ==> Value() == Vec2.Lerp(old(Value()), old(other.Value()), alpha)
      ensures other == this ==> Value() == Vec2.Scale(old(Value()), (1.0 - alpha) * (1.0 + alpha))
    {
      ghost var v, w := Value(), other.Value();
      Scale(1.0 - alpha);
      AddScaledVector(other, alpha);
      if other == this {
        SelfLerpScales(v, alpha);
      } else {
        LerpIsScaledSum(v, w, alpha);
      }
    }

    /**
     * `lerp(other, alpha)` as evidently intended: `other` is read before this vector changes,
     * so the result is the static `lerp` also when `other` is this vector itself.
     */
    method LerpIntended(other: Vector2, alpha: real)
      modifies this
      ensures Value() == Vec2.Lerp(old(Value()), old(other.Value()), alpha)
    {
      var ox, oy := other.x, other.y;
      x := x * (1.0 - alpha) + ox * alpha;
      y := y * (1.0 - alpha) + oy * alpha;
    }

    /** `negate()`: in place. */
    method Negate()
      modifies this
      ensures Value() == old(Value()).Negated()
    {
      x := x * -1.0;
      y := y * -1.0;
    }

    /** `set(x, y = x)` */
    method Set(x: real, y: real := x)
      modifies this
      ensures Value() == Vec2(x, y)
    {
      this.x := x;
      this.y := y;
    }

    /** `clone()`: a new, independent vector with the same value. */
    method Clone() returns (v: Vector2)
      ensures fresh(v) && v.Value() == Value()
    {
      v := new Vector2(x, y);
    }

    /** static `from_object(object)`: a new vector from any value with `x` and `y`. */
    static method FromObject(o: Vec2) returns (v: Vector2)
      ensures fresh(v) && v.Value() == o
    {
      v := new Vector2(o.x, o.y);
    }

    /** static `assign(left, right)`: copies both components of `right` into `left`. */
    static method Assign(left: Vector2, right: Vector2)
      modifies left
      ensures left.Value() == old(right.Value())
    {
      left.x := right.x;
      left.y := right.y;
    }
  }

  /** `v.add(w).subtract(w)` leaves `v` as it was, provided `w` is another vector. */
  method AddThenSubtractRestores(v: Vector2, w: Vector2)
    requires v != w
    modifies v
    ensures v.Value() == old(v.Value())
  {
    v.Add(w);
    v.Subtract(w);
  }

  /** `v.add(v).subtract(v)` leaves zero: the second call reads the doubled vector. */
  method AddThenSubtractSelf(v: Vector2)
    modifies v
    ensures v.Value() == Vec2(0.0, 0.0)
  {
    v.Add(v);
    v.Subtract(v);
  }

  /**
   * `v.lerp(v, 0.5)` on (2, 2) leaves (1.5, 1.5), where the static `lerp` of (2, 2) with
   * itself is (2, 2) and `LerpIntended` leaves (2, 2).
   */
  method SelfLerpExample() returns (asWritten: Vec2, intended: Vec2)
    ensures asWritten.x == 1.5 && asWritten.y == 1.5
    ensures intended.x == 2.0 && intended.y == 2.0
  {
    var v := new Vector2(2.0, 2.0);
    v.Lerp(v, 0.5);
    asWritten := v.Value();
    var w := new Vector2(2.0, 2.0);
    w.LerpIntended(w, 0.5);
    intended := w.Value();
  }

  /** Negating in place twice leaves the vector as it was. */
  method NegateTwiceRestores(v: Vector2)
    modifies v
    ensures v.Value() == old(v.Value())
  {
    v.Negate();
    v.Negate();
    NegatedInvolution(old(v.Value()));
  }
}
