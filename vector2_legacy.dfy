/**
 * The older `Vector2` of vector2.js, a constructor function with a prototype.
 *
 * It differs from src/vector2.js in three ways that the model keeps apart: the constructor
 * switches on the number of arguments, `negate` and `lerp` return a new vector instead of
 * updating the receiver, and the static `min`/`max` take exactly two vectors. Its static
 * add, add_value, subtract, divide, cross and distance_squared compute the same values as the
 * newer file's and are the functions of `Vectors.Vec2`; its static `scale` has one factor,
 * `Vec2.Scale(v, s)`.
 */
module LegacyVectors {
  import opened JsMath
  import V = Vectors

  type Vec2 = V.Vec2

  /**
   * static `lerp(source, destination, alpha)`: `scale(source, 1 - alpha).add(scale(destination, alpha))`.
   * It is the same point as the newer file's static `lerp`.
   */
  function StaticLerp(source: Vec2, destination: Vec2, alpha: real): (r: Vec2)
    ensures r == V.Vec2.Lerp(source, destination, alpha)
    ensures alpha == 0.0 ==> r == source
    ensures alpha == 1.0 ==> r == destination
  {
    V.Vec2.Add(V.Vec2.Scale(source, 1.0 - alpha), V.Vec2.Scale(destination, alpha))
  }

  /** static `min(a, b)`: componentwise, and the same as the newer file's `min` of the two. */
  function Min(a: Vec2, b: Vec2): (r: Vec2)
    ensures r.x <= a.x && r.x <= b.x && r.y <= a.y && r.y <= b.y
    ensures (r.x == a.x || r.x == b.x) && (r.y == a.y || r.y == b.y)
    ensures r == V.Vec2.Min([a, b])
  {
    V.Vec2(JsMath.Min(a.x, b.x), JsMath.Min(a.y, b.y))
  }

  /** static `max(a, b)`: componentwise, and the same as the newer file's `max` of the two. */
  function Max(a: Vec2, b: Vec2): (r: Vec2)
    ensures a.x <= r.x && b.x <= r.x && a.y <= r.y && b.y <= r.y
    ensures (r.x == a.x || r.x == b.x) && (r.y == a.y || r.y == b.y)
    ensures r == V.Vec2.Max([a, b])
  {
    V.Vec2(JsMath.Max(a.x, b.x), JsMath.Max(a.y, b.y))
  }

  class Vector2 {
    var x: real
    var y: real

    /** The current value of the vector (an instance without own components reads the prototype's 0, 0). */
    function Value(): Vec2
      reads this
    {
      V.Vec2(x, y)
    }

    /**
     * `new Vector2(...args)`: two arguments set x and y, one argument sets both; with none (or
     * more than two) nothing is assigned and the prototype's defaults 0, 0 show through.
     */
    constructor (args: seq<real>)
      ensures |args| == 2 ==> Value() == V.Vec2(args[0], args[1])
      ensures |args| == 1 ==> Value() == V.Vec2(args[0], args[0])
      ensures |args| != 1 && |args| != 2 ==> Value() == V.Vec2(0.0, 0.0)
    {
      if |args| == 2 {
        x, y := args[0], args[1];
      } else if |args| == 1 {
        x, y := args[0], args[0];
      } else {
        x, y := 0.0, 0.0;
      }
    }

    /** `set(x, y)`: an omitted `y` takes the value of `x`. */
    method Set(x: real, y: real := x)
      modifies this
      ensures Value() == V.Vec2(x, y)
    {
      this.x := x;
      this.y := y;
    }

    /** `clone()`: a new, independent vector with the same value. */
    method Clone() returns (v: Vector2)
      ensures fresh(v) && v.Value() == Value()
    {
      v := new Vector2([x, y]);
    }

    /** `add(other)`: in place. */
    method Add(other: Vector2)
      modifies this
      ensures Value() == V.Vec2.Add(old(Value()), old(other.Value()))
    {
      x := x + other.x;
      y := y + other.y;
    }

    /** `subtract(other)`: in place. */
    method Subtract(other: Vector2)
      modifies this
      ensures Value() == V.Vec2.Subtract(old(Value()), old(other.Value()))
    {
      x := x - other.x;
      y := y - other.y;
    }

    /** `scale(scaler)`: in place. */
    method Scale(scaler: real)
      modifies this
      ensures Value() == V.Vec2.Scale(old(Value()), scaler)
    {
      x := x * scaler;
      y := y * scaler;
    }

    /** `divide(divider)`: in place. */
    method Divide(divider: real)
      requires divider != 0.0
      modifies this
      ensures Value() == V.Vec2.Divide(old(Value()), divider)
    {
      x := x / divider;
      y := y / divider;
    }

    /** `add_scaled_vector(vector, scaler)`: in place. */
    method AddScaledVector(vector: Vector2, scaler: real)
      modifies this
      ensures Value() == V.Vec2.Add(old(Value()), V.Vec2.Scale(old(vector.Value()), scaler))
    {
      x := x + vector.x * scaler;
      y := y + vector.y * scaler;
    }

    /** `negate()`: a new vector; the receiver only is read. */
    function Negate(): (r: Vec2)
      reads this
      ensures V.Vec2.Add(Value(), r) == V.Vec2(0.0, 0.0)
    {
      V.Vec2(-x, -y)
    }

    /**
     * `lerp(other, alpha)`: `scale(this, 1 - alpha).add(scale(other, alpha))`, a new vector;
     * neither vector is changed, so lerping a vector with itself gives it back.
     */
    function Lerp(other: Vector2, alpha: real): (r: Vec2)
      reads this, other
      ensures r == V.Vec2.Lerp(Value(), other.Value(), alpha)
      ensures other == this ==> r == Value()
    {
      StaticLerp(Value(), other.Value(), alpha)
    }

    /** static `assign(left, right)`: copies both components of `right` into `left`. */
    static method Assign(left: Vector2, right: Vector2)
      modifies left
      ensures left.Value() == old(right.Value())
    {
      left.x := right.x;
      left.y := right.y;
    }
  }

  /** Negating twice gives the vector back, and the receiver of `negate` is left unchanged. */
  lemma NegateTwiceRestores(v: Vector2)
    ensures v.Negate().Negated() == v.Value()
  {
  }
}
