/**
 * `Transformer2D` of ref/transformer_2d.js: a position, an orientation and a draw order
 * (`z_index`), with the rotation matrix of the orientation kept beside it. Its `transform`
 * maps a point of the body's own frame to the world: rotate by the orientation, then move by
 * the position.
 *
 * The cosine and sine the source takes from `Math` are fields of the transformer here, so
 * every statement about angles is made for whatever functions are given, with the identity
 * it needs (cos² + sin² = 1, the angle-sum formulas) as a hypothesis.
 */
module Transformers {
  import opened Vectors
  import opened Matrices

  /** The two functions behave like cosine and sine at `angle`: the point they give is on the unit circle. */
  predicate OnUnitCircle(cos: real -> real, sin: real -> real, angle: real) {
    cos(angle) * cos(angle) + sin(angle) * sin(angle) == 1.0
  }

  /** The angle-sum formulas at `theta` and `alpha`. */
  predicate AngleSum(cos: real -> real, sin: real -> real, theta: real, alpha: real) {
    cos(theta + alpha) == cos(theta) * cos(alpha) - sin(theta) * sin(alpha) &&
    sin(theta + alpha) == sin(theta) * cos(alpha) + cos(theta) * sin(alpha)
  }

  /** The rotation matrix of an angle, as `create_rotation_matrix` builds it. */
  function RotationOf(cos: real -> real, sin: real -> real, angle: real): (r: Mat2)
    ensures OnUnitCircle(cos, sin, angle) ==> r.Determinant() == 1.0
  {
    Mat2.CreateRotationMatrix(cos(angle), sin(angle))
  }

  /** Wherever the angle-sum formulas hold, the product of two rotation matrices is the rotation by the sum. */
  lemma RotationProduct(cos: real -> real, sin: real -> real, theta: real, alpha: real)
    requires AngleSum(cos, sin, theta, alpha)
    ensures Product(RotationOf(cos, sin, alpha), RotationOf(cos, sin, theta)) == RotationOf(cos, sin, theta + alpha)
  {
    RotationMatricesMultiply(cos(theta), sin(theta), cos(alpha), sin(alpha));
  }

  /** Over plain cosines and sines: the product of two rotation matrices, written out. */
  lemma RotationMatricesMultiply(cosTheta: real, sinTheta: real, cosAlpha: real, sinAlpha: real)
    ensures Product(Mat2.CreateRotationMatrix(cosAlpha, sinAlpha), Mat2.CreateRotationMatrix(cosTheta, sinTheta))
         == Mat2.CreateRotationMatrix(cosTheta * cosAlpha - sinTheta * sinAlpha, sinTheta * cosAlpha + cosTheta * sinAlpha)
  {
  }

  /**
   * Rotating by `theta` and then by `alpha` is rotating by `theta + alpha`, wherever the
   * angle-sum formulas hold: `rotate(alpha)` turns the body by `alpha` from where it was.
   */
  lemma RotationComposes(cos: real -> real, sin: real -> real, theta: real, alpha: real, v: Vec2)
    requires AngleSum(cos, sin, theta, alpha)
    ensures RotationOf(cos, sin, theta + alpha).MultiplyByVector2(v)
         == RotationOf(cos, sin, alpha).MultiplyByVector2(RotationOf(cos, sin, theta).MultiplyByVector2(v))
  {
    var rt, ra := RotationOf(cos, sin, theta), RotationOf(cos, sin, alpha);
    MultiplyAgreesWithTransform(rt, v);
    MultiplyAgreesWithTransform(ra, rt.Transform(v));
    MultiplyAgreesWithTransform(RotationOf(cos, sin, theta + alpha), v);
    TransformComposes(ra, rt, v);
    RotationProduct(cos, sin, theta, alpha);
  }

  class Transformer2D {
    const cos: real -> real
    const sin: real -> real
    var zIndex: real
    var position: Vec2
    var orientation: real
    var rotationMatrix: Mat2

    /** The rotation matrix is the one of the current orientation. */
    predicate Valid()
      reads this
    {
      rotationMatrix == RotationOf(cos, sin, orientation)
    }

    /**
     * `new Transformer2D(position, orientation, z_index)`: keeps a copy of `position`; a
     * missing `z_index` (or any falsy one, which for a number is 0 or NaN) becomes 0.
     */
    constructor (cos: real -> real, sin: real -> real, position: Vec2, orientation: real, zIndex: real := 0.0)
      ensures Valid()
      ensures this.cos == cos && this.sin == sin
      ensures this.position == position && this.orientation == orientation && this.zIndex == zIndex
    {
      this.cos, this.sin := cos, sin;
      this.zIndex := zIndex;
      this.position := position;
      new;
      SetOrientation(orientation);
    }

    /** `set_orientation(orientation)`: replaces the orientation and its rotation matrix. */
    method SetOrientation(orientation: real)
      modifies this
      ensures Valid()
      ensures this.orientation == orientation
      ensures position == old(position) && zIndex == old(zIndex)
    {
      this.orientation := orientation;
      rotationMatrix := Mat2.CreateRotationMatrix(cos(orientation), sin(orientation));
    }

    /** `translate(distance)`: moves the position; the orientation is untouched. */
    method Translate(distance: Vec2)
      modifies this
      ensures position == Vec2.Add(old(position), distance)
      ensures orientation == old(orientation) && rotationMatrix == old(rotationMatrix) && zIndex == old(zIndex)
    {
      position := Vec2.Add(position, distance);
    }

    /** `rotate(angle)`: turns by `angle` and recomputes the rotation matrix. */
    method Rotate(angle: real)
      modifies this
      ensures Valid()
      ensures orientation == old(orientation) + angle
      ensures position == old(position) && zIndex == old(zIndex)
    {
      orientation := orientation + angle;
      rotationMatrix := Mat2.CreateRotationMatrix(cos(orientation), sin(orientation));
    }

    /**
     * `transform(v)`: rotates `v` by the orientation, then adds the position. The result
     * does not depend on which copy of the rotation matrix is stored, only on the orientation.
     */
    function Transform(v: Vec2): (r: Vec2)
      reads this
      ensures Valid() ==> r == Vec2(cos(orientation) * v.x - sin(orientation) * v.y + position.x,
                                    sin(orientation) * v.x + cos(orientation) * v.y + position.y)
    {
      Vec2.Add(rotationMatrix.MultiplyByVector2(v), position)
    }
  }

  /**
   * A transformer whose orientation is on the unit circle moves points rigidly: distances
   * between them are kept.
   */
  lemma TransformIsRigid(t: Transformer2D, p: Vec2, q: Vec2)
    requires t.Valid() && OnUnitCircle(t.cos, t.sin, t.orientation)
    ensures Vec2.DistanceSquared(t.Transform(p), t.Transform(q)) == Vec2.DistanceSquared(p, q)
  {
    var c, s := t.cos(t.orientation), t.sin(t.orientation);
    var dx, dy := p.x - q.x, p.y - q.y;
    var e := Vec2.Subtract(t.Transform(p), t.Transform(q));
    assert e == Vec2(c * dx - s * dy, s * dx + c * dy);
    calc {
      e.Dot(e);
      (c * dx - s * dy) * (c * dx - s * dy) + (s * dx + c * dy) * (s * dx + c * dy);
      (c * c + s * s) * (dx * dx) + (c * c + s * s) * (dy * dy);
      dx * dx + dy * dy;
    }
  }

  /**
   * Undoing `transform`: subtracting the position and applying `transform_transpose` of the
   * rotation matrix gives the body-frame point back.
   */
  lemma TransformInverse(t: Transformer2D, v: Vec2)
    requires t.Valid() && OnUnitCircle(t.cos, t.sin, t.orientation)
    ensures t.rotationMatrix.TransformTranspose(Vec2.Subtract(t.Transform(v), t.position)) == v
  {
    var c, s := t.cos(t.orientation), t.sin(t.orientation);
    MultiplyAgreesWithTransform(t.rotationMatrix, v);
    assert Vec2.Subtract(t.Transform(v), t.position) == t.rotationMatrix.Transform(v);
    RotationInverse(c, s, v);
  }

  /** Two rotations in a row leave the transformer at the sum of the angles, with a matching matrix. */
  method RotateTwice(t: Transformer2D, alpha: real, beta: real)
    requires t.Valid()
    modifies t
    ensures t.Valid() && t.orientation == old(t.orientation) + alpha + beta
    ensures t.position == old(t.position)
  {
    t.Rotate(alpha);
    t.Rotate(beta);
  }
}
