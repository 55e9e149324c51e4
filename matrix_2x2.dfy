/**
 * `Matrix2x2` of ref/matrix_2x2.js: a linear map of the plane,
 *
 *     | a b |
 *     | c d |
 *
 * applied to a column vector. The value datatype `Mat2` carries the operations that build
 * new values (products with a vector, the determinant, `get_inverse`, the static
 * constructors); the class `Matrix2x2` holds the four fields and the two operations that
 * update them in place, `invert` and `add`. Angles reach the model as their cosine and sine.
 */
module Matrices {
  import opened Vectors

  datatype Mat2 = Mat2(a: real, b: real, c: real, d: real) {

    /** `multiply_by_vector2(v)` */
    function MultiplyByVector2(v: Vec2): Vec2 {
      Vec2(a * v.x + b * v.y, c * v.x + d * v.y)
    }

    /** `GET_DETERMINANT(m)`, also reached as `get_determinant()`. */
    function Determinant(): real {
      a * d - b * c
    }

    /** `get_inverse()`: a new matrix; the receiver is not changed. */
    function Inverse(): Mat2
      requires Determinant() != 0.0
    {
      var determinant := Determinant();
      Mat2(d / determinant, -b / determinant, -c / determinant, a / determinant)
    }

    /**
     * What `invert()` leaves in the receiver. It saves `d` (not `a`) before overwriting the
     * fields, so both diagonal entries end up as the old `d` over the determinant.
     */
    function InvertedInPlace(): Mat2
      requires Determinant() != 0.0
    {
      var determinant := Determinant();
      var saved := d;
      Mat2(d / determinant, -b / determinant, -c / determinant, saved / determinant)
    }

    /** `transform(v)` */
    function Transform(v: Vec2): Vec2 {
      Vec2(v.x * a + v.y * b, v.x * c + v.y * d)
    }

    /** `transform_transpose(v)`: the transform by the transpose. */
    function TransformTranspose(v: Vec2): Vec2 {
      Vec2(v.x * a + v.y * c, v.x * b + v.y * d)
    }

    /** The matrix with `b` and `c` exchanged. */
    function Transposed(): Mat2 {
      Mat2(a, c, b, d)
    }

    /** static `create_from_vectors(x_axis, y_axis)`: the matrix that sends the unit axes to the two vectors. */
    static function CreateFromVectors(baseVectorX: Vec2, baseVectorY: Vec2): (r: Mat2)
      ensures r.Transform(Vec2(1.0, 0.0)) == baseVectorX
      ensures r.Transform(Vec2(0.0, 1.0)) == baseVectorY
    {
      Mat2(baseVectorX.x, baseVectorY.x, baseVectorX.y, baseVectorY.y)
    }

    /** static `create_inertia_tensor(x, y, k)`: symmetric and always singular. */
    static function CreateInertiaTensor(x: real, y: real, inverseMomentOfInertia: real): (r: Mat2)
      ensures r.b == r.c
      ensures r.Determinant() == 0.0
    {
      var offDiagonal := inverseMomentOfInertia * x * y;
      var k := inverseMomentOfInertia;
      assert (k * y * y) * (k * x * x) == (k * x * y) * (k * x * y);
      Mat2(inverseMomentOfInertia * y * y, offDiagonal, offDiagonal, inverseMomentOfInertia * x * x)
    }

    /** static `create_rotation_matrix(angle)`, given the angle's cosine and sine. */
    static function CreateRotationMatrix(cos: real, sin: real): Mat2 {
      Mat2(cos, -sin, sin, cos)
    }
  }

  /** The determinant of `get_inverse()` is the reciprocal of the determinant. */
  lemma InverseDeterminant(m: Mat2)
    requires m.Determinant() != 0.0
    ensures m.Inverse().Determinant() * m.Determinant() == 1.0
  {
    var det := m.Determinant();
    var k := 1.0 / det;
    assert det * k == 1.0;
    var r := m.Inverse();
    assert r == Mat2(m.d * k, -m.b * k, -m.c * k, m.a * k);
    assert r.Determinant() == (m.a * m.d - m.b * m.c) * (k * k);
    assert r.Determinant() * det == (det * k) * (det * k);
  }

  /** A rotation matrix has determinant 1. */
  lemma RotationDeterminant(cos: real, sin: real)
    requires cos * cos + sin * sin == 1.0
    ensures Mat2.CreateRotationMatrix(cos, sin).Determinant() == 1.0
  {
  }

  /** `multiply_by_vector2` and `transform` compute the same vector. */
  lemma MultiplyAgreesWithTransform(m: Mat2, v: Vec2)
    ensures m.MultiplyByVector2(v) == m.Transform(v)
  {
  }

  /** `transform_transpose` is `transform` by the matrix with `b` and `c` exchanged. */
  lemma TransformTransposeIsTransposed(m: Mat2, v: Vec2)
    ensures m.TransformTranspose(v) == m.Transposed().Transform(v)
    ensures m.Transposed().Transposed() == m
  {
  }

  /** The matrix product `m * n`: transforming by it is transforming by `n`, then by `m`. */
  ghost function Product(m: Mat2, n: Mat2): Mat2 {
    Mat2(m.a * n.a + m.b * n.c, m.a * n.b + m.b * n.d,
         m.c * n.a + m.d * n.c, m.c * n.b + m.d * n.d)
  }

  /** `transform` by `n` and then by `m` is `transform` by their product. */
  lemma TransformComposes(m: Mat2, n: Mat2, v: Vec2)
    ensures m.Transform(n.Transform(v)) == Product(m, n).Transform(v)
  {
  }

  /**
   * Over plain reals: the entries `ia`..`id` of `get_inverse()`, for the determinant `t`,
   * cancel the entries `p`..`s` of the matrix in both orders.
   */
  lemma Cancels(p: real, q: real, r: real, s: real, t: real, ia: real, ib: real, ic: real, id: real)
    requires t == p * s - q * r && t != 0.0
    requires ia == s / t && ib == -q / t && ic == -r / t && id == p / t
    ensures p * ia + q * ic == 1.0 && p * ib + q * id == 0.0
    ensures r * ia + s * ic == 0.0 && r * ib + s * id == 1.0
    ensures ia * p + ib * r == 1.0 && ia * q + ib * s == 0.0
    ensures ic * p + id * r == 0.0 && ic * q + id * s == 1.0
  {
    var k := 1.0 / t;
    assert t * k == 1.0;
    assert ia == s * k && ib == -q * k && ic == -r * k && id == p * k;
    assert p * ia + q * ic == t * k;
    assert r * ib + s * id == t * k;
    assert ia * p + ib * r == t * k;
    assert ic * q + id * s == t * k;
  }

  /** The identity matrix. */
  const Identity := Mat2(1.0, 0.0, 0.0, 1.0)

  /** A matrix times its `get_inverse()` is the identity. */
  lemma ProductWithInverse(m: Mat2)
    requires m.Determinant() != 0.0
    ensures Product(m, m.Inverse()) == Identity
  {
    var inv := m.Inverse();
    Cancels(m.a, m.b, m.c, m.d, m.Determinant(), inv.a, inv.b, inv.c, inv.d);
  }

  /** `get_inverse()` times the matrix is the identity. */
  lemma InverseTimesMatrix(m: Mat2)
    requires m.Determinant() != 0.0
    ensures Product(m.Inverse(), m) == Identity
  {
    var inv := m.Inverse();
    Cancels(m.a, m.b, m.c, m.d, m.Determinant(), inv.a, inv.b, inv.c, inv.d);
  }

  /** With a non-zero determinant, `get_inverse` undoes `transform` on either side. */
  lemma InverseRoundTrip(m: Mat2, v: Vec2)
    requires m.Determinant() != 0.0
    ensures m.Inverse().Transform(m.Transform(v)) == v
    ensures m.Transform(m.Inverse().Transform(v)) == v
  {
    LeftInverse(m, v);
    RightInverse(m, v);
  }

  /** `get_inverse` undoes `transform` applied before it. */
  lemma LeftInverse(m: Mat2, v: Vec2)
    requires m.Determinant() != 0.0
    ensures m.Inverse().Transform(m.Transform(v)) == v
  {
    TransformComposes(m.Inverse(), m, v);
    InverseTimesMatrix(m);
  }

  /** `transform` undoes `get_inverse` applied before it. */
  lemma RightInverse(m: Mat2, v: Vec2)
    requires m.Determinant() != 0.0
    ensures m.Transform(m.Inverse().Transform(v)) == v
  {
    TransformComposes(m, m.Inverse(), v);
    ProductWithInverse(m);
  }

  /** `v` is a non-zero vector that `m` sends to zero. */
  predicate InKernel(m: Mat2, v: Vec2) {
    (v.x != 0.0 || v.y != 0.0) && m.Transform(v).x == 0.0 && m.Transform(v).y == 0.0
  }

  /**
   * A singular matrix sends some non-zero vector to zero, so it has no
   * inverse: together with `InverseRoundTrip`, a matrix is invertible exactly when its
   * determinant is not zero.
   */
  lemma SingularHasKernel(m: Mat2)
    requires m.Determinant() == 0.0
    ensures exists v: Vec2 :: InKernel(m, v)
  {
    if m.c != 0.0 || m.d != 0.0 {
      SecondRowKernel(m);
    } else if m.a != 0.0 || m.b != 0.0 {
      FirstRowKernel(m);
    } else {
      ZeroKernel(m);
    }
  }

  /** The zero matrix sends (1, 0) to zero. */
  lemma ZeroKernel(m: Mat2)
    requires m.a == 0.0 && m.b == 0.0 && m.c == 0.0 && m.d == 0.0
    ensures InKernel(m, Vec2(1.0, 0.0))
  {
  }

  /** When the second row is not zero, the second row turned a quarter is in the kernel. */
  lemma SecondRowKernel(m: Mat2)
    requires m.Determinant() == 0.0 && (m.c != 0.0 || m.d != 0.0)
    ensures InKernel(m, Vec2(m.d, -m.c))
  {
  }

  /** When the second row is zero and the first is not, the first row turned a quarter is in the kernel. */
  lemma FirstRowKernel(m: Mat2)
    requires m.c == 0.0 && m.d == 0.0 && (m.a != 0.0 || m.b != 0.0)
    ensures InKernel(m, Vec2(-m.b, m.a))
  {
  }






  /**
   * `invert()` agrees with `get_inverse()` exactly when the diagonal entries are equal:
   * it stores the old `d` over the determinant in both `a` and `d`.
   */
  lemma InvertAgreesWithInverseIff(m: Mat2)
    requires m.Determinant() != 0.0
    ensures m.InvertedInPlace() == m.Inverse() <==> m.a == m.d
  {
    var det := m.Determinant();
    if m.InvertedInPlace() == m.Inverse() {
      assert m.d / det == m.a / det;
      assert m.d == (m.d / det) * det;
      assert m.a == (m.a / det) * det;
    }
  }

  /**
   * A concrete case: for diag(2, 1), `invert()` leaves diag(1/2, 1/2) where the inverse is
   * diag(1/2, 1).
   */
  lemma InvertDoesNotUndo()
    ensures Mat2(2.0, 0.0, 0.0, 1.0).InvertedInPlace() == Mat2(0.5, 0.0, 0.0, 0.5)
    ensures Mat2(2.0, 0.0, 0.0, 1.0).Inverse() == Mat2(0.5, 0.0, 0.0, 1.0)
  {
    var m := Mat2(2.0, 0.0, 0.0, 1.0);
    assert m.Determinant() == 2.0;
  }

  /** Rotating `(x, y)` to `(wx, wy)` and turning back, over plain reals, when cos² + sin² = 1. */
  lemma TurnBack(cos: real, sin: real, x: real, y: real, wx: real, wy: real)
    requires cos * cos + sin * sin == 1.0
    requires wx == x * cos + y * -sin && wy == x * sin + y * cos
    ensures wx * cos + wy * sin == x && wx * -sin + wy * cos == y
  {
    assert wx * cos + wy * sin == x * (cos * cos + sin * sin);
    assert wx * -sin + wy * cos == y * (cos * cos + sin * sin);
  }

  /** Turning `(x, y)` back to `(ux, uy)` and rotating, over plain reals, when cos² + sin² = 1. */
  lemma TurnForth(cos: real, sin: real, x: real, y: real, ux: real, uy: real)
    requires cos * cos + sin * sin == 1.0
    requires ux == x * cos + y * sin && uy == x * -sin + y * cos
    ensures ux * cos + uy * -sin == x && ux * sin + uy * cos == y
  {
    assert ux * cos + uy * -sin == x * (cos * cos + sin * sin);
    assert ux * sin + uy * cos == y * (cos * cos + sin * sin);
  }

  /**
   * For cosine and sine of one angle, `transform_transpose` undoes the rotation, and the
   * inverse is the rotation by the opposite angle (same cosine, opposite sine).
   */
  lemma RotationInverse(cos: real, sin: real, v: Vec2)
    requires cos * cos + sin * sin == 1.0
    ensures var r := Mat2.CreateRotationMatrix(cos, sin);
            r.TransformTranspose(r.Transform(v)) == v &&
            r.Transform(r.TransformTranspose(v)) == v &&
            r.Inverse() == Mat2.CreateRotationMatrix(cos, -sin)
  {
    TransposeUndoesRotation(cos, sin, v);
    RotationUndoesTranspose(cos, sin, v);
    RotationInverseIsOpposite(cos, sin);
  }

  /** `transform_transpose` after `transform` by a rotation matrix gives the vector back. */
  lemma TransposeUndoesRotation(cos: real, sin: real, v: Vec2)
    requires cos * cos + sin * sin == 1.0
    ensures var r := Mat2.CreateRotationMatrix(cos, sin);
            r.TransformTranspose(r.Transform(v)) == v
  {
    var w := Mat2.CreateRotationMatrix(cos, sin).Transform(v);
    TurnBack(cos, sin, v.x, v.y, w.x, w.y);
  }

  /** `transform` after `transform_transpose` by a rotation matrix gives the vector back. */
  lemma RotationUndoesTranspose(cos: real, sin: real, v: Vec2)
    requires cos * cos + sin * sin == 1.0
    ensures var r := Mat2.CreateRotationMatrix(cos, sin);
            r.Transform(r.TransformTranspose(v)) == v
  {
    var u := Mat2.CreateRotationMatrix(cos, sin).TransformTranspose(v);
    TurnForth(cos, sin, v.x, v.y, u.x, u.y);
  }

  /** The inverse of a rotation matrix is the rotation by the opposite angle. */
  lemma RotationInverseIsOpposite(cos: real, sin: real)
    requires cos * cos + sin * sin == 1.0
    ensures Mat2.CreateRotationMatrix(cos, sin).Inverse() == Mat2.CreateRotationMatrix(cos, -sin)
  {
    var r := Mat2(cos, -sin, sin, cos);
    assert r.Determinant() == 1.0;
  }

  class Matrix2x2 {
    var a: real
    var b: real
    var c: real
    var d: real

    /** The current value of the matrix. */
    function Value(): Mat2
      reads this
    {
      Mat2(a, b, c, d)
    }

    /** `new Matrix2x2(a, b, c, d)` */
    constructor (a: real, b: real, c: real, d: real)
      ensures Value() == Mat2(a, b, c, d)
    {
      this.a, this.b := a, b;
      this.c, this.d := c, d;
    }

    /**
     * `invert()`: overwrites the fields in place. The local copy it takes is of `d`, so the
     * new `d` is computed from the old `d`, not the old `a`.
     */
    method Invert()
      requires Value().Determinant() != 0.0
      modifies this
      ensures Value() == old(Value()).InvertedInPlace()
    {
      var determinant := a * d - b * c;
      assert determinant == old(Value()).Determinant();
      var saved := d;
      a := d / determinant;
      b := -b / determinant;
      c := -c / determinant;
      d := saved / determinant;
    }

    /** `invert()` as evidently intended: the saved copy is of `a`, so the fields become `get_inverse()`. */
    method InvertIntended()
      requires Value().Determinant() != 0.0
      modifies this
      ensures Value() == old(Value()).Inverse()
    {
      var determinant := a * d - b * c;
      assert determinant == old(Value()).Determinant();
      var saved := a;
      a := d / determinant;
      b := -b / determinant;
      c := -c / determinant;
      d := saved / determinant;
    }

    /** `add(other)`: componentwise, in place; `other` may be this matrix itself. */
    method Add(other: Matrix2x2)
      modifies this
      ensures Value() == Mat2(old(a) + old(other.a), old(b) + old(other.b), old(c) + old(other.c), old(d) + old(other.d))
    {
      a := a + other.a;
      b := b + other.b;
      c := c + other.c;
      d := d + other.d;
    }
  }
}
