# jeefo_math geometry core in Dafny

This project models the core of jeefo_math, a small 2D geometry kit, over exact real numbers:

- the canvas-style affine transform `TransformationMatrix2DH` (src/transformation_matrix_2dh.js).
  It uses the six-field `a c e / b d f / 0 0 1` layout that the 2D canvas context uses, as
  described in the WHATWG HTML Living Standard, section 4.12.5.1 (Transformations);
- the line and segment intersection functions `between_ray` and `between_line_segments`
  (src/intersections/line_segment.js);
- the 2x2 matrix `Matrix2x2` (ref/matrix_2x2.js);
- the two versions of `Vector2`: the class in src/vector2.js and the older prototype-based
  vector2.js;
- the rigid-body frame `Transformer2D` (ref/transformer_2d.js);
- `clamp` (src/clamp.js).

Each number is a Dafny `real`. Values that the source builds afresh are datatypes: `Vec2`,
`Mat2`, `Affine` and `Line`. Objects whose fields the source updates in place are classes whose
methods assign those fields. Each such method states its new state as a function of the old
one (`Value() == old(Value()).Rotated(cos, sin)`), and lemmas prove what those functions mean:
matrix products, inverses, round trips and invariants. Where the source calls `Math.cos` and
`Math.sin`, the model takes the cosine and sine as parameters. Statements that need them carry
the identity cos² + sin² = 1 (or the angle-sum formulas) as a hypothesis. `null` results are
`Option.None`.

Modules, one per source file: `TransformationMatrix` (transformation_matrix_2dh.dfy),
`LineIntersections` (line_segment.dfy), `Matrices` (matrix_2x2.dfy), `Vectors` (vector2.dfy),
`LegacyVectors` (vector2_legacy.dfy), `Transformers` (transformer_2d.dfy) and `Clamping`
(clamp.dfy). Two more modules support them: `JsMath` holds `Math.min`/`Math.max` and their
spread forms, and `Wrappers` holds `Option`.

Both functions in line_segment.js compute the same coefficients, `A = q.y - p.y`,
`B = p.x - q.x` and `C = A p.x + B p.y`, and apply the same Cramer formulas. They differ only in
the order of the factors in each product. The model shares `LineThrough` and `Crossing` between
them.

## Model

| member | source | states |
|---|---|---|
| Clamping.Clamp | src/clamp.js:31-33 | The result is never above `max_value`, and is at least `min_value` when the range is not empty. A value inside the range is returned unchanged. Below the range the result is `min_value`, above it `max_value`. With `min_value > max_value` the result is `max_value`. |
| Clamping.ClampIdempotent | src/clamp.js:31-33 | Clamping a clamped value changes nothing. |
| Clamping.ClampMonotone | src/clamp.js:31-33 | Clamping keeps the order of two inputs. |
| JsMath.Min | src/clamp.js:32 | `Math.min` of two numbers is a lower bound of both and equal to one of them. |
| JsMath.Max | src/clamp.js:32 | `Math.max` of two numbers is an upper bound of both and equal to one of them. |
| JsMath.MinOf | src/vector2.js:189 | `min.apply` over a non-empty list is a lower bound of every element and is one of them. |
| JsMath.MaxOf | src/vector2.js:195 | `max.apply` over a non-empty list is an upper bound of every element and is one of them. |
| Vectors.Vec2.Negated | src/vector2.js:124-128 | The negated vector added to the vector gives (0, 0). |
| Vectors.Vec2.EqualTo | src/vector2.js:129 | `equal_to` holds exactly when both components are equal. |
| Vectors.Vec2.PerpCw | src/vector2.js:58 | `perp_cw` gives (y, -x). Its meaning is in PerpendicularsAreInverse: it is orthogonal to the vector and `perp_ccw` undoes it. |
| Vectors.Vec2.PerpCcw | src/vector2.js:59 | `perp_ccw` gives (-y, x). Its meaning is in PerpendicularsAreInverse. |
| Vectors.Vec2.Dot | src/vector2.js:71 | `dot`. Its laws are in DotSymmetricCrossAntisymmetric and PerpendicularsAreInverse; LengthSquared and DistanceSquaredProperties build on it. |
| Vectors.Vec2.Cross | src/vector2.js:72 | `cross` of two vectors. Its laws are in DotSymmetricCrossAntisymmetric; LineIntersections.DenominatorIsCross and ParallelIffDeterminant use it as the parallel test. |
| Vectors.Vec2.To | src/vector2.js:119-123 | `to(other)` is the displacement from this to other. Its meaning is the round trip in ToUndoesAdd. |
| Vectors.Vec2.Add | src/vector2.js:141-145 | The static `add`. Its inverses are Subtract (whose ensures adds back), Negated and ToUndoesAdd. |
| Vectors.Vec2.Scale | src/vector2.js:156-160 | The static `scale`, with scaler_y defaulting to scaler_x. Its inverse is Divide, whose ensures scales back. |
| Vectors.Vec2.DistanceSquared | src/vector2.js:199-202 | `distance_squared` is the dot of the difference with itself. Its meaning is in DistanceSquaredProperties and Transformers.TransformIsRigid. |
| Vectors.Vec2.LengthSquared | src/vector2.js:82 | `length_squared` is never negative, and is 0 for the zero vector. |
| Vectors.Vec2.AddValue | src/vector2.js:146-150 | `add_value` adds the vector (value, value). |
| Vectors.Vec2.Subtract | src/vector2.js:151-155 | Adding `right` back to the difference gives `left`. |
| Vectors.Vec2.Divide | src/vector2.js:161-165 | Scaling the quotient by the divider gives the vector back. |
| Vectors.Vec2.CrossVectorScalar | src/vector2.js:181-184 | `cross(v, s)` is `perp_cw` of v scaled by s. |
| Vectors.Vec2.CrossScalarVector | src/vector2.js:185 | `cross(s, v)` is `perp_ccw` of v scaled by s. |
| Vectors.Vec2.Min | src/vector2.js:187-192 | Each component is at most that component of every input, and equals the component of some input. |
| Vectors.Vec2.Max | src/vector2.js:193-198 | Each component is at least that component of every input, and equals the component of some input. |
| Vectors.Vec2.Lerp | src/vector2.js:203-206 | The static `lerp` gives `source` at 0, `destination` at 1, and `source` when both are the same point. |
| Vectors.DistanceSquaredProperties | src/vector2.js:199-202 | `distance_squared` is symmetric and never negative, and is 0 from a point to itself. |
| Vectors.PerpendicularsAreInverse | src/vector2.js:58-59 | `perp_cw` and `perp_ccw` are orthogonal to the vector, and each undoes the other. |
| Vectors.DotSymmetricCrossAntisymmetric | src/vector2.js:71-72 | `dot` is symmetric, `cross` is antisymmetric, and `v.cross(v)` is 0. |
| Vectors.ToUndoesAdd | src/vector2.js:119-123 | `a` plus `a.to(b)` is `b`, and `a.to(a + b)` is `b`. |
| Vectors.NegatedInvolution | src/vector2.js:124-128 | Negating twice gives the vector back. |
| Vectors.LerpIsScaledSum | src/vector2.js:203-206 | The static `lerp` is (1 - alpha) source + alpha destination. |
| Vectors.SelfLerpScales | src/vector2.js:53-55 | Scaling by 1 - alpha and then adding the scaled vector times alpha scales by (1 - alpha)(1 + alpha). |
| Vectors.Vector2.constructor | src/vector2.js:20-23 | No argument gives (0, 0); one argument x gives (x, x). |
| Vectors.Vector2.Add | src/vector2.js:26-30 | In place, the receiver becomes the sum. |
| Vectors.Vector2.Subtract | src/vector2.js:31-35 | In place, the receiver becomes the difference. |
| Vectors.Vector2.Scale | src/vector2.js:36-40 | In place, the receiver is scaled. |
| Vectors.Vector2.Divide | src/vector2.js:41-45 | In place, the receiver becomes the static `divide`. |
| Vectors.Vector2.AddScaledVector | src/vector2.js:46-50 | In place, the receiver gains `vector` times `scaler`, read before the update. |
| Vectors.Vector2.Lerp | src/vector2.js:53-55 | With another vector, the receiver becomes the static `lerp`. With itself, it becomes the old value scaled by (1 - alpha)(1 + alpha). |
| Vectors.Vector2.LerpIntended | src/vector2.js:53-55 | The corrected `lerp` always leaves the static `lerp` of the old values. |
| Vectors.Vector2.Negate | src/vector2.js:124-128 | In place, the receiver becomes its negation. |
| Vectors.Vector2.Set | src/vector2.js:132-136 | The receiver becomes (x, y), with y defaulting to x. |
| Vectors.Vector2.Clone | src/vector2.js:130 | A fresh vector with the same value. |
| Vectors.Vector2.FromObject | src/vector2.js:211-213 | A fresh vector with the object's x and y. |
| Vectors.Vector2.Assign | src/vector2.js:207-210 | `left` takes the value of `right`. |
| Vectors.AddThenSubtractRestores | src/vector2.js:26-35 | `add(w)` then `subtract(w)` restores the receiver when `w` is another vector. |
| Vectors.AddThenSubtractSelf | src/vector2.js:26-35 | `v.add(v).subtract(v)` leaves (0, 0). |
| Vectors.NegateTwiceRestores | src/vector2.js:124-128 | Negating in place twice restores the vector. |
| Vectors.SelfLerpExample | src/vector2.js:53-55 | `v.lerp(v, 0.5)` on (2, 2) leaves (1.5, 1.5). The corrected `lerp` leaves (2, 2). |
| LegacyVectors.StaticLerp | vector2.js:250-252 | The older static `lerp` is the newer one: `source` at 0, `destination` at 1. |
| LegacyVectors.Min | vector2.js:236-240 | Componentwise lower bound of both that takes each component from one of them. It equals the newer `min` of the two. |
| LegacyVectors.Max | vector2.js:241-245 | Componentwise upper bound of both that takes each component from one of them. It equals the newer `max` of the two. |
| LegacyVectors.Vector2.constructor | vector2.js:24-34 | Two arguments set (x, y) and one sets (x, x). Otherwise the prototype's (0, 0) shows through. |
| LegacyVectors.Vector2.Set | vector2.js:46-50 | The receiver becomes (x, y), with an omitted y taking x. |
| LegacyVectors.Vector2.Clone | vector2.js:51-53 | A fresh vector with the same value. |
| LegacyVectors.Vector2.Add | vector2.js:60-64 | In place, the receiver becomes the sum. |
| LegacyVectors.Vector2.Subtract | vector2.js:65-69 | In place, the receiver becomes the difference. |
| LegacyVectors.Vector2.Scale | vector2.js:70-74 | In place, the receiver is scaled. |
| LegacyVectors.Vector2.Divide | vector2.js:75-79 | In place, the receiver is divided. |
| LegacyVectors.Vector2.AddScaledVector | vector2.js:80-84 | In place, the receiver gains `vector` times `scaler`. |
| LegacyVectors.Vector2.Negate | vector2.js:92-94 | A new vector that adds to the receiver to give (0, 0). The receiver is only read. |
| LegacyVectors.Vector2.Lerp | vector2.js:97-99 | A new vector equal to the static `lerp`. Lerping a vector with itself gives it back. |
| LegacyVectors.Vector2.Assign | vector2.js:253-256 | `left` takes the value of `right`. |
| LegacyVectors.NegateTwiceRestores | vector2.js:92-94 | Negating the result of `negate` gives the receiver's value. |
| Matrices.Mat2.CreateFromVectors | ref/matrix_2x2.js:124-129 | The matrix sends (1, 0) to the x base vector and (0, 1) to the y base vector. |
| Matrices.Mat2.CreateInertiaTensor | ref/matrix_2x2.js:131-138 | The tensor is symmetric (b = c), and its determinant is 0. |
| Matrices.Mat2.MultiplyByVector2 | ref/matrix_2x2.js:43-48 | `multiply_by_vector2`. MultiplyAgreesWithTransform proves it equal to `transform`. |
| Matrices.Mat2.Determinant | ref/matrix_2x2.js:50-52 | `determinant` is a d - b c. InverseDeterminant, SingularHasKernel and InverseRoundTrip show that it decides invertibility. |
| Matrices.Mat2.Inverse | ref/matrix_2x2.js:57-65 | `get_inverse`. ProductWithInverse and InverseTimesMatrix make it a two-sided inverse, and InverseRoundTrip undoes `transform` with it. |
| Matrices.Mat2.InvertedInPlace | ref/matrix_2x2.js:70-80 | What `invert()` leaves. InvertAgreesWithInverseIff shows it equals `get_inverse()` exactly when a = d. |
| Matrices.Mat2.Transform | ref/matrix_2x2.js:99-104 | `transform`. TransformComposes makes it compose as the matrix product, and LeftInverse/RightInverse invert it. |
| Matrices.Mat2.TransformTranspose | ref/matrix_2x2.js:111-116 | `transform_transpose`. TransformTransposeIsTransposed ties it to `transform` by the transpose, and RotationInverse makes it undo a rotation. |
| Matrices.Mat2.Transposed | ref/matrix_2x2.js:111-116 | The transpose that `transform_transpose` applies. TransformTransposeIsTransposed shows that transposing twice gives the matrix back. |
| Matrices.Mat2.CreateRotationMatrix | ref/matrix_2x2.js:140-148 | `create_rotation_matrix`. RotationDeterminant gives it determinant 1, and RotationInverseIsOpposite makes its inverse the opposite rotation. |
| Matrices.InverseDeterminant | ref/matrix_2x2.js:57-65 | The determinant of `get_inverse()` times the determinant is 1. |
| Matrices.RotationDeterminant | ref/matrix_2x2.js:140-148 | A rotation matrix has determinant 1 when cos² + sin² = 1. |
| Matrices.MultiplyAgreesWithTransform | ref/matrix_2x2.js:43-48 | `multiply_by_vector2` and `transform` give the same vector. |
| Matrices.TransformTransposeIsTransposed | ref/matrix_2x2.js:111-116 | `transform_transpose` is `transform` by the matrix with b and c exchanged. |
| Matrices.TransformComposes | ref/matrix_2x2.js:99-104 | Transforming by n and then by m is transforming by the product m n. |
| Matrices.ProductWithInverse | ref/matrix_2x2.js:57-65 | The matrix times `get_inverse()` is the identity. |
| Matrices.InverseTimesMatrix | ref/matrix_2x2.js:57-65 | `get_inverse()` times the matrix is the identity. |
| Matrices.LeftInverse | ref/matrix_2x2.js:57-65 | `get_inverse()` undoes a `transform` applied before it. |
| Matrices.RightInverse | ref/matrix_2x2.js:57-65 | `transform` undoes `get_inverse()` applied before it. |
| Matrices.InverseRoundTrip | ref/matrix_2x2.js:57-65 | With a non-zero determinant, `get_inverse` and `transform` undo each other in both orders. |
| Matrices.SingularHasKernel | ref/matrix_2x2.js:57-65 | Every matrix with determinant 0 sends some non-zero vector to zero, so it has no inverse. |
| Matrices.InvertAgreesWithInverseIff | ref/matrix_2x2.js:70-80 | `invert()` leaves `get_inverse()` exactly when a = d. |
| Matrices.InvertDoesNotUndo | ref/matrix_2x2.js:70-80 | For diag(2, 1), `invert()` leaves diag(1/2, 1/2), where the inverse is diag(1/2, 1). |
| Matrices.RotationInverse | ref/matrix_2x2.js:140-148 | `transform_transpose` undoes a rotation in both orders, and the inverse of a rotation is the rotation with the opposite sine. |
| Matrices.TransposeUndoesRotation | ref/matrix_2x2.js:111-116 | `transform_transpose` after `transform` by a rotation gives the vector back. |
| Matrices.RotationUndoesTranspose | ref/matrix_2x2.js:111-116 | `transform` by a rotation after `transform_transpose` gives the vector back. |
| Matrices.RotationInverseIsOpposite | ref/matrix_2x2.js:140-148 | The inverse of a rotation matrix is the rotation by the opposite angle. |
| Matrices.Matrix2x2.constructor | ref/matrix_2x2.js:36-40 | The four fields take the four arguments. |
| Matrices.Matrix2x2.Invert | ref/matrix_2x2.js:70-80 | In place, the fields become the old d, -b, -c and d, each over the determinant. |
| Matrices.Matrix2x2.InvertIntended | ref/matrix_2x2.js:70-80 | The corrected `invert` leaves `get_inverse()` of the old value. |
| Matrices.Matrix2x2.Add | ref/matrix_2x2.js:86-92 | In place, componentwise sum, also when `other` is the receiver. |
| TransformationMatrix.Affine.ApplyToPoints | src/transformation_matrix_2dh.js:267-269 | Same length and order, with element i being `apply_to_point` of point i. |
| TransformationMatrix.Affine.ApplyToPoint | src/transformation_matrix_2dh.js:253-258 | `apply_to_point`. ProductApply makes it compose as Product, and InverseRoundTrip inverts it. |
| TransformationMatrix.Affine.Determinant | src/transformation_matrix_2dh.js:339 | The determinant `inverse` divides by. ProductDeterminant makes it multiplicative. |
| TransformationMatrix.Product | src/transformation_matrix_2dh.js:227-243 | The matrix product that `transform` is meant to compute. IdentityIsNeutral, ProductDeterminant and ProductApply give its meaning. |
| TransformationMatrix.Inverse | src/transformation_matrix_2dh.js:337-349 | The static `inverse`. InverseTimesTransform and TransformTimesInverse make it a two-sided inverse, and InverseRoundTrip undoes `apply_to_point` with it. |
| TransformationMatrix.InverseOf | src/transformation_matrix_2dh.js:337-349 | `inverse` over the six components. InverseOfOnLeft and InverseOfOnRight prove it. |
| TransformationMatrix.NearlyEqual | src/transformation_matrix_2dh.js:23 | The module's `is_equal` on numbers: the gap is below 1e-14. IsEqualNotTransitive shows the tolerance does not chain. |
| TransformationMatrix.IsEqual | src/transformation_matrix_2dh.js:319-328 | The static `is_equal`: all six entries within tolerance. IsEqualReflexiveSymmetric and IsEqualNotTransitive give its meaning. |
| TransformationMatrix.Interpolate | src/transformation_matrix_2dh.js:361-370 | The result is m1 at 0, m2 at 1, and m1 when both are equal. `range` is not clamped. |
| TransformationMatrix.IsEqualReflexiveSymmetric | src/transformation_matrix_2dh.js:319-328 | `is_equal` holds of equal matrices and is symmetric. |
| TransformationMatrix.IsEqualNotTransitive | src/transformation_matrix_2dh.js:23 | Two steps of 0.75e-14 are each within tolerance, but together they are not. |
| TransformationMatrix.ProductDeterminant | src/transformation_matrix_2dh.js:227-243 | The determinant of a product is the product of the determinants. |
| TransformationMatrix.ProductApply | src/transformation_matrix_2dh.js:253-258 | `apply_to_point` by the product m n moves a point by n and then by m. |
| TransformationMatrix.IdentityFixesPoints | src/transformation_matrix_2dh.js:57-61 | After `set_identity`, `apply_to_points` returns its input. |
| TransformationMatrix.IdentityIsNeutral | src/transformation_matrix_2dh.js:37-40 | The constructor's default is neutral for the product on both sides. |
| TransformationMatrix.ProductApplyToPoints | src/transformation_matrix_2dh.js:267-269 | `apply_to_points` by a product is `apply_to_points` twice. |
| TransformationMatrix.RotateIsProduct | src/transformation_matrix_2dh.js:68-78 | `rotate` multiplies on the right by the rotation and leaves e, f unchanged. It keeps a d - b c when cos² + sin² = 1. |
| TransformationMatrix.ScaleIsProduct | src/transformation_matrix_2dh.js:95-123 | `scale` multiplies on the right by the scaling. It is `scale_x` followed by `scale_y`, and each of those is `scale` with 1 on the other axis. |
| TransformationMatrix.TranslationProductEntries | src/transformation_matrix_2dh.js:189-193 | The product by a translation, entry by entry. |
| TransformationMatrix.TranslatedTwiceEntries | src/transformation_matrix_2dh.js:200-215 | `translate_x` then `translate_y`, entry by entry. |
| TransformationMatrix.TranslateIsProduct | src/transformation_matrix_2dh.js:189-193 | `translate` multiplies on the right by the translation. |
| TransformationMatrix.TranslateSplits | src/transformation_matrix_2dh.js:189-215 | `translate(dx, dy)` is `translate_x(dx)` followed by `translate_y(dy)`. |
| TransformationMatrix.TranslateMovesPoint | src/transformation_matrix_2dh.js:189-193 | After `translate(dx, dy)`, `apply_to_point(x, y)` is the old `apply_to_point(x + dx, y + dy)`. |
| TransformationMatrix.FlipIsReflection | src/transformation_matrix_2dh.js:43-54 | `flip_x` and `flip_y` multiply by a reflection, negate the determinant, and undo themselves. |
| TransformationMatrix.SkewAsWritten | src/transformation_matrix_2dh.js:131-160 | `skew_x` and `skew_y` multiply by a shear. `skew(k, 0)` is `skew_y(k)` and `skew(0, k)` is `skew_x(k)`. |
| TransformationMatrix.SkewSwapsAxes | src/transformation_matrix_2dh.js:131-149 | On the identity, `skew(1, 0)` sets b where `skew_x(1)` sets c. |
| TransformationMatrix.ShearProductEntries | src/transformation_matrix_2dh.js:145-160 | The product by a shear, entry by entry. |
| TransformationMatrix.SkewByAxisIsProduct | src/transformation_matrix_2dh.js:145-160 | `skew` with each factor on its own axis multiplies on the right by the shear. |
| TransformationMatrix.SkewByAxisReduces | src/transformation_matrix_2dh.js:145-160 | With one factor 0, the corrected `skew` is `skew_x` or `skew_y`. |
| TransformationMatrix.InverseOfOnLeft | src/transformation_matrix_2dh.js:337-349 | The inverse, written over the six components, times the transform is the identity. |
| TransformationMatrix.InverseOfOnRight | src/transformation_matrix_2dh.js:337-349 | The transform times its inverse is the identity. |
| TransformationMatrix.InverseTimesTransform | src/transformation_matrix_2dh.js:337-349 | `inverse(m)` times m is the identity. |
| TransformationMatrix.TransformTimesInverse | src/transformation_matrix_2dh.js:337-349 | m times `inverse(m)` is the identity. |
| TransformationMatrix.InverseAfter | src/transformation_matrix_2dh.js:337-349 | A point moved by m and then by `inverse(m)` comes back. |
| TransformationMatrix.InverseBefore | src/transformation_matrix_2dh.js:337-349 | A point moved by `inverse(m)` and then by m comes back. |
| TransformationMatrix.InverseRoundTrip | src/transformation_matrix_2dh.js:337-349 | With a d - b c not 0, `inverse` and `apply_to_point` undo each other in both orders. |
| TransformationMatrix.InterpolateApply | src/transformation_matrix_2dh.js:361-370 | The interpolated transform sends a point to the same interpolation of where m1 and m2 send it. |
| TransformationMatrix.TransformAsWrittenOnTranslation | src/transformation_matrix_2dh.js:235-240 | With a pure translation as argument, `transform` leaves the product. |
| TransformationMatrix.TransformAsWrittenIsNotProduct | src/transformation_matrix_2dh.js:235-240 | From the identity, `transform(2, 0, 3, 1, 0, 0)` leaves c = 6, where the product has c = 3. |
| TransformationMatrix.TransformationMatrix2DH.constructor | src/transformation_matrix_2dh.js:37-40 | The six fields take the arguments, and each omitted one comes from the identity. |
| TransformationMatrix.TransformationMatrix2DH.FlipX | src/transformation_matrix_2dh.js:43-47 | In place, a and b are negated. |
| TransformationMatrix.TransformationMatrix2DH.FlipY | src/transformation_matrix_2dh.js:50-54 | In place, c and d are negated. |
| TransformationMatrix.TransformationMatrix2DH.SetIdentity | src/transformation_matrix_2dh.js:57-61 | The fields become the identity. |
| TransformationMatrix.TransformationMatrix2DH.Rotate | src/transformation_matrix_2dh.js:68-78 | In place, a..d become the rotated snapshot of the old a..d. |
| TransformationMatrix.TransformationMatrix2DH.Scale | src/transformation_matrix_2dh.js:95-101 | In place, a, b are scaled by scaler_x and c, d by scaler_y (defaulting to scaler_x). |
| TransformationMatrix.TransformationMatrix2DH.ScaleX | src/transformation_matrix_2dh.js:108-112 | In place, a and b are scaled. |
| TransformationMatrix.TransformationMatrix2DH.ScaleY | src/transformation_matrix_2dh.js:119-123 | In place, c and d are scaled. |
| TransformationMatrix.TransformationMatrix2DH.Skew | src/transformation_matrix_2dh.js:131-138 | In place, from a snapshot of a..d: angle_x shears a, b and angle_y shears c, d. |
| TransformationMatrix.TransformationMatrix2DH.SkewByAxis | src/transformation_matrix_2dh.js:131-138 | The corrected `skew` leaves each factor on the axis `skew_x`/`skew_y` give it. |
| TransformationMatrix.TransformationMatrix2DH.SkewX | src/transformation_matrix_2dh.js:145-149 | In place, c and d gain a and b times angle_x. |
| TransformationMatrix.TransformationMatrix2DH.SkewY | src/transformation_matrix_2dh.js:156-160 | In place, a and b gain c and d times angle_y. |
| TransformationMatrix.TransformationMatrix2DH.SetTransform | src/transformation_matrix_2dh.js:172-181 | The fields become the six arguments. |
| TransformationMatrix.TransformationMatrix2DH.Translate | src/transformation_matrix_2dh.js:189-193 | In place, e and f move by the linear part applied to the distance. |
| TransformationMatrix.TransformationMatrix2DH.TranslateX | src/transformation_matrix_2dh.js:200-204 | In place, e and f move by a and b times distance_x. |
| TransformationMatrix.TransformationMatrix2DH.TranslateY | src/transformation_matrix_2dh.js:211-215 | In place, e and f move by c and d times distance_y. |
| TransformationMatrix.TransformationMatrix2DH.Transform | src/transformation_matrix_2dh.js:227-243 | In place, the fields become `TransformedAsWritten` of the argument. Each assignment reads the fields already assigned. |
| TransformationMatrix.TransformationMatrix2DH.TransformIntended | src/transformation_matrix_2dh.js:227-243 | The corrected `transform` leaves the product of the old matrix and the argument. |
| TransformationMatrix.TransformationMatrix2DH.ApplyToTypedArray | src/transformation_matrix_2dh.js:279-289 | For an even-length input, the output has the same length, and entries 2k, 2k+1 are `apply_to_point` of input entries 2k, 2k+1. |
| TransformationMatrix.TransformationMatrix2DH.Clone | src/transformation_matrix_2dh.js:307-310 | A fresh matrix with the same six fields. |
| TransformationMatrix.ComposeInPlace | src/transformation_matrix_2dh.js:68-193 | `rotate`, `scale` and `translate` in place leave the product of the old matrix with the rotation, the scaling and the translation, in that order. |
| Transformers.RotationOf | ref/transformer_2d.js:26-29 | The stored rotation matrix has determinant 1 wherever cos² + sin² = 1. |
| Transformers.RotationProduct | ref/transformer_2d.js:35-38 | Wherever the angle-sum formulas hold, the product of two rotation matrices is the rotation by the sum. |
| Transformers.RotationComposes | ref/transformer_2d.js:35-38 | Rotating by theta and then by alpha is rotating by theta + alpha. |
| Transformers.Transformer2D.constructor | ref/transformer_2d.js:19-23 | Position, orientation and z_index are stored (z_index defaults to 0), and the rotation matrix is that of the orientation. |
| Transformers.Transformer2D.SetOrientation | ref/transformer_2d.js:26-29 | The orientation is replaced, and the rotation matrix is again that of the orientation. Position and z_index are unchanged. |
| Transformers.Transformer2D.Translate | ref/transformer_2d.js:31-33 | The position gains the distance. Orientation, matrix and z_index are unchanged. |
| Transformers.Transformer2D.Rotate | ref/transformer_2d.js:35-38 | The orientation grows by the angle, and the rotation matrix follows it. |
| Transformers.Transformer2D.Transform | ref/transformer_2d.js:40-42 | The result is the vector rotated by the orientation plus the position. |
| Transformers.TransformIsRigid | ref/transformer_2d.js:40-42 | `transform` keeps squared distances between points. |
| Transformers.TransformInverse | ref/transformer_2d.js:40-42 | Subtracting the position and applying `transform_transpose` gives the body-frame point back. |
| Transformers.RotateTwice | ref/transformer_2d.js:35-38 | Two rotations add their angles, and the matrix matches the sum. |
| LineIntersections.LineThrough | src/intersections/line_segment.js:154-160 | Both points satisfy the line equation A x + B y = C. |
| LineIntersections.Crossing | src/intersections/line_segment.js:168-171 | Cramer's solution satisfies both equations. |
| LineIntersections.Determinant | src/intersections/line_segment.js:162-166 | The denominator A1 B2 - A2 B1. DenominatorIsCross and ParallelIffDeterminant make it 0 exactly when the lines are parallel. |
| LineIntersections.BetweenRay | src/intersections/line_segment.js:134-172 | `between_ray` returns null exactly when the two directions are parallel (including p0 = p1 or p2 = p3). |
| LineIntersections.Ratio | src/intersections/line_segment.js:204-208 | When the segment does not move on that axis, the ratio is -1, which fails the test. |
| LineIntersections.BetweenLineSegments | src/intersections/line_segment.js:188-217 | Parallel or degenerate lines give null. |
| LineIntersections.BetweenLineSegmentsIntended | src/intersections/line_segment.js:210-211 | With the evidently intended test, parallel or degenerate lines give null. |
| LineIntersections.DenominatorIsCross | src/intersections/line_segment.js:197 | `A1 B2 - A2 B1` is the cross product of the two directions. |
| LineIntersections.ParallelIffDeterminant | src/intersections/line_segment.js:162-166 | The directions are parallel exactly when the denominator is 0. |
| LineIntersections.OnLineIffCollinear | src/intersections/line_segment.js:154-156 | A point satisfies the line equation exactly when it is collinear with the two points. |
| LineIntersections.CrossingUnique | src/intersections/line_segment.js:168-171 | With a non-zero denominator, every point on both lines is Cramer's solution. |
| LineIntersections.BetweenRayMeets | src/intersections/line_segment.js:134-172 | `between_ray` returns v exactly when the lines are not parallel and v satisfies both equations. |
| LineIntersections.BetweenRayCollinear | src/intersections/line_segment.js:134-172 | `between_ray` returns v exactly when the lines are not parallel and v is collinear with both pairs. |
| LineIntersections.SegmentsAgreeWithRay | src/intersections/line_segment.js:188-217 | A point `between_line_segments` returns (as written or corrected) is the point `between_ray` returns. |
| LineIntersections.AsWrittenAcceptsIntended | src/intersections/line_segment.js:210-211 | The as-written test accepts every crossing the intended test accepts. |
| LineIntersections.RatioPlacesPoint | src/intersections/line_segment.js:204-208 | A collinear point whose ratio on some axis is in [0, 1] lies on the closed segment. |
| LineIntersections.SegmentPointRatios | src/intersections/line_segment.js:204-208 | A point a fraction t along a segment has ratio t on every axis the segment moves on. |
| LineIntersections.OffSegmentByRatio | src/intersections/line_segment.js:207 | A point whose x ratio along a non-vertical segment is outside [0, 1] is off that segment. |
| LineIntersections.IntendedIsSound | src/intersections/line_segment.js:188-217 | A point the intended test accepts lies on both closed segments. |
| LineIntersections.SegmentsComplete | src/intersections/line_segment.js:199-213 | For non-parallel segments, a point on both closed segments is returned by both tests. |
| LineIntersections.PrecedenceAcceptsOffSegmentPoint | src/intersections/line_segment.js:210-211 | A crossing inside the first segment on x, with both ratios along the second segment outside [0, 1], is returned as written although it is off the second segment. The intended test returns null. |
| LineIntersections.PrecedenceAcceptsAt | src/intersections/line_segment.js:210-211 | The same, with the points given by their coordinates. |
| LineIntersections.PrecedenceExample | src/intersections/line_segment.js:210-211 | (0, 0)-(4, 4) against (0, 4)-(1, 3) returns (2, 2) as written, which is off the second segment. The intended test returns null. |

## Left out

- IEEE-754 doubles: every number is an exact real, so rounding, NaN and the infinities are not modelled.
  - Division by zero is excluded by preconditions. `Matrices.Mat2.Inverse`, `TransformationMatrix.Inverse` and `Matrix2x2.Invert` require a non-zero determinant, and the `divide` operations require a non-zero divider. In the source these return Infinity or NaN.
  - `is_equal` compares with an exact real 1e-14.
- TransformationMatrix.TransformationMatrix2DH.ApplyToTypedArray: requires an even-length input, because an odd length makes the source read `undefined` and store NaN. The Float32Array narrowing of the output is not modelled; the output holds exact reals.
- `apply_to_context` (a call into a canvas context), and `rotate_by_degrees` with src/to_radians.js (a multiply by π/180): not modelled.
- cos, sin, atan2 and sqrt: not modelled; cosine and sine values are parameters. So `get_angle`, `set_angle`, `set_length`, `get_length`, `normalize`, `get_direction`, `distance` and the static `get_length` and `normalize` are left out of both vector files.
- `toString` (number formatting): not modelled.
- The `magnitude`/`magnitude_squared` aliases: not modelled. `magnitude` points at a `length` property that does not exist.
- The return value of chainable methods (`return this`) is not modelled; their effect on the receiver is.
- src/random.js (`Math.random`) and src/index.js (re-exports only) are not part of this model.
- The `PP.define` preprocessor shim and the console demo in ref/matrix_2x2.js are not part of this model.
- The files that ref/matrix_2x2.js and ref/transformer_2d.js import as `./vector2` are not part of this model. Their vectors are the pair of reals `Vec2`.
- Vectors.Vec2.Min: requires a non-empty list, because `Math.min()` of no arguments is Infinity, which has no real counterpart. The same holds for Vectors.Vec2.Max (-Infinity).
- Transformers.Transformer2D.constructor: `z_index || 0` maps a falsy z_index (undefined, 0 or NaN) to 0. NaN is not a real, so the model keeps only the default.
- Vectors.Vec2.CrossVectorScalar: the static `cross` chooses its formula at run time (`instanceof Vector2` in src/vector2.js:181-186, `_constructor` in vector2.js:230-235). The model splits it into Vectors.Vec2.CrossVectorScalar and Vectors.Vec2.CrossScalarVector, selected by argument type, and leaves out the run-time type test.
- The older vector2.js statics `add`, `add_value`, `subtract`, `scale` (one factor), `divide`, `cross`, `distance_squared` and the instance `to`, `perp_cw`, `perp_ccw`, `dot`, `cross` and `equal_to` compute the same values as the newer file's. They are the functions of `Vectors.Vec2`, not separate members.
- `between_line_segments` writes its products with the factors in the other order (`p0.x * A1`, `B2 * C1`). Real products commute, and so do IEEE products, so one `LineThrough`/`Crossing` serves both functions.

## Findings

| source | as written | input that shows it | evidently intended | confidence | as-written member | corrected member |
|---|---|---|---|---|---|---|
| src/transformation_matrix_2dh.js:235-240 | `transform` assigns a, b, c, d, e, f in sequence. c and d read the new a and b; e and f read the new a..d (TransformationMatrix2DH.Transform). | From the identity, `transform(2, 0, 3, 1, 0, 0)` leaves c = 6. | Multiply the matrix on the right by the argument, as the canvas `transform` does; that leaves c = 3. | high; not executed | TransformationMatrix.TransformAsWrittenIsNotProduct | TransformationMatrix.TransformationMatrix2DH.TransformIntended |
| ref/matrix_2x2.js:74-77 | `invert` saves `this.d`, not `this.a`, so the new d is the old d over the determinant (Matrix2x2.Invert). | diag(2, 1).invert() leaves diag(1/2, 1/2), where the inverse is diag(1/2, 1). | Save `this.a`, so that `invert` leaves `get_inverse()`. | high; not executed | Matrices.InvertDoesNotUndo | Matrices.Matrix2x2.InvertIntended |
| src/transformation_matrix_2dh.js:131-138 | `skew(angle_x, angle_y)` shears a, b by angle_x, which is what `skew_y` does, and c, d by angle_y, which is what `skew_x` does (TransformationMatrix2DH.Skew). | On the identity, `skew(1, 0)` sets b = 1, while `skew_x(1)` sets c = 1. | Each factor on the axis `skew_x`/`skew_y` give it: multiply by the shear with c = angle_x and b = angle_y. | medium; not executed | TransformationMatrix.SkewSwapsAxes | TransformationMatrix.TransformationMatrix2DH.SkewByAxis |
| src/intersections/line_segment.js:210-211 | The acceptance test has no parentheses, so it parses as `rx0 ok \|\| (ry0 ok && rx1 ok) \|\| ry1 ok` (BetweenLineSegments). | Segments (0, 0)-(4, 4) and (0, 4)-(1, 3) do not meet, yet (2, 2) is returned. | `(rx0 ok \|\| ry0 ok) && (rx1 ok \|\| ry1 ok)`: the crossing is within both segments. | high; not executed | LineIntersections.PrecedenceExample | LineIntersections.BetweenLineSegmentsIntended |
| src/vector2.js:53-55 | Instance `lerp` scales the receiver and then adds `other` times alpha. When `other` is the receiver, the second step reads the scaled value (Vector2.Lerp). | v = (2, 2), `v.lerp(v, 0.5)` leaves (1.5, 1.5). | The static `lerp` of the old values, which leaves (2, 2). | medium; not executed | Vectors.SelfLerpExample | Vectors.Vector2.LerpIntended |
