# Ray tracer value types in Dafny

This project models the value layer of a small Rust ray tracer that renders one sphere against a sky gradient. It covers:

- the validated scalars: `Distance` (never negative), the `Strict` percent (in [0, 1]), `Dimension` (a `usize` count with checked stepping) and `Color` (checked channels, truncated for display);
- the geometry: `Vec3`, with its operators, in-place operators, dot, cross, length and unit vector, and the `Point` and `Direction` wrappers;
- the viewing geometry: `Image` and `Camera`, which store one side and derive the other through the aspect ratio, plus the viewport spans and the lower-left corner;
- the ray–sphere hit test and `find_color`.

Every `f32` is read as an exact `real`, so the contracts say what the code computes when nothing is rounded.

Each Rust file has its own module:

| Module | Rust source | File |
|---|---|---|
| `Distances` | `distance.rs` | `distance.dfy` |
| `Percent` | `percent.rs` | `percent.dfy` |
| `Dimensions` | `dimension.rs` | `dimension.dfy` |
| `Vectors` | `vec3.rs` | `vec3.dfy` |
| `Points` | `point.rs` | `point.dfy` |
| `Directions` | `direction.rs` | `direction.dfy` |
| `Colors` | `color.rs` | `color.dfy` |
| `Images` | `image.rs` | `image.dfy` |
| `Cameras` | `camera.rs` | `camera.dfy` |
| `Rays` | `ray.rs` | `ray.dfy` |
| `Spheres` | `sphere.rs` | `sphere.dfy` |

Some items are placed differently:

- `find_color` lives in `Shading` (`shading.dfy`), so that rays and spheres need not import each other.
- `From<Point> for Direction` lives in `Directions`, next to its inverse.
- `RealArith` (`realarith.dfy`) holds the facts about squares, square roots and quadratics that the length and sphere proofs use.
- `Wrappers` holds `Option` and `Result`.

Where the source needs something it does not define, the model stands in for it:

- **Square root.** `f32::sqrt` is not available. Every operation that takes a square root gets the root as a parameter `root`, with `requires IsSquareRoot(x, root)`. `RealArith.SquareRootUnique` shows that the answer does not depend on which root is supplied.
- **`f32` to `Dimension`.** This conversion is not defined in `dimension.rs`. It is modelled as Rust's `as usize`: truncation toward zero of a non-negative real, saturating at `usize::MAX`, with `usize` taken as 64 bits (`Dimensions.FromReal`, specified by `IsTruncation`).
- **`Point::new` and `Direction::new`.** These are called in `camera.rs` but not defined. They are modelled as `from_f32_array_const`.
- **`Rgb`.** `Rgb`, `Rgb::new`, `new_from_percent`, `white` and `blend_two_colors` are not part of this model. They are kept as the uninterpreted constructors of `Shading.Rgb`.
- **In-place operators.**
  - `Vec3`'s `*Assign` operators overwrite the backing `[f32; 3]` element by element. They are methods on an `array<real>` of length 3.
  - The `Point` and `Direction` `*Assign` operators reassign the wrapped vector. They are methods of the classes `Points.PointVar` and `Directions.DirectionVar`.

Some behaviours of the code are easy to misread; the model follows the code:

- **Pointing-away rays.** `does_ray_hit_sphere` tests the discriminant of the whole line, not of the half-line ahead of the origin. A ray aimed away from the sphere is therefore reported as a hit (`Spheres.RayPointingAwayStillHits`).
- **Color channel check.** `new_from_vec3` checks x, y and x again, against [0, 256] with both ends included, although its message says 0 to 255 (see Findings).
- **Zero-direction rays.** `find_color` on a ray with zero direction reaches `expect` on a blend factor that is not a number and panics. The model returns `Err` there (`Shading.ZeroDirectionPanics`). `Cameras.PixelRaysReachViewport` shows that the program's own rays never take that path.
- **Point minus point.** `Sub for Point` returns a `Point`, not a `Direction` (`Points.Sub`). The render loop converts the difference to a `Direction` with `into()`, which `Cameras.PixelDirection` models.
- **Mutation.** The `*Assign` operators of `Vec3`, `Point` and `Direction` update their receiver in place. They are modelled as methods that modify an array or an object, as described above.

## Model

| member | source | states |
|---|---|---|
| Distances.TryFromConst | src/newtypes/distance.rs:6-22 | succeeds exactly when the value is not negative; on success `as_f32` gives the input back; otherwise the error is `DistanceCannotBeNegative` |
| Distances.TryFrom | src/newtypes/distance.rs:24-33 | succeeds exactly when the value is not negative, and then keeps the value |
| Distances.IsDistanceValid | src/newtypes/distance.rs:6-11 | valid exactly when not below zero; `TryFromConst` and `TryFrom` state the acceptance it gives |
| Distances.AsF32 | src/newtypes/distance.rs:19-21 | every distance reads back as a non-negative number |
| Distances.TryFromAgreesWithConst | src/newtypes/distance.rs:13-33 | `try_from` and `try_from_const` return the same result on every input |
| Distances.ConstructorExamples | src/newtypes/distance.rs:38-54 | 1.0 is accepted and -1.0 rejected by both constructors |
| Percent.New | src/newtypes/percent.rs:8-24 | succeeds exactly on [0, 1] and keeps the value; otherwise the error carries the range message |
| Percent.IsStrictPercentValid | src/newtypes/percent.rs:8-13 | valid exactly on [0, 1]; `Percent.New` states the acceptance it gives |
| Percent.AsF32 | src/newtypes/percent.rs:22-24 | reads the public field back; `Percent.New` states that it returns the value accepted |
| Percent.OverflowingAdd | src/newtypes/percent.rs:26-32 | the flag is true exactly when the sum stays at most 1; a refused sum returns the receiver unchanged; an accepted one returns the sum |
| Percent.OverflowingSub | src/newtypes/percent.rs:33-39 | the flag is true exactly when the difference stays at least 0; a refused difference returns the receiver unchanged; an accepted one returns the difference |
| Percent.AddNeverPanics | src/newtypes/percent.rs:26-32 | for valid operands the `expect` in `overflowing_add` cannot fire and the result is again a valid percent |
| Percent.SubNeverPanics | src/newtypes/percent.rs:33-39 | for valid operands the `expect` in `overflowing_sub` cannot fire and the result is again a valid percent |
| Percent.AddThenSubRestores | src/newtypes/percent.rs:26-39 | subtracting a percent just added successfully gives back the original, with flag true |
| Percent.OverflowExamples | src/newtypes/percent.rs:46-75 | 0.8+0.21 is refused, 0.8+0.19 gives 0.99, 0.8-0.81 is refused, 0.8-0.79 gives 0.01 |
| Dimensions.FromConst | src/newtypes/dimension.rs:11-13 | `from_const` keeps the count: `usize::from` and `f32::from` read it back |
| Dimensions.FromUsize | src/newtypes/dimension.rs:36-40 | `From<usize>` keeps the count and agrees with `from_const` |
| Dimensions.ToUsize | src/newtypes/dimension.rs:42-46 | `From<Dimension> for usize`; `UsizeRoundTrip` states that it inverts `From<usize>` |
| Dimensions.ToF32 | src/newtypes/dimension.rs:48-53 | the count as a real, between 0 and `usize::MAX` |
| Dimensions.CheckedAdd | src/newtypes/dimension.rs:63-65 | `checked_add` is `Some` exactly when the sum fits in `usize`, and then holds the sum |
| Dimensions.CheckedSub | src/newtypes/dimension.rs:67-69 | `checked_sub` is `Some` exactly when it does not underflow, and then holds the difference |
| Dimensions.StepsBetween | src/newtypes/dimension.rs:56-61 | `Some` exactly when `end >= start`, holding `end - start` |
| Dimensions.ForwardChecked | src/newtypes/dimension.rs:63-65 | `None` exactly when `start + count` exceeds `usize::MAX`, otherwise `start + count` |
| Dimensions.BackwardChecked | src/newtypes/dimension.rs:67-69 | `None` exactly when `count > start`, otherwise `start - count` |
| Dimensions.Add | src/newtypes/dimension.rs:72-78 | plain addition, defined when it does not overflow |
| Dimensions.Sub | src/newtypes/dimension.rs:80-86 | unchecked subtraction, so callers must have `rhs <= self`; gives the difference |
| Dimensions.FromReal | src/image.rs:60 | the `f32` to `Dimension` conversion truncates a non-negative real toward zero, saturating at `usize::MAX` |
| Dimensions.TruncationUnique | src/image.rs:60 | a truncation is determined by the real it truncates |
| Dimensions.UsizeRoundTrip | src/newtypes/dimension.rs:36-46 | `Dimension::from` then `usize::from` is the identity, and so is the reverse |
| Dimensions.StepsAgreeWithForward | src/newtypes/dimension.rs:56-65 | `steps_between(s, e) == Some(n)` exactly when `forward_checked(s, n) == Some(e)` |
| Dimensions.StepsAgreeWithBackward | src/newtypes/dimension.rs:56-69 | `steps_between(s, e) == Some(n)` exactly when `backward_checked(e, n) == Some(s)` |
| Dimensions.AddThenSubRestores | src/newtypes/dimension.rs:72-86 | `Sub` undoes `Add` |
| Vectors.Add | src/vec3.rs:60-70 | `+` adds component by component |
| Vectors.Sub | src/vec3.rs:80-90 | `-` subtracts component by component |
| Vectors.Mul | src/vec3.rs:100-110 | `*` by a vector multiplies component by component |
| Vectors.MulScalar | src/vec3.rs:120-130 | `v * s` scales every component by `s` |
| Vectors.ScalarMul | src/vec3.rs:132-138 | `s * v` scales every component by `s` |
| Vectors.Div | src/vec3.rs:148-158 | each component of `a / b`, times the matching component of `b`, gives back the component of `a` |
| Vectors.DivScalar | src/vec3.rs:168-178 | each component of `v / s`, times `s`, gives back the component of `v` |
| Vectors.ScalarDiv | src/vec3.rs:180-190 | each component of `s / v`, times the matching component of `v`, gives `s` |
| Vectors.Dot | src/vec3.rs:37-39 | the sum of the componentwise products; its laws are stated by `DotSymmetric` (symmetric, `v · v` is the squared length) and `DotSelfIsSumOfSquares` (never negative, positive off zero) |
| Vectors.AccessorsReadComponents | src/vec3.rs:12-26 | `x`, `y` and `z` return elements 0, 1 and 2 of the array given to `new` |
| Vectors.AddThenSubRestores | src/vec3.rs:60-90 | `(a + b) - b == a` |
| Vectors.ScalarMulCommutes | src/vec3.rs:120-138 | `s * v == v * s`, and each component is scaled by `s` |
| Vectors.DivUndoesMul | src/vec3.rs:100-178 | dividing by the vector or scalar just multiplied by gives the original vector back |
| Vectors.ScalarDivIsScaledReciprocal | src/vec3.rs:180-190 | `s / v` is the componentwise reciprocal of `v` scaled by `s`, and `v` times its reciprocal is (1, 1, 1) |
| Vectors.DotSymmetric | src/vec3.rs:37-39 | the dot product is symmetric, and a vector's dot with itself is its squared length |
| Vectors.DotSelfIsSumOfSquares | src/vec3.rs:28-31 | `v · v` is the sum of the squared components; it is never negative, and positive unless `v` is zero |
| Vectors.LengthSquared | src/vec3.rs:28-31 | the `expect` never fires; the squared length is `v · v`, zero for the zero vector and positive otherwise |
| Vectors.Length | src/vec3.rs:33-35 | a non-negative number whose square is `v · v`; zero exactly for the zero vector |
| Vectors.LengthIsUnique | src/vec3.rs:33-35 | the length does not depend on which square root is supplied |
| Vectors.UnitVector | src/vec3.rs:49-51 | for a non-zero vector the result has squared length 1, and scaling it by the length gives the vector back |
| Vectors.Cross | src/vec3.rs:41-47 | `cross` as written, with third component `x*y' - y - x'`; `CrossNotOrthogonal` shows it is not orthogonal to its operands |
| Vectors.CrossStandard | src/vec3.rs:41-47 | the corrected cross product is orthogonal to both operands, its squared length is `|a|²|b|² - (a·b)²` (Lagrange's identity), `(a, b, a×b)` is positively oriented (these three fix it), and it shares its first two components with `cross` |
| Vectors.CrossNotOrthogonal | src/vec3.rs:267-271 | as written, `(1,2,3) × (4,5,6) == (-3,6,-1)`, which is not orthogonal to `(1,2,3)`; the standard product is `(-3,6,-3)` |
| Vectors.OperatorExamples | src/vec3.rs:207-265 | the unit tests' values for `+`, `-`, `*`, `/` in every operand order, and `(1,2,3) · (3,2,1) == 10` |
| Vectors.LengthExamples | src/vec3.rs:255-276 | `(3,4,0)` has squared length 25 and length 5, and `(4,0,0)` normalises to `(1,0,0)` |
| Vectors.AddAssign | src/vec3.rs:72-78 | after `+=` the array holds `old + rhs` |
| Vectors.SubAssign | src/vec3.rs:92-98 | after `-=` the array holds `old - rhs` |
| Vectors.MulAssign | src/vec3.rs:112-118 | after `*=` by a vector the array holds the componentwise product |
| Vectors.MulAssignScalar | src/vec3.rs:140-146 | after `*=` by a scalar the array holds `old * s` |
| Vectors.DivAssign | src/vec3.rs:160-166 | after `/=` by a vector the array holds the componentwise quotient |
| Vectors.DivAssignScalar | src/vec3.rs:192-198 | after `/=` by a scalar the array holds `old / s` |
| Points.FromVec3Const | src/newtypes/point.rs:11-13 | the point wraps the given vector |
| Points.FromF32ArrayConst | src/newtypes/point.rs:14-25 | `x`, `y`, `z` of the point are the array's elements |
| Points.Add | src/newtypes/point.rs:28-34 | point `+` adds component by component |
| Points.Sub | src/newtypes/point.rs:42-48 | point `-` subtracts component by component and gives a point |
| Points.FromVec3 | src/newtypes/point.rs:62-66 | `From<Vec3>` keeps the components |
| Points.FromArray | src/newtypes/point.rs:68-72 | `From<[f32; 3]>` keeps the components |
| Points.AddThenSubRestores | src/newtypes/point.rs:28-48 | `(p + q) - q == p` and `(p - q) + q == p` |
| Points.ConstructorsAgree | src/newtypes/point.rs:62-72 | `From<[f32; 3]>`, `from_f32_array_const` and `From<Vec3>` build the same point |
| Points.ArithmeticExamples | src/newtypes/point.rs:79-93 | (1,-1,1) + (-1,-1,1) is (0,-2,2), and (1,-1,1) - (-1,-1,1) is (2,0,0) |
| Points.PointVar.AddAssign | src/newtypes/point.rs:36-40 | after `+=` the point is the old point plus `rhs` |
| Points.PointVar.SubAssign | src/newtypes/point.rs:50-54 | after `-=` the point is the old point minus `rhs` |
| Directions.FromVec3Const | src/newtypes/direction.rs:11-13 | the direction wraps the given vector |
| Directions.FromF32ArrayConst | src/newtypes/direction.rs:14-25 | `x`, `y`, `z` of the direction are the array's elements |
| Directions.UnitDirection | src/newtypes/direction.rs:26-28 | for a non-zero direction the result has squared length 1, and scaling it by the length gives the direction back |
| Directions.MulScalar | src/newtypes/direction.rs:36-42 | `d * s` scales every component by `s` |
| Directions.ScalarMul | src/newtypes/direction.rs:44-50 | `s * d` scales every component by `s` |
| Directions.DivScalar | src/newtypes/direction.rs:52-58 | `d / s` is the direction that, multiplied by `s`, gives `d` |
| Directions.ScalarDiv | src/newtypes/direction.rs:60-66 | each component of `s / d` times the matching component of `d` is `s` |
| Directions.FromPoint | src/newtypes/point.rs:56-60 | `From<Point> for Direction` keeps x, y and z |
| Directions.ToPoint | src/newtypes/direction.rs:74-78 | `From<Direction> for Point` keeps x, y and z |
| Directions.PointRoundTrip | src/newtypes/direction.rs:74-78 | the two `From` conversions are inverse to each other |
| Directions.Dot | src/newtypes/direction.rs:29-33 | `dot` of two directions; `DotLaws` states that it is the `Vec3` dot of the wrapped vectors, symmetric, and the squared length on the diagonal |
| Directions.DotLaws | src/newtypes/direction.rs:29-33 | `dot` equals `Vec3::dot` of the wrapped vectors, is symmetric, and a direction's dot with itself is its squared length |
| Directions.ScalingLaws | src/newtypes/direction.rs:36-50 | `d * s == s * d`, and scaling by 1 changes nothing |
| Directions.UnitComponentsBounded | src/newtypes/direction.rs:26-28 | every component of a direction of squared length 1 lies in [-1, 1] |
| Directions.DirectionVar.MulAssign | src/newtypes/direction.rs:68-72 | after `*=` the direction is the old one times `s` |
| Colors.IsColorDimensionValid | src/newtypes/color.rs:8-13 | a channel passes exactly when it is in [0, 256], both ends included; `ChannelOf256Accepted` exhibits the upper end |
| Colors.NewFromVec3 | src/newtypes/color.rs:15-20 | succeeds exactly when x and y are in [0, 256]; z is not checked; on success keeps the vector, otherwise gives the message |
| Colors.New | src/newtypes/color.rs:21-23 | the same check on the array's elements 0 and 1, keeping the array; otherwise the error carries the range message |
| Colors.CastU16 | src/newtypes/color.rs:24-35 | `as u16`: truncation toward zero, 0 for negatives, `u16::MAX` at and above it |
| Colors.Red | src/newtypes/color.rs:25-27 | `red` is at most `u16::MAX`, and for x in [0, `u16::MAX`) it is the truncation of x |
| Colors.Blue | src/newtypes/color.rs:29-31 | `blue` is at most `u16::MAX`, and for y in [0, `u16::MAX`) it is the truncation of y |
| Colors.Green | src/newtypes/color.rs:33-35 | `green` is at most `u16::MAX`, and for z in [0, `u16::MAX`) it is the truncation of z |
| Colors.Display | src/newtypes/color.rs:38-42 | prints three numbers, each at most `u16::MAX`, and each in-range channel as its truncation |
| Colors.DisplayOfAcceptedColor | src/newtypes/color.rs:38-42 | an accepted colour's display lists x, y and z in that order as their truncations, with x and y at most 256 |
| Colors.DisplayExamples | src/newtypes/color.rs:25-42 | `red`, `blue` and `green` read x, y and z; negatives display as 0 and huge values as 65535 |
| Colors.ZChannelNeverChecked | src/newtypes/color.rs:16 | a z channel of -1 or 300 is accepted, and 300 displays as 300 |
| Colors.ChannelOf256Accepted | src/newtypes/color.rs:8-13 | the value 256 passes the check despite the message, and displays as 256 |
| Colors.NewFromVec3Checked | src/newtypes/color.rs:15-20 | corrected check: succeeds exactly when all three channels are in [0, 256) |
| Colors.CheckedDisplayFitsEightBits | src/newtypes/color.rs:15-42 | a colour the corrected check accepts displays every channel as its truncation in 0..=255; the written check accepts it too |
| Images.Value | src/image.rs:15-19 | the aspect ratio is positive and sixteen by nine is 16/9 |
| Images.Default | src/image.rs:29-33 | the default image is sixteen by nine with width and height 0 |
| Images.NewFromHeight | src/image.rs:42-47 | keeps the ratio and the height; the width is the truncation of height × ratio |
| Images.NewFromWidth | src/image.rs:48-53 | keeps the ratio and the width; the height is the truncation of width ÷ ratio |
| Images.AspectRatio | src/image.rs:54-56 | the stored ratio; `NewFromHeight` and `NewFromWidth` state that it is the one given |
| Images.ImageHeight | src/image.rs:57-62 | the stored height, or the truncation of width ÷ ratio |
| Images.ImageWidth | src/image.rs:63-68 | the stored width, or the truncation of height × ratio |
| Images.DerivedSideBounded | src/image.rs:57-68 | a derived side never exceeds the exact quotient or product it truncates |
| Images.MainImageHeight | src/main.rs:87-92 | a 256-wide sixteen-by-nine image is 144 high |
| Cameras.NewFromViewportWidth | src/camera.rs:27-39 | keeps width, focal length and origin; the height is the truncation of width ÷ ratio |
| Cameras.NewFromViewportHeight | src/camera.rs:40-52 | keeps height, focal length and origin; the width is the truncation of ratio × height |
| Cameras.ViewportWidth | src/camera.rs:53-58 | the declared width, or the truncation of ratio × declared height |
| Cameras.ViewportHeight | src/camera.rs:59-64 | the declared height, or the truncation of declared width ÷ ratio |
| Cameras.Origin | src/camera.rs:65-67 | the stored origin; both constructors state that it is the one given |
| Cameras.FocalLength | src/camera.rs:68-70 | the stored focal length; both constructors state that it is the one given |
| Cameras.Horizontal | src/camera.rs:71-73 | `(viewport_width, 0, 0)` |
| Cameras.Vertical | src/camera.rs:74-76 | `(0, viewport_height, 0)` |
| Cameras.LowerLeftCorner | src/camera.rs:77-82 | `origin - horizontal/2 - vertical/2 - (0, 0, focal_length)`, componentwise |
| Cameras.ViewportPoint | src/main.rs:112 | `lower_left_corner + u*horizontal + v*vertical`, componentwise |
| Cameras.PixelDirection | src/main.rs:110-113 | the pixel ray's direction is `(u·w - w/2, v·h - h/2, -focal_length)` |
| Cameras.PixelRay | src/main.rs:110-113 | the pixel ray starts at the camera origin along that direction |
| Cameras.PixelRaysReachViewport | src/main.rs:110-113 | with a positive focal length a pixel ray's direction is never zero, and at parameter 1 the ray is at the viewport point |
| Cameras.MainCameraGeometry | src/main.rs:90-102 | the program's camera has viewport 3 × 2, horizontal (3,0,0), vertical (0,2,0) and lower-left corner (-1.5,-1,-1) |
| Rays.New | src/ray.rs:18-26 | `origin` and `direction` return the constructor arguments |
| Rays.Origin | src/ray.rs:21-23 | the stored origin; `Rays.New` states that it is the one given |
| Rays.Direction | src/ray.rs:24-26 | the stored direction; `Rays.New` states that it is the one given |
| Rays.At | src/ray.rs:27-29 | `_at(t)` is `origin + t*direction`, componentwise |
| Rays.AtLaws | src/ray.rs:27-29 | `_at(0)` is the origin, and moving on by `t` adds `t*direction` |
| Spheres.NewConst | src/sphere.rs:13-21 | `center` and `radius` return the constructor arguments |
| Spheres.Center | src/sphere.rs:16-18 | the stored centre; `NewConst` states that it is the one given |
| Spheres.Radius | src/sphere.rs:19-21 | the stored radius, a `Distance` and so never negative; `NewConst` states that it is the one given |
| Spheres.DoesRayHitSphere | src/sphere.rs:22-29 | the discriminant test; `HitIffLinePassesInside` states that for a non-zero direction it holds exactly when the line passes strictly inside the sphere, and `ZeroDirectionMisses` that it fails for a zero direction |
| Spheres.QuadraticAlongRay | src/sphere.rs:22-29 | `a t² + b t + c`, with the code's `a`, `b`, `c`, is the squared distance of `_at(t)` from the centre minus the squared radius |
| Spheres.HitIffLinePassesInside | src/sphere.rs:22-29 | for a non-zero direction, the test reports a hit exactly when some point of the ray's line is strictly inside the sphere, so tangent lines miss |
| Spheres.ZeroDirectionMisses | src/sphere.rs:24-28 | a zero direction always misses |
| Spheres.InsideOriginHits | src/sphere.rs:24-28 | a moving ray whose origin is strictly inside the sphere hits it |
| Spheres.TangentRayMisses | src/sphere.rs:22-29 | a ray touching the unit sphere at one point is a miss |
| Spheres.RayPointingAwayStillHits | src/sphere.rs:22-29 | a ray aimed away from the sphere still hits, while no point at a non-negative parameter is inside |
| Shading.FindColor | src/ray.rs:30-43 | red on a hit; on a miss with non-zero direction, sky blue blended toward white by `0.5·(unit_y + 1)`, which lies in [0, 1]; on a miss with zero direction, the `expect` panic |
| Shading.FindColorIndependentOfRoot | src/ray.rs:34 | the colour does not depend on which square root is supplied |
| Shading.MovingRayAlwaysColored | src/ray.rs:30-43 | a ray with non-zero direction always gets a colour, red or a blend |
| Shading.ZeroDirectionPanics | src/ray.rs:34-35 | a ray with zero direction misses and reaches the `expect` panic |
| Shading.LerpExtremes | src/ray.rs:34-35 | a missed ray pointing straight up is blended with weight 1, straight down with weight 0 |
| RealArith.SquareRootUnique | src/vec3.rs:34 | two non-negative square roots of the same number are equal |

## Left out

- IEEE-754 behaviour: rounding, NaN, infinities, and division by zero. Every division carries a non-zero requires. As a consequence, NaN passing the `Distance` check is not modelled.
- The precision of `f32::sqrt`: the root is a parameter, as said above.
- `Rgb`, `Rgb::new`, `new_from_percent`, `blend_two_colors` and `Rgb::white`: these are not part of this model, so `find_color` builds them as uninterpreted terms. The blend's channels and the failure of `Rgb::new` are not modelled.
- `Vec3`'s `Display` (float formatting), `Dimension`'s `Display`, `Deref` and `DerefMut`: output and plumbing. `DerefMut` is never used to mutate here.
- `Dimensions.ToF32`: the precision lost converting a `usize` above 2^24 to `f32` is not modelled.
- `Dimensions.Add`: the overflow panic of a debug build is a precondition rather than a modelled error.
- `Dimensions.Sub`: the underflow (a panic in a debug build, wrap-around in a release build) is excluded by the precondition `rhs <= self` rather than modelled; `CheckedSub` and `BackwardChecked` model the checked forms.
- `Percent.OverflowingAdd` and `Percent.OverflowingSub`: the `expect` on the accepted result is a precondition. `AddNeverPanics` and `SubNeverPanics` show that valid operands always meet it. A `Strict` built directly through its public field with an out-of-range value is not given a panic path.
- The driver `src/main.rs`: the P3 header, the progress output on stderr and the flushing are I/O. Its pixel loop is reduced to `Cameras.PixelRay` for given `u` and `v`. Its call of `find_color` without a sphere does not match `ray.rs` and is not modelled.
- `src/error.rs` (a boxed error type): errors are plain values (strings, or `DistanceCannotBeNegative`).
- The derived traits (`Debug`, `Clone`, `PartialOrd`, ...), apart from `Default` for `Image`.

## Findings

| source | as written | input that shows it | evidently intended | confidence | as-written member | corrected member |
|---|---|---|---|---|---|---|
| src/vec3.rs:45 | third component of `cross` is `x*y' - y - x'` | `(1,2,3) × (4,5,6)` gives `(-3,6,-1)`, whose dot with `(1,2,3)` is 6 | `x*y' - y*x'`, orthogonal to both operands | high; not executed | Vectors.CrossNotOrthogonal | Vectors.CrossStandard |
| src/newtypes/color.rs:16 | the third clause checks `x` again, so `z` is never checked | `(0, 0, 300)` is accepted and displays green as 300 | check `z` like `x` and `y` | high; not executed | Colors.ZChannelNeverChecked | Colors.CheckedDisplayFitsEightBits |
| src/newtypes/color.rs:9 | the upper bound 256 is inclusive | `(256, 0, 0)` is accepted and displays red as 256, despite the message "between 0 and 255" | channels in [0, 256), so that each truncates to 0..=255 | medium; not executed | Colors.ChannelOf256Accepted | Colors.NewFromVec3Checked |
