/** The three-component vector every geometric type is built on (src/vec3.rs).
    Each `f32` component is read as an exact real. */
module Vectors {
  import Distances
  import opened RealArith

  /** The `[f32; 3]` a vector wraps. */
  type Array3 = s: seq<real> | |s| == 3 witness [0.0, 0.0, 0.0]

  datatype Vec3 = Vec3(components: Array3)

  function X(v: Vec3): real { v.components[0] }
  function Y(v: Vec3): real { v.components[1] }
  function Z(v: Vec3): real { v.components[2] }

  /** Builds a vector from three reals (a test and proof convenience). */
  function Of(x: real, y: real, z: real): Vec3
  {
    Vec3([x, y, z])
  }

  predicate IsZero(v: Vec3)
  {
    X(v) == 0.0 && Y(v) == 0.0 && Z(v) == 0.0
  }

  predicate HasNoZeroComponent(v: Vec3)
  {
    X(v) != 0.0 && Y(v) != 0.0 && Z(v) != 0.0
  }

  // ---------------------------------------------------------------
  // Binary operators (pure)
  // ---------------------------------------------------------------

  /** `Add for Vec3`: the componentwise sum. */
  function Add(a: Vec3, rhs: Vec3): (r: Vec3)
    ensures X(r) == X(a) + X(rhs) && Y(r) == Y(a) + Y(rhs) && Z(r) == Z(a) + Z(rhs)
  {
    Vec3([X(a) + X(rhs), Y(a) + Y(rhs), Z(a) + Z(rhs)])
  }

  /** `Sub for Vec3`: the componentwise difference. */
  function Sub(a: Vec3, rhs: Vec3): (r: Vec3)
    ensures X(r) == X(a) - X(rhs) && Y(r) == Y(a) - Y(rhs) && Z(r) == Z(a) - Z(rhs)
  {
    Vec3([X(a) - X(rhs), Y(a) - Y(rhs), Z(a) - Z(rhs)])
  }

  /** `Mul for Vec3`: the componentwise product. */
  function Mul(a: Vec3, rhs: Vec3): (r: Vec3)
    ensures X(r) == X(a) * X(rhs) && Y(r) == Y(a) * Y(rhs) && Z(r) == Z(a) * Z(rhs)
  {
    Vec3([X(a) * X(rhs), Y(a) * Y(rhs), Z(a) * Z(rhs)])
  }

  /** `Mul<f32> for Vec3`. */
  function MulScalar(a: Vec3, rhs: real): (r: Vec3)
    ensures X(r) == X(a) * rhs && Y(r) == Y(a) * rhs && Z(r) == Z(a) * rhs
  {
    Vec3([X(a) * rhs, Y(a) * rhs, Z(a) * rhs])
  }

  /** `Mul<Vec3> for f32`, defined by swapping the operands. */
  function ScalarMul(s: real, rhs: Vec3): (r: Vec3)
    ensures X(r) == s * X(rhs) && Y(r) == s * Y(rhs) && Z(r) == s * Z(rhs)
  {
    MulScalar(rhs, s)
  }

  /** `Div for Vec3`: the componentwise quotient (division by zero is left out). */
  function Div(a: Vec3, rhs: Vec3): (r: Vec3)
    requires HasNoZeroComponent(rhs)
    ensures X(r) * X(rhs) == X(a) && Y(r) * Y(rhs) == Y(a) && Z(r) * Z(rhs) == Z(a)
  {
    Vec3([X(a) / X(rhs), Y(a) / Y(rhs), Z(a) / Z(rhs)])
  }

  /** `Div<f32> for Vec3`. */
  function DivScalar(a: Vec3, rhs: real): (r: Vec3)
    requires rhs != 0.0
    ensures X(r) * rhs == X(a) && Y(r) * rhs == Y(a) && Z(r) * rhs == Z(a)
  {
    Vec3([X(a) / rhs, Y(a) / rhs, Z(a) / rhs])
  }

  /** `Div<Vec3> for f32`: `s` divided by each component. */
  function ScalarDiv(s: real, rhs: Vec3): (r: Vec3)
    requires HasNoZeroComponent(rhs)
    ensures X(r) * X(rhs) == s && Y(r) * Y(rhs) == s && Z(r) * Z(rhs) == s
  {
    Vec3([s / X(rhs), s / Y(rhs), s / Z(rhs)])
  }

  // ---------------------------------------------------------------
  // Products and length
  // ---------------------------------------------------------------

  function Dot(a: Vec3, rhs: Vec3): real
  {
    X(a) * X(rhs) + Y(a) * Y(rhs) + Z(a) * Z(rhs)
  }

  /** `cross` as written: the third component is `x*y' - y - x'`,
      not the standard `x*y' - y*x'` (see `CrossStandard`). */
  function Cross(a: Vec3, rhs: Vec3): Vec3
  {
    Vec3([
      Y(a) * Z(rhs) - Z(a) * Y(rhs),
      Z(a) * X(rhs) - X(a) * Z(rhs),
      X(a) * Y(rhs) - Y(a) - X(rhs)
    ])
  }

  /** The scalar triple product `a · (b × c)`, written as a determinant. */
  function Triple(a: Vec3, b: Vec3, c: Vec3): real
  {
    X(a) * (Y(b) * Z(c) - Z(b) * Y(c))
      - Y(a) * (X(b) * Z(c) - Z(b) * X(c))
      + Z(a) * (X(b) * Y(c) - Y(b) * X(c))
  }

  /** The right-handed cross product the third component evidently meant.
      Orthogonality, the Lagrange identity for its squared length and the
      positive orientation of `(a, rhs, r)` together determine it. */
  function CrossStandard(a: Vec3, rhs: Vec3): (r: Vec3)
    ensures Dot(r, a) == 0.0 && Dot(r, rhs) == 0.0
    ensures Dot(r, r) == Dot(a, a) * Dot(rhs, rhs) - Square(Dot(a, rhs))
    ensures Triple(a, rhs, r) == Dot(r, r)
    ensures X(r) == X(Cross(a, rhs)) && Y(r) == Y(Cross(a, rhs))
  {
    var a1, a2, a3, b1, b2, b3 := X(a), Y(a), Z(a), X(rhs), Y(rhs), Z(rhs);
    var r := Vec3([a2 * b3 - a3 * b2, a3 * b1 - a1 * b3, a1 * b2 - a2 * b1]);
    Lagrange(a1, a2, a3, b1, b2, b3);
    assert Dot(a, a) == a1 * a1 + a2 * a2 + a3 * a3;
    assert Dot(rhs, rhs) == b1 * b1 + b2 * b2 + b3 * b3;
    assert Dot(a, rhs) == a1 * b1 + a2 * b2 + a3 * b3;
    r
  }

  /** A vector's dot product with itself is the sum of its squared
      components; it is never negative, and is positive unless the vector is
      zero. */
  lemma DotSelfIsSumOfSquares(v: Vec3)
    ensures Dot(v, v) == Square(X(v)) + Square(Y(v)) + Square(Z(v))
    ensures Dot(v, v) >= 0.0
    ensures !IsZero(v) ==> Dot(v, v) > 0.0
  {
    SumOfSquaresNonNegative(X(v), Y(v), Z(v));
    if !IsZero(v) {
      SumOfSquaresPositive(X(v), Y(v), Z(v));
    }
  }

  /** `length_squared`: routed through `Distance::try_from_const(..).expect(..)`;
      the sum of squares is never negative, so the `expect` never fires. */
  function LengthSquared(v: Vec3): (r: Distances.Distance)
    ensures r as real == Dot(v, v)
    ensures IsZero(v) ==> r as real == 0.0
    ensures !IsZero(v) ==> r as real > 0.0
  {
    DotSelfIsSumOfSquares(v);
    var squared := Distances.TryFromConst(X(v) * X(v) + Y(v) * Y(v) + Z(v) * Z(v));
    squared.value
  }

  /** `length`. The platform square root `f32::sqrt` is not part of this
      model: the caller supplies its result `root`. */
  function Length(v: Vec3, root: real): (r: Distances.Distance)
    requires IsSquareRoot(LengthSquared(v) as real, root)
    ensures Square(r as real) == Dot(v, v)
    ensures IsZero(v) ==> r as real == 0.0
    ensures !IsZero(v) ==> r as real > 0.0
  {
    if IsZero(v) then
      RootOfZero(LengthSquared(v) as real, root);
      Distances.TryFromConst(root).value
    else
      RootOfPositive(LengthSquared(v) as real, root);
      Distances.TryFromConst(root).value
  }

  /** `unit_vector`: the vector divided by its own length, so it has length 1
      and scaling it back by the length gives the vector again. The zero
      vector is excluded: its division by zero is left out. */
  function UnitVector(v: Vec3, root: real): (r: Vec3)
    requires IsSquareRoot(LengthSquared(v) as real, root)
    requires !IsZero(v)
    ensures LengthSquared(r) as real == 1.0
    ensures MulScalar(r, root) == v
  {
    var len := Length(v, root) as real;
    DotSelfIsSumOfSquares(v);
    UnitScaling(X(v), Y(v), Z(v), len);
    var r := DivScalar(v, len);
    DotSelfIsSumOfSquares(r);
    SameComponents(MulScalar(r, len), v);
    r
  }

  /** The length does not depend on which square root the caller supplies. */
  lemma LengthIsUnique(v: Vec3, root1: real, root2: real)
    requires IsSquareRoot(LengthSquared(v) as real, root1)
    requires IsSquareRoot(LengthSquared(v) as real, root2)
    ensures Length(v, root1) == Length(v, root2)
  {
    SquareRootUnique(LengthSquared(v) as real, root1, root2);
  }

  // ---------------------------------------------------------------
  // Laws relating the operators
  // ---------------------------------------------------------------

  /** Vectors with the same three components are equal. */
  lemma SameComponents(a: Vec3, b: Vec3)
    requires X(a) == X(b) && Y(a) == Y(b) && Z(a) == Z(b)
    ensures a == b
  {
    assert a.components == b.components;
  }

  /** The accessors read back components 0, 1 and 2 of the constructor array. */
  lemma AccessorsReadComponents(input: Array3)
    ensures X(Vec3(input)) == input[0] && Y(Vec3(input)) == input[1] && Z(Vec3(input)) == input[2]
  {
  }

  /** Subtraction undoes addition. */
  lemma AddThenSubRestores(a: Vec3, b: Vec3)
    ensures Sub(Add(a, b), b) == a
  {
    assert Sub(Add(a, b), b).components == a.components;
  }

  /** Scaling from the left and from the right agree. */
  lemma ScalarMulCommutes(s: real, v: Vec3)
    ensures ScalarMul(s, v) == MulScalar(v, s)
    ensures X(ScalarMul(s, v)) == s * X(v) && Y(ScalarMul(s, v)) == s * Y(v) && Z(ScalarMul(s, v)) == s * Z(v)
  {
  }

  /** Division undoes multiplication, componentwise and by a scalar. */
  lemma DivUndoesMul(a: Vec3, b: Vec3, s: real)
    requires HasNoZeroComponent(b) && s != 0.0
    ensures Div(Mul(a, b), b) == a
    ensures DivScalar(MulScalar(a, s), s) == a
  {
    MulDivCancel(X(a), X(b));
    MulDivCancel(Y(a), Y(b));
    MulDivCancel(Z(a), Z(b));
    SameComponents(Div(Mul(a, b), b), a);
    MulDivCancel(X(a), s);
    MulDivCancel(Y(a), s);
    MulDivCancel(Z(a), s);
    SameComponents(DivScalar(MulScalar(a, s), s), a);
  }

  /** `s / v` is the componentwise reciprocal of `v` scaled by `s`. */
  lemma ScalarDivIsScaledReciprocal(s: real, v: Vec3)
    requires HasNoZeroComponent(v)
    ensures ScalarDiv(s, v) == MulScalar(ScalarDiv(1.0, v), s)
    ensures Mul(v, ScalarDiv(1.0, v)) == Of(1.0, 1.0, 1.0)
  {
    DivByReciprocal(s, X(v));
    DivByReciprocal(s, Y(v));
    DivByReciprocal(s, Z(v));
    SameComponents(ScalarDiv(s, v), MulScalar(ScalarDiv(1.0, v), s));
    SameComponents(Mul(v, ScalarDiv(1.0, v)), Of(1.0, 1.0, 1.0));
  }

  /** The dot product is symmetric and a vector's dot with itself is its
      squared length. */
  lemma DotSymmetric(a: Vec3, b: Vec3)
    ensures Dot(a, b) == Dot(b, a)
    ensures Dot(a, a) == LengthSquared(a) as real
  {
  }

  /** As written, `cross` is not orthogonal to its operands: the unit test's
      operands give (-3, 6, -1), whose dot with (1, 2, 3) is 6. */
  lemma CrossNotOrthogonal()
    ensures Cross(Of(1.0, 2.0, 3.0), Of(4.0, 5.0, 6.0)) == Of(-3.0, 6.0, -1.0)
    ensures Dot(Cross(Of(1.0, 2.0, 3.0), Of(4.0, 5.0, 6.0)), Of(1.0, 2.0, 3.0)) == 6.0
    ensures CrossStandard(Of(1.0, 2.0, 3.0), Of(4.0, 5.0, 6.0)) == Of(-3.0, 6.0, -3.0)
  {
  }

  /** The unit tests of the pure operators and products, over exact reals. */
  lemma OperatorExamples()
    ensures Add(Of(1.0, -1.0, 1.0), Of(-1.0, -1.0, 1.0)) == Of(0.0, -2.0, 2.0)
    ensures Sub(Of(1.0, -1.0, 1.0), Of(-1.0, -1.0, 1.0)) == Of(2.0, 0.0, 0.0)
    ensures Mul(Of(1.0, -2.0, 3.0), Of(-1.0, -2.0, 3.0)) == Of(-1.0, 4.0, 9.0)
    ensures MulScalar(Of(1.0, -2.0, 3.0), -2.0) == Of(-2.0, 4.0, -6.0)
    ensures ScalarMul(-2.0, Of(1.0, -2.0, 3.0)) == Of(-2.0, 4.0, -6.0)
    ensures Div(Of(1.0, -2.0, 3.0), Of(-0.5, -2.0, 1.0)) == Of(-2.0, 1.0, 3.0)
    ensures DivScalar(Of(1.0, -2.0, 3.0), -2.0) == Of(-0.5, 1.0, -1.5)
    ensures ScalarDiv(-2.0, Of(1.0, -2.0, 3.0)) == Of(-2.0, 1.0, -(2.0 / 3.0))
    ensures Dot(Of(1.0, 2.0, 3.0), Of(3.0, 2.0, 1.0)) == 10.0
  {
  }

  /** The length tests: (3, 4, 0) has squared length 25 and length 5, and
      (4, 0, 0) normalises to (1, 0, 0). */
  lemma LengthExamples()
    ensures LengthSquared(Of(3.0, 4.0, 0.0)) as real == 25.0
    ensures Length(Of(3.0, 4.0, 0.0), 5.0) as real == 5.0
    ensures UnitVector(Of(4.0, 0.0, 0.0), 4.0) == Of(1.0, 0.0, 0.0)
  {
    assert DivScalar(Of(4.0, 0.0, 0.0), 4.0).components == [1.0, 0.0, 0.0];
  }

  // ---------------------------------------------------------------
  // In-place operators: `self.0[i] = ...`, one element at a time, on the
  // vector's backing array
  // ---------------------------------------------------------------

  method AddAssign(self: array<real>, rhs: Vec3)
    requires self.Length == 3
    modifies self
    ensures self[..] == Add(Vec3(old(self[..])), rhs).components
  {
    self[0] := self[0] + X(rhs);
    self[1] := self[1] + Y(rhs);
    self[2] := self[2] + Z(rhs);
  }

  method SubAssign(self: array<real>, rhs: Vec3)
    requires self.Length == 3
    modifies self
    ensures self[..] == Sub(Vec3(old(self[..])), rhs).components
  {
    self[0] := self[0] - X(rhs);
    self[1] := self[1] - Y(rhs);
    self[2] := self[2] - Z(rhs);
  }

  method MulAssign(self: array<real>, rhs: Vec3)
    requires self.Length == 3
    modifies self
    ensures self[..] == Mul(Vec3(old(self[..])), rhs).components
  {
    ghost var expected := Mul(Vec3(self[..]), rhs).components;
    self[0] := self[0] * X(rhs);
    self[1] := self[1] * Y(rhs);
    self[2] := self[2] * Z(rhs);
    assert self[0] == expected[0] && self[1] == expected[1] && self[2] == expected[2];
    assert self[..] == expected;
  }

  method MulAssignScalar(self: array<real>, rhs: real)
    requires self.Length == 3
    modifies self
    ensures self[..] == MulScalar(Vec3(old(self[..])), rhs).components
  {
    ghost var expected := MulScalar(Vec3(self[..]), rhs).components;
    self[0] := self[0] * rhs;
    self[1] := self[1] * rhs;
    self[2] := self[2] * rhs;
    assert self[0] == expected[0] && self[1] == expected[1] && self[2] == expected[2];
    assert self[..] == expected;
  }

  method DivAssign(self: array<real>, rhs: Vec3)
    requires self.Length == 3
    requires HasNoZeroComponent(rhs)
    modifies self
    ensures self[..] == Div(Vec3(old(self[..])), rhs).components
  {
    self[0] := self[0] / X(rhs);
    self[1] := self[1] / Y(rhs);
    self[2] := self[2] / Z(rhs);
  }

  method DivAssignScalar(self: array<real>, rhs: real)
    requires self.Length == 3
    requires rhs != 0.0
    modifies self
    ensures self[..] == DivScalar(Vec3(old(self[..])), rhs).components
  {
    self[0] := self[0] / rhs;
    self[1] := self[1] / rhs;
    self[2] := self[2] / rhs;
  }

  /** The unit tests of the in-place sums. */
  method InPlaceSumExamples()
  {
    var v := new real[3];
    v[0], v[1], v[2] := 1.0, -1.0, 1.0;
    AddAssign(v, Of(-1.0, -1.0, 1.0));
    assert v[..] == [0.0, -2.0, 2.0];

    v[0], v[1], v[2] := 1.0, -1.0, 1.0;
    SubAssign(v, Of(-1.0, -1.0, 1.0));
    assert v[..] == [2.0, 0.0, 0.0];
  }

  /** The unit tests of the in-place products. */
  method InPlaceProductExamples()
  {
    var v := new real[3];
    v[0], v[1], v[2] := 1.0, -2.0, 3.0;
    MulAssign(v, Of(-1.0, -2.0, 3.0));
    assert v[..] == [-1.0, 4.0, 9.0];

    v[0], v[1], v[2] := 1.0, -2.0, 3.0;
    MulAssignScalar(v, -2.0);
    assert v[..] == [-2.0, 4.0, -6.0];
  }

  /** The unit tests of the in-place quotients. */
  method InPlaceQuotientExamples()
  {
    var v := new real[3];
    v[0], v[1], v[2] := 1.0, -2.0, 3.0;
    DivAssign(v, Of(-0.5, -2.0, 1.0));
    assert v[..] == [-2.0, 1.0, 3.0];

    v[0], v[1], v[2] := 1.0, -2.0, 3.0;
    DivAssignScalar(v, -2.0);
    assert v[..] == [-0.5, 1.0, -1.5];
  }
}
