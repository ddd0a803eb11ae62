/** A direction in space: a `Vec3` under another name (src/newtypes/direction.rs),
    together with the conversions between points and directions. */
module Directions {
  import Vectors
  import Points
  import opened RealArith

  datatype Direction = Direction(inner: Vectors.Vec3)

  function FromVec3Const(input: Vectors.Vec3): (r: Direction)
    ensures r.inner == input
  {
    Direction(input)
  }

  function FromF32ArrayConst(input: Vectors.Array3): (r: Direction)
    ensures X(r) == input[0] && Y(r) == input[1] && Z(r) == input[2]
  {
    FromVec3Const(Vectors.Vec3(input))
  }

  function X(d: Direction): real { Vectors.X(d.inner) }
  function Y(d: Direction): real { Vectors.Y(d.inner) }
  function Z(d: Direction): real { Vectors.Z(d.inner) }

  /** The components of a direction, as the array `[x, y, z]`. */
  function Components(d: Direction): Vectors.Array3
  {
    [X(d), Y(d), Z(d)]
  }

  /** The squared length of a direction. */
  function LengthSquared(d: Direction): real
  {
    Vectors.LengthSquared(d.inner) as real
  }

  /** `unit_direction`: the direction scaled to length one. `root` stands for
      the square root of the squared length. The wrapped vector has squared
      length one and points the same way: scaling it back by the length gives
      the original direction. */
  function UnitDirection(d: Direction, root: real): (r: Direction)
    requires IsSquareRoot(LengthSquared(d), root)
    requires !Vectors.IsZero(d.inner)
    ensures LengthSquared(r) == 1.0
    ensures MulScalar(r, root) == d
  {
    var u := Vectors.UnitVector(d.inner, root);
    Vectors.ScalarMulCommutes(root, u);
    FromVec3Const(u)
  }

  /** `dot`: the other direction is rebuilt from its accessors. */
  function Dot(d: Direction, rhs: Direction): real
  {
    Vectors.Dot(d.inner, Vectors.Vec3(Components(rhs)))
  }

  /** `Mul<f32> for Direction`: the scalar multiplies the wrapped vector from
      the left. */
  function MulScalar(d: Direction, rhs: real): (r: Direction)
    ensures X(r) == rhs * X(d) && Y(r) == rhs * Y(d) && Z(r) == rhs * Z(d)
  {
    Vectors.ScalarMulCommutes(rhs, d.inner);
    FromVec3Const(Vectors.ScalarMul(rhs, d.inner))
  }

  /** `Mul<Direction> for f32`: the product with the operands swapped. */
  function ScalarMul(s: real, rhs: Direction): (r: Direction)
    ensures X(r) == s * X(rhs) && Y(r) == s * Y(rhs) && Z(r) == s * Z(rhs)
  {
    MulScalar(rhs, s)
  }

  /** `Div<f32> for Direction`. */
  function DivScalar(d: Direction, rhs: real): (r: Direction)
    requires rhs != 0.0
    ensures MulScalar(r, rhs) == d
  {
    var q := Vectors.DivScalar(d.inner, rhs);
    MulScalarUndoesDiv(d, rhs);
    FromVec3Const(q)
  }

  /** `Div<Direction> for f32`: the scalar divided by each component. */
  function ScalarDiv(s: real, rhs: Direction): (r: Direction)
    requires Vectors.HasNoZeroComponent(rhs.inner)
    ensures X(r) * X(rhs) == s && Y(r) * Y(rhs) == s && Z(r) * Z(rhs) == s
  {
    FromVec3Const(Vectors.ScalarDiv(s, Vectors.Vec3(Components(rhs))))
  }

  /** `From<Point> for Direction`. */
  function FromPoint(p: Points.Point): (r: Direction)
    ensures X(r) == Points.X(p) && Y(r) == Points.Y(p) && Z(r) == Points.Z(p)
  {
    FromF32ArrayConst([Points.X(p), Points.Y(p), Points.Z(p)])
  }

  /** `From<Direction> for Point`. */
  function ToPoint(d: Direction): (r: Points.Point)
    ensures Points.X(r) == X(d) && Points.Y(r) == Y(d) && Points.Z(r) == Z(d)
  {
    Points.FromF32ArrayConst([X(d), Y(d), Z(d)])
  }

  /** Directions with the same three components are equal. */
  lemma SameDirection(d: Direction, e: Direction)
    requires X(d) == X(e) && Y(d) == Y(e) && Z(d) == Z(e)
    ensures d == e
  {
    Vectors.SameComponents(d.inner, e.inner);
  }

  lemma MulScalarUndoesDiv(d: Direction, s: real)
    requires s != 0.0
    ensures MulScalar(FromVec3Const(Vectors.DivScalar(d.inner, s)), s) == d
  {
    var q := FromVec3Const(Vectors.DivScalar(d.inner, s));
    MulDivCancel(X(d) / s, s);
    MulDivCancel(Y(d) / s, s);
    MulDivCancel(Z(d) / s, s);
    assert X(q) == X(d) / s && Y(q) == Y(d) / s && Z(q) == Z(d) / s;
    SameDirection(MulScalar(q, s), d);
  }

  /** Converting a point to a direction and back gives the same point, and the
      other way round: the two `From` implementations are inverse. */
  lemma PointRoundTrip(p: Points.Point, d: Direction)
    ensures ToPoint(FromPoint(p)) == p
    ensures FromPoint(ToPoint(d)) == d
  {
    Points.SamePoint(ToPoint(FromPoint(p)), p);
    SameDirection(FromPoint(ToPoint(d)), d);
  }

  /** `dot` on directions is the dot product of the wrapped vectors; it is
      symmetric and a direction's dot product with itself is its squared
      length. */
  lemma DotLaws(d: Direction, e: Direction)
    ensures Dot(d, e) == Vectors.Dot(d.inner, e.inner)
    ensures Dot(d, e) == Dot(e, d)
    ensures Dot(d, d) == LengthSquared(d)
  {
    Vectors.SameComponents(Vectors.Vec3(Components(e)), e.inner);
    Vectors.SameComponents(Vectors.Vec3(Components(d)), d.inner);
    Vectors.DotSymmetric(d.inner, e.inner);
  }

  /** Both multiplication operators give the same direction, whichever side
      the scalar is written on, and scaling by one changes nothing. */
  lemma ScalingLaws(d: Direction, s: real)
    ensures ScalarMul(s, d) == MulScalar(d, s)
    ensures MulScalar(d, 1.0) == d
  {
    SameDirection(MulScalar(d, 1.0), d);
  }

  /** A unit direction has components between -1 and 1. */
  lemma UnitComponentsBounded(d: Direction)
    requires LengthSquared(d) == 1.0
    ensures -1.0 <= X(d) <= 1.0 && -1.0 <= Y(d) <= 1.0 && -1.0 <= Z(d) <= 1.0
  {
    Vectors.DotSelfIsSumOfSquares(d.inner);
    SquareNonNegative(X(d));
    SquareNonNegative(Y(d));
    SquareNonNegative(Z(d));
    SquareAtMostOne(X(d));
    SquareAtMostOne(Y(d));
    SquareAtMostOne(Z(d));
  }

  /** A `let mut` direction: `*=` reassigns the wrapped vector. */
  class DirectionVar {
    var value: Direction

    constructor(initial: Direction)
      ensures value == initial
    {
      value := initial;
    }

    method MulAssign(rhs: real)
      modifies this
      ensures value == MulScalar(old(value), rhs)
    {
      value := Direction(Vectors.ScalarMul(rhs, value.inner));
    }
  }

  /** `*=` agrees with `*`. */
  method MulAssignExample()
  {
    var d := new DirectionVar(FromF32ArrayConst([1.0, -2.0, 3.0]));
    d.MulAssign(-2.0);
    SameDirection(d.value, FromF32ArrayConst([-2.0, 4.0, -6.0]));
    assert d.value == FromF32ArrayConst([-2.0, 4.0, -6.0]);
  }
}
