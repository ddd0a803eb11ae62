/** A position in space: a `Vec3` under another name (src/newtypes/point.rs). */
module Points {
  import Vectors

  datatype Point = Point(inner: Vectors.Vec3)

  function FromVec3Const(input: Vectors.Vec3): (r: Point)
    ensures r.inner == input
  {
    Point(input)
  }

  function FromF32ArrayConst(input: Vectors.Array3): (r: Point)
    ensures X(r) == input[0] && Y(r) == input[1] && Z(r) == input[2]
  {
    FromVec3Const(Vectors.Vec3(input))
  }

  function X(p: Point): real { Vectors.X(p.inner) }
  function Y(p: Point): real { Vectors.Y(p.inner) }
  function Z(p: Point): real { Vectors.Z(p.inner) }

  /** The components of a point, as the array `[x, y, z]`. */
  function Components(p: Point): Vectors.Array3
  {
    [X(p), Y(p), Z(p)]
  }

  /** `Add for Point`: the other point is rebuilt from its accessors and added
      componentwise. */
  function Add(p: Point, rhs: Point): (r: Point)
    ensures X(r) == X(p) + X(rhs) && Y(r) == Y(p) + Y(rhs) && Z(r) == Z(p) + Z(rhs)
  {
    Point(Vectors.Add(p.inner, Vectors.Vec3(Components(rhs))))
  }

  /** `Sub for Point`: the difference of two points is again a point. */
  function Sub(p: Point, rhs: Point): (r: Point)
    ensures X(r) == X(p) - X(rhs) && Y(r) == Y(p) - Y(rhs) && Z(r) == Z(p) - Z(rhs)
  {
    Point(Vectors.Sub(p.inner, Vectors.Vec3(Components(rhs))))
  }

  /** `From<Vec3> for Point`. */
  function FromVec3(value: Vectors.Vec3): (r: Point)
    ensures X(r) == Vectors.X(value) && Y(r) == Vectors.Y(value) && Z(r) == Vectors.Z(value)
  {
    Point(value)
  }

  /** `From<[f32; 3]> for Point`. */
  function FromArray(value: Vectors.Array3): (r: Point)
    ensures Components(r) == value
  {
    Point(Vectors.Vec3(value))
  }

  /** Points with the same three components are equal. */
  lemma SamePoint(p: Point, q: Point)
    requires X(p) == X(q) && Y(p) == Y(q) && Z(p) == Z(q)
    ensures p == q
  {
    Vectors.SameComponents(p.inner, q.inner);
  }

  /** Subtracting the point that was added gives the original point back, and
      the other way round. */
  lemma AddThenSubRestores(p: Point, q: Point)
    ensures Sub(Add(p, q), q) == p
    ensures Add(Sub(p, q), q) == p
  {
    SamePoint(Sub(Add(p, q), q), p);
    SamePoint(Add(Sub(p, q), q), p);
  }

  /** The three constructors agree on an array. */
  lemma ConstructorsAgree(a: Vectors.Array3)
    ensures FromArray(a) == FromF32ArrayConst(a) == FromVec3(Vectors.Vec3(a))
  {
  }

  /** The unit tests' values for `+` and `-`. */
  lemma ArithmeticExamples()
    ensures Add(FromF32ArrayConst([1.0, -1.0, 1.0]), FromF32ArrayConst([-1.0, -1.0, 1.0]))
         == FromF32ArrayConst([0.0, -2.0, 2.0])
    ensures Sub(FromF32ArrayConst([1.0, -1.0, 1.0]), FromF32ArrayConst([-1.0, -1.0, 1.0]))
         == FromF32ArrayConst([2.0, 0.0, 0.0])
  {
    SamePoint(Add(FromF32ArrayConst([1.0, -1.0, 1.0]), FromF32ArrayConst([-1.0, -1.0, 1.0])),
              FromF32ArrayConst([0.0, -2.0, 2.0]));
    SamePoint(Sub(FromF32ArrayConst([1.0, -1.0, 1.0]), FromF32ArrayConst([-1.0, -1.0, 1.0])),
              FromF32ArrayConst([2.0, 0.0, 0.0]));
  }

  /** A `let mut` point: `+=` and `-=` reassign the wrapped vector. */
  class PointVar {
    var value: Point

    constructor(initial: Point)
      ensures value == initial
    {
      value := initial;
    }

    method AddAssign(rhs: Point)
      modifies this
      ensures value == Add(old(value), rhs)
    {
      value := Point(Vectors.Add(value.inner, Vectors.Vec3(Components(rhs))));
    }

    method SubAssign(rhs: Point)
      modifies this
      ensures value == Sub(old(value), rhs)
    {
      value := Point(Vectors.Sub(value.inner, Vectors.Vec3(Components(rhs))));
    }
  }

  /** The unit tests of `+=` and `-=`. */
  method AssignExamples()
  {
    var point := new PointVar(FromF32ArrayConst([1.0, -1.0, 1.0]));
    point.AddAssign(FromF32ArrayConst([-1.0, -1.0, 1.0]));
    ArithmeticExamples();
    assert point.value == FromF32ArrayConst([0.0, -2.0, 2.0]);

    point := new PointVar(FromF32ArrayConst([1.0, -1.0, 1.0]));
    point.SubAssign(FromF32ArrayConst([-1.0, -1.0, 1.0]));
    assert point.value == FromF32ArrayConst([2.0, 0.0, 0.0]);
  }
}
