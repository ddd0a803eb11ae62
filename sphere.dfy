/** A sphere and the ray–sphere hit test (src/sphere.rs). */
module Spheres {
  import Vectors
  import Points
  import Directions
  import Distances
  import Rays
  import opened RealArith

  datatype Sphere = Sphere(center: Points.Point, radius: Distances.Distance)

  function NewConst(center: Points.Point, radius: Distances.Distance): (r: Sphere)
    ensures Center(r) == center && Radius(r) == radius
  {
    Sphere(center, radius)
  }

  function Center(s: Sphere): Points.Point { s.center }

  function Radius(s: Sphere): Distances.Distance { s.radius }

  // ---------------------------------------------------------------
  // The hit test as written
  // ---------------------------------------------------------------

  /** `center_ray_offset`: the ray's origin relative to the centre. */
  function Offset(s: Sphere, ray: Rays.Ray): Directions.Direction
  {
    Directions.FromPoint(Points.Sub(Rays.Origin(ray), Center(s)))
  }

  function QuadA(ray: Rays.Ray): real
  {
    Directions.Dot(Rays.Direction(ray), Rays.Direction(ray))
  }

  function QuadB(s: Sphere, ray: Rays.Ray): real
  {
    2.0 * Directions.Dot(Offset(s, ray), Rays.Direction(ray))
  }

  function QuadC(s: Sphere, ray: Rays.Ray): real
  {
    Directions.Dot(Offset(s, ray), Offset(s, ray))
      - Distances.AsF32(Radius(s)) * Distances.AsF32(Radius(s))
  }

  function Discriminant(s: Sphere, ray: Rays.Ray): real
  {
    QuadB(s, ray) * QuadB(s, ray) - 4.0 * QuadA(ray) * QuadC(s, ray)
  }

  /** `does_ray_hit_sphere`: the discriminant is strictly positive. */
  predicate DoesRayHitSphere(s: Sphere, ray: Rays.Ray)
  {
    Discriminant(s, ray) > 0.0
  }

  // ---------------------------------------------------------------
  // Geometry the test is meant to decide
  // ---------------------------------------------------------------

  /** Squared Euclidean distance between two points. */
  function DistanceSquared(p: Points.Point, q: Points.Point): (r: real)
    ensures r >= 0.0
  {
    SumOfSquaresNonNegative(Points.X(p) - Points.X(q), Points.Y(p) - Points.Y(q), Points.Z(p) - Points.Z(q));
    Square(Points.X(p) - Points.X(q)) + Square(Points.Y(p) - Points.Y(q)) + Square(Points.Z(p) - Points.Z(q))
  }

  /** `p` lies strictly inside the sphere. */
  predicate StrictlyInside(s: Sphere, p: Points.Point)
  {
    DistanceSquared(p, Center(s)) < Square(Radius(s) as real)
  }

  /** The coefficients `a`, `b`, `c` are those of the squared distance from
      the centre to the point at parameter `t` on the ray, minus the squared
      radius. */
  lemma QuadraticAlongRay(s: Sphere, ray: Rays.Ray, t: real)
    ensures DistanceSquared(Rays.At(ray, t), Center(s)) - Square(Radius(s) as real)
         == Quadratic(QuadA(ray), QuadB(s, ray), QuadC(s, ray), t)
  {
    var d := Rays.Direction(ray);
    var o := Offset(s, ray);
    var p := Rays.At(ray, t);
    var c := Center(s);
    assert Points.X(p) - Points.X(c) == Directions.X(o) + t * Directions.X(d);
    assert Points.Y(p) - Points.Y(c) == Directions.Y(o) + t * Directions.Y(d);
    assert Points.Z(p) - Points.Z(c) == Directions.Z(o) + t * Directions.Z(d);
    Directions.DotLaws(d, d);
    Directions.DotLaws(o, d);
    Directions.DotLaws(o, o);
    Vectors.DotSelfIsSumOfSquares(d.inner);
    Vectors.DotSelfIsSumOfSquares(o.inner);
    SquaredDistanceAlongLine(Directions.X(o), Directions.Y(o), Directions.Z(o),
                             Directions.X(d), Directions.Y(d), Directions.Z(d),
                             t, Square(Radius(s) as real));
  }

  /** For a ray with a non-zero direction, the test says "hit" exactly when
      the line through the ray passes strictly inside the sphere. */
  lemma HitIffLinePassesInside(s: Sphere, ray: Rays.Ray)
    requires !Vectors.IsZero(Rays.Direction(ray).inner)
    ensures DoesRayHitSphere(s, ray) <==> exists t :: StrictlyInside(s, Rays.At(ray, t))
  {
    var a, b, c := QuadA(ray), QuadB(s, ray), QuadC(s, ray);
    Directions.DotLaws(Rays.Direction(ray), Rays.Direction(ray));
    Vectors.DotSelfIsSumOfSquares(Rays.Direction(ray).inner);
    assert a > 0.0;
    if DoesRayHitSphere(s, ray) {
      PositiveDiscriminantGivesNegativeValue(a, b, c);
      QuadraticAlongRay(s, ray, -b / (2.0 * a));
      assert StrictlyInside(s, Rays.At(ray, -b / (2.0 * a)));
    }
    if t :| StrictlyInside(s, Rays.At(ray, t)) {
      QuadraticAlongRay(s, ray, t);
      NegativeValueGivesPositiveDiscriminant(a, b, c, t);
    }
  }

  /** A ray with zero direction always misses: `a` and `b` are zero, so the
      discriminant is zero. */
  lemma ZeroDirectionMisses(s: Sphere, ray: Rays.Ray)
    requires Vectors.IsZero(Rays.Direction(ray).inner)
    ensures !DoesRayHitSphere(s, ray)
  {
    assert QuadA(ray) == 0.0;
    assert QuadB(s, ray) == 0.0;
  }

  /** A ray that starts strictly inside the sphere and moves hits it. */
  lemma InsideOriginHits(s: Sphere, ray: Rays.Ray)
    requires !Vectors.IsZero(Rays.Direction(ray).inner)
    requires StrictlyInside(s, Rays.Origin(ray))
    ensures DoesRayHitSphere(s, ray)
  {
    Rays.AtLaws(ray, 0.0, 0.0);
    assert StrictlyInside(s, Rays.At(ray, 0.0));
    HitIffLinePassesInside(s, ray);
  }

  /** A ray that only touches the sphere counts as a miss: this one meets the
      unit sphere around (0, 0, -1) at the single point (1, 0, -1). */
  lemma TangentRayMisses()
    ensures !DoesRayHitSphere(
      NewConst(Points.FromF32ArrayConst([0.0, 0.0, -1.0]), 1.0),
      Rays.New(Points.FromF32ArrayConst([1.0, 0.0, 0.0]), Directions.FromF32ArrayConst([0.0, 0.0, -1.0])))
    ensures DistanceSquared(
      Rays.At(Rays.New(Points.FromF32ArrayConst([1.0, 0.0, 0.0]), Directions.FromF32ArrayConst([0.0, 0.0, -1.0])), 1.0),
      Points.FromF32ArrayConst([0.0, 0.0, -1.0])) == 1.0
  {
  }

  /** The test is on the whole line, not the half-line ahead of the origin: a
      ray from the origin pointing away from the sphere of radius 0.5 around
      (0, 0, -1) is reported as a hit, although no point of the ray at a
      non-negative parameter is inside the sphere. */
  lemma RayPointingAwayStillHits()
    ensures DoesRayHitSphere(
      NewConst(Points.FromF32ArrayConst([0.0, 0.0, -1.0]), 0.5),
      Rays.New(Points.FromF32ArrayConst([0.0, 0.0, 0.0]), Directions.FromF32ArrayConst([0.0, 0.0, 1.0])))
    ensures forall t :: t >= 0.0 ==> !StrictlyInside(
      NewConst(Points.FromF32ArrayConst([0.0, 0.0, -1.0]), 0.5),
      Rays.At(Rays.New(Points.FromF32ArrayConst([0.0, 0.0, 0.0]), Directions.FromF32ArrayConst([0.0, 0.0, 1.0])), t))
  {
    var s := NewConst(Points.FromF32ArrayConst([0.0, 0.0, -1.0]), 0.5);
    var ray := Rays.New(Points.FromF32ArrayConst([0.0, 0.0, 0.0]), Directions.FromF32ArrayConst([0.0, 0.0, 1.0]));
    forall t | t >= 0.0
      ensures !StrictlyInside(s, Rays.At(ray, t))
    {
      var p := Rays.At(ray, t);
      SquareMonotone(1.0, t + 1.0);
      SquareNonNegative(Points.X(p));
      SquareNonNegative(Points.Y(p));
      assert Points.Z(p) - Points.Z(Center(s)) == t + 1.0;
    }
  }
}
