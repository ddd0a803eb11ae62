/** A half-line from an origin along a direction (src/ray.rs). The colour a
    ray sees is in module Shading. */
module Rays {
  import Points
  import Directions

  datatype Ray = Ray(origin: Points.Point, direction: Directions.Direction)

  function New(origin: Points.Point, direction: Directions.Direction): (r: Ray)
    ensures Origin(r) == origin && Direction(r) == direction
  {
    Ray(origin, direction)
  }

  function Origin(ray: Ray): Points.Point { ray.origin }

  function Direction(ray: Ray): Directions.Direction { ray.direction }

  /** `_at`: the point reached after travelling `distance` times the
      direction from the origin. */
  function At(ray: Ray, distance: real): (r: Points.Point)
    ensures Points.X(r) == Points.X(Origin(ray)) + distance * Directions.X(Direction(ray))
    ensures Points.Y(r) == Points.Y(Origin(ray)) + distance * Directions.Y(Direction(ray))
    ensures Points.Z(r) == Points.Z(Origin(ray)) + distance * Directions.Z(Direction(ray))
  {
    Points.Add(ray.origin, Directions.ToPoint(Directions.ScalarMul(distance, ray.direction)))
  }

  /** The ray starts at its origin, and the offset from the origin grows
      linearly with the distance travelled. */
  lemma AtLaws(ray: Ray, s: real, t: real)
    ensures At(ray, 0.0) == Origin(ray)
    ensures Points.Sub(At(ray, s + t), At(ray, s))
         == Directions.ToPoint(Directions.ScalarMul(t, Direction(ray)))
  {
    Points.SamePoint(At(ray, 0.0), Origin(ray));
    var d := Direction(ray);
    var lhs := Points.Sub(At(ray, s + t), At(ray, s));
    var rhs := Directions.ToPoint(Directions.ScalarMul(t, d));
    assert Points.X(lhs) == (s + t) * Directions.X(d) - s * Directions.X(d);
    assert Points.Y(lhs) == (s + t) * Directions.Y(d) - s * Directions.Y(d);
    assert Points.Z(lhs) == (s + t) * Directions.Z(d) - s * Directions.Z(d);
    Points.SamePoint(lhs, rhs);
  }
}
