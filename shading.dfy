/** The colour a ray sees of the one sphere (`Ray::find_color` in src/ray.rs).
    The colour type `Rgb` and its constructors are kept symbolic: a value
    records how the colour was built, not the channels it ends up with. */
module Shading {
  import opened Wrappers
  import opened RealArith
  import Vectors
  import Directions
  import Percent
  import Rays
  import Spheres

  /** `Rgb::new`, `Rgb::new_from_percent`, `Rgb::white` and
      `blend_two_colors`, as uninterpreted terms. */
  datatype Rgb =
    | FromChannels(channels: Vectors.Array3)
    | FromPercent(percents: seq<Percent.Strict>)
    | White
    | Blend(base: Rgb, other: Rgb, weight: Percent.Strict)

  /** The message of the `expect` on the blend factor. */
  const INVALID_LERP_MESSAGE: string := "Must be a valid percent"

  function Red(): Rgb { FromChannels([255.0, 0.0, 0.0]) }

  /** The sky colour: 50 %, 70 % and 100 % of full red, green and blue. */
  function SkyBlue(): Rgb
  {
    FromPercent([Percent.New(0.5).value, Percent.New(0.7).value, Percent.New(1.0).value])
  }

  /** The blend factor of a missed ray: the height of its unit direction,
      mapped from [-1, 1] to [0, 1]. */
  function LerpOf(unit: Directions.Direction): real
  {
    0.5 * (Directions.Y(unit) + 1.0)
  }

  /** `find_color`. `root` stands for the square root of the squared length
      of the ray's direction. On a miss with zero direction the unit direction
      is 0/0, the blend factor is not a number and the `expect` panics; that
      path is the `Err` result. */
  function FindColor(ray: Rays.Ray, sphere: Spheres.Sphere, root: real): (r: Result<Rgb, string>)
    requires IsSquareRoot(Directions.LengthSquared(Rays.Direction(ray)), root)
    ensures Spheres.DoesRayHitSphere(sphere, ray) ==> r == Ok(Red())
    ensures !Spheres.DoesRayHitSphere(sphere, ray) ==>
      (r.Err? <==> Vectors.IsZero(Rays.Direction(ray).inner))
    ensures r.Err? ==> r.error == INVALID_LERP_MESSAGE
    ensures !Spheres.DoesRayHitSphere(sphere, ray) && r.Ok? ==>
      && r.value.Blend?
      && r.value.base == SkyBlue()
      && r.value.other == White
      && Percent.IsStrictPercentValid(r.value.weight.raw)
      && r.value.weight.raw == LerpOf(Directions.UnitDirection(Rays.Direction(ray), root))
  {
    if Spheres.DoesRayHitSphere(sphere, ray) then
      Ok(Red())
    else if Vectors.IsZero(Rays.Direction(ray).inner) then
      Err(INVALID_LERP_MESSAGE)
    else
      var unit := Directions.UnitDirection(Rays.Direction(ray), root);
      Directions.UnitComponentsBounded(unit);
      var colorLerp := Percent.New(LerpOf(unit)).value;
      Ok(Blend(SkyBlue(), White, colorLerp))
  }

  /** Which square root is supplied does not change the colour. */
  lemma FindColorIndependentOfRoot(ray: Rays.Ray, sphere: Spheres.Sphere, root1: real, root2: real)
    requires IsSquareRoot(Directions.LengthSquared(Rays.Direction(ray)), root1)
    requires IsSquareRoot(Directions.LengthSquared(Rays.Direction(ray)), root2)
    ensures FindColor(ray, sphere, root1) == FindColor(ray, sphere, root2)
  {
    SquareRootUnique(Directions.LengthSquared(Rays.Direction(ray)), root1, root2);
  }

  /** A ray with a non-zero direction always gets a colour: red on a hit,
      otherwise the sky blended towards white by a factor in [0, 1]. */
  lemma MovingRayAlwaysColored(ray: Rays.Ray, sphere: Spheres.Sphere, root: real)
    requires IsSquareRoot(Directions.LengthSquared(Rays.Direction(ray)), root)
    requires !Vectors.IsZero(Rays.Direction(ray).inner)
    ensures FindColor(ray, sphere, root).Ok?
    ensures FindColor(ray, sphere, root) == Ok(Red()) || FindColor(ray, sphere, root).value.Blend?
  {
  }

  /** A ray with zero direction never hits, so its blend factor is not a
      number and the colour is never found. */
  lemma ZeroDirectionPanics(ray: Rays.Ray, sphere: Spheres.Sphere, root: real)
    requires IsSquareRoot(Directions.LengthSquared(Rays.Direction(ray)), root)
    requires Vectors.IsZero(Rays.Direction(ray).inner)
    ensures FindColor(ray, sphere, root) == Err(INVALID_LERP_MESSAGE)
  {
    Spheres.ZeroDirectionMisses(sphere, ray);
  }

  /** For a sphere the ray misses, a ray pointing straight up is blended with
      weight 1 and one pointing straight down with weight 0. */
  lemma LerpExtremes(sphere: Spheres.Sphere, ray: Rays.Ray)
    requires !Spheres.DoesRayHitSphere(sphere, ray)
    ensures Directions.Y(Rays.Direction(ray)) == 2.0 && Directions.X(Rays.Direction(ray)) == 0.0
            && Directions.Z(Rays.Direction(ray)) == 0.0
            ==> FindColor(ray, sphere, 2.0) == Ok(Blend(SkyBlue(), White, Percent.Strict(1.0)))
    ensures Directions.Y(Rays.Direction(ray)) == -2.0 && Directions.X(Rays.Direction(ray)) == 0.0
            && Directions.Z(Rays.Direction(ray)) == 0.0
            ==> FindColor(ray, sphere, 2.0) == Ok(Blend(SkyBlue(), White, Percent.Strict(0.0)))
  {
    var d := Rays.Direction(ray);
    if Directions.X(d) == 0.0 && Directions.Z(d) == 0.0 && (Directions.Y(d) == 2.0 || Directions.Y(d) == -2.0) {
      Vectors.DotSelfIsSumOfSquares(d.inner);
      assert IsSquareRoot(Directions.LengthSquared(d), 2.0);
      var unit := Directions.UnitDirection(d, 2.0);
      assert Directions.MulScalar(unit, 2.0) == d;
      assert Directions.Y(unit) * 2.0 == Directions.Y(d);
    }
  }
}
