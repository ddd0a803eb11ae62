/** The camera: an image, one declared viewport side, a focal length and an
    origin, from which the viewport spans and its lower-left corner are
    derived (src/camera.rs). */
module Cameras {
  import opened Dimensions
  import Distances
  import Vectors
  import Points
  import Directions
  import Rays
  import Images

  /** The viewport side the camera was built from. */
  datatype WidthOrHeight = Height(height: Dimension) | Width(width: Dimension)

  datatype Camera = Camera(
    image: Images.Image,
    viewPortHeightOrWidth: WidthOrHeight,
    focalLength: Distances.Distance,
    origin: Points.Point)

  /** `_new_from_viewport_width`. */
  function NewFromViewportWidth(image: Images.Image, viewportWidth: Dimension,
                                focalLength: Distances.Distance, origin: Points.Point): (r: Camera)
    ensures ViewportWidth(r) == viewportWidth
    ensures IsTruncation(ToF32(viewportWidth) / Images.Value(Images.AspectRatio(image)), ViewportHeight(r))
    ensures FocalLength(r) == focalLength && Origin(r) == origin
  {
    Camera(image, Width(viewportWidth), focalLength, origin)
  }

  /** `new_from_viewport_height`. */
  function NewFromViewportHeight(image: Images.Image, viewportHeight: Dimension,
                                 focalLength: Distances.Distance, origin: Points.Point): (r: Camera)
    ensures ViewportHeight(r) == viewportHeight
    ensures IsTruncation(Images.Value(Images.AspectRatio(image)) * ToF32(viewportHeight), ViewportWidth(r))
    ensures FocalLength(r) == focalLength && Origin(r) == origin
  {
    Camera(image, Height(viewportHeight), focalLength, origin)
  }

  /** `viewport_width`: declared, or the declared height times the image's
      aspect ratio, truncated. */
  function ViewportWidth(camera: Camera): (r: Dimension)
    ensures camera.viewPortHeightOrWidth.Width? ==> r == camera.viewPortHeightOrWidth.width
    ensures camera.viewPortHeightOrWidth.Height? ==>
      IsTruncation(Images.Value(Images.AspectRatio(camera.image)) * ToF32(camera.viewPortHeightOrWidth.height), r)
  {
    match camera.viewPortHeightOrWidth
    case Height(height) => FromReal(Images.Value(Images.AspectRatio(camera.image)) * ToF32(height))
    case Width(width) => width
  }

  /** `viewport_height`: declared, or the declared width divided by the
      image's aspect ratio, truncated. */
  function ViewportHeight(camera: Camera): (r: Dimension)
    ensures camera.viewPortHeightOrWidth.Height? ==> r == camera.viewPortHeightOrWidth.height
    ensures camera.viewPortHeightOrWidth.Width? ==>
      IsTruncation(ToF32(camera.viewPortHeightOrWidth.width) / Images.Value(Images.AspectRatio(camera.image)), r)
  {
    match camera.viewPortHeightOrWidth
    case Height(height) => height
    case Width(width) => FromReal(ToF32(width) / Images.Value(Images.AspectRatio(camera.image)))
  }

  function Origin(camera: Camera): Points.Point { camera.origin }

  function FocalLength(camera: Camera): Distances.Distance { camera.focalLength }

  /** `horizontal`: the viewport's width along x. */
  function Horizontal(camera: Camera): (r: Directions.Direction)
    ensures Directions.X(r) == ToF32(ViewportWidth(camera)) && Directions.Y(r) == 0.0 && Directions.Z(r) == 0.0
  {
    Directions.FromF32ArrayConst([ToF32(ViewportWidth(camera)), 0.0, 0.0])
  }

  /** `vertical`: the viewport's height along y. */
  function Vertical(camera: Camera): (r: Directions.Direction)
    ensures Directions.X(r) == 0.0 && Directions.Y(r) == ToF32(ViewportHeight(camera)) && Directions.Z(r) == 0.0
  {
    Directions.FromF32ArrayConst([0.0, ToF32(ViewportHeight(camera)), 0.0])
  }

  /** Half of a direction: the components of `d / 2`. */
  lemma Halved(d: Directions.Direction)
    ensures Directions.X(Directions.DivScalar(d, 2.0)) == Directions.X(d) / 2.0
    ensures Directions.Y(Directions.DivScalar(d, 2.0)) == Directions.Y(d) / 2.0
    ensures Directions.Z(Directions.DivScalar(d, 2.0)) == Directions.Z(d) / 2.0
  {
    var h := Directions.DivScalar(d, 2.0);
    assert Directions.MulScalar(h, 2.0) == d;
  }

  /** `lower_left_corner`: half the horizontal and half the vertical span and
      the focal length back from the origin. */
  function LowerLeftCorner(camera: Camera): (r: Points.Point)
    ensures Points.X(r) == Points.X(Origin(camera)) - ToF32(ViewportWidth(camera)) / 2.0
    ensures Points.Y(r) == Points.Y(Origin(camera)) - ToF32(ViewportHeight(camera)) / 2.0
    ensures Points.Z(r) == Points.Z(Origin(camera)) - Distances.AsF32(FocalLength(camera))
  {
    Halved(Horizontal(camera));
    Halved(Vertical(camera));
    Points.Sub(
      Points.Sub(
        Points.Sub(Origin(camera), Directions.ToPoint(Directions.DivScalar(Horizontal(camera), 2.0))),
        Directions.ToPoint(Directions.DivScalar(Vertical(camera), 2.0))),
      Points.FromF32ArrayConst([0.0, 0.0, Distances.AsF32(FocalLength(camera))]))
  }

  /** The viewport point at fractions `u` across and `v` up, as the render
      loop builds it: `lower_left_corner + u*horizontal + v*vertical`. */
  function ViewportPoint(camera: Camera, u: real, v: real): (r: Points.Point)
    ensures Points.X(r) == Points.X(Origin(camera)) - ToF32(ViewportWidth(camera)) / 2.0 + u * ToF32(ViewportWidth(camera))
    ensures Points.Y(r) == Points.Y(Origin(camera)) - ToF32(ViewportHeight(camera)) / 2.0 + v * ToF32(ViewportHeight(camera))
    ensures Points.Z(r) == Points.Z(Origin(camera)) - Distances.AsF32(FocalLength(camera))
  {
    var across := Directions.ToPoint(Directions.ScalarMul(u, Horizontal(camera)));
    var up := Directions.ToPoint(Directions.ScalarMul(v, Vertical(camera)));
    assert Points.X(across) == u * ToF32(ViewportWidth(camera)) && Points.Y(across) == 0.0 && Points.Z(across) == 0.0;
    assert Points.X(up) == 0.0 && Points.Y(up) == v * ToF32(ViewportHeight(camera)) && Points.Z(up) == 0.0;
    Points.Add(Points.Add(LowerLeftCorner(camera), across), up)
  }

  /** The direction of the ray through that viewport point: from the origin
      to the point. */
  function PixelDirection(camera: Camera, u: real, v: real): (r: Directions.Direction)
    ensures Directions.X(r) == u * ToF32(ViewportWidth(camera)) - ToF32(ViewportWidth(camera)) / 2.0
    ensures Directions.Y(r) == v * ToF32(ViewportHeight(camera)) - ToF32(ViewportHeight(camera)) / 2.0
    ensures Directions.Z(r) == -Distances.AsF32(FocalLength(camera))
  {
    Directions.FromPoint(Points.Sub(ViewportPoint(camera, u, v), Origin(camera)))
  }

  /** The ray the render loop casts for one pixel. */
  function PixelRay(camera: Camera, u: real, v: real): (r: Rays.Ray)
    ensures Rays.Origin(r) == Origin(camera)
    ensures Rays.Direction(r) == PixelDirection(camera, u, v)
  {
    Rays.New(Origin(camera), PixelDirection(camera, u, v))
  }

  /** With a positive focal length every pixel ray has a non-zero direction,
      and the ray through fractions (u, v) reaches the viewport point at
      parameter one. */
  lemma PixelRaysReachViewport(camera: Camera, u: real, v: real)
    requires Distances.AsF32(FocalLength(camera)) > 0.0
    ensures !Vectors.IsZero(Rays.Direction(PixelRay(camera, u, v)).inner)
    ensures Rays.At(PixelRay(camera, u, v), 1.0) == ViewportPoint(camera, u, v)
  {
    Points.SamePoint(Rays.At(PixelRay(camera, u, v), 1.0), ViewportPoint(camera, u, v));
  }

  /** The program's camera: a 256-pixel-wide sixteen-by-nine image, viewport
      height 2, focal length 1 at the origin. Its viewport is 3 wide (the
      truncation of 32/9) and its lower-left corner is (-1.5, -1, -1). */
  lemma MainCameraGeometry()
    ensures ViewportHeight(MainCamera()) == FromConst(2)
    ensures ViewportWidth(MainCamera()) == FromConst(3)
    ensures Horizontal(MainCamera()) == Directions.FromF32ArrayConst([3.0, 0.0, 0.0])
    ensures Vertical(MainCamera()) == Directions.FromF32ArrayConst([0.0, 2.0, 0.0])
    ensures LowerLeftCorner(MainCamera()) == Points.FromF32ArrayConst([-1.5, -1.0, -1.0])
  {
    var camera := MainCamera();
    assert Images.Value(Images.AspectRatio(camera.image)) * ToF32(FromConst(2)) == 32.0 / 9.0;
    TruncationUnique(32.0 / 9.0, ViewportWidth(camera), FromConst(3));
    Directions.SameDirection(Horizontal(camera), Directions.FromF32ArrayConst([3.0, 0.0, 0.0]));
    Directions.SameDirection(Vertical(camera), Directions.FromF32ArrayConst([0.0, 2.0, 0.0]));
    Points.SamePoint(LowerLeftCorner(camera), Points.FromF32ArrayConst([-1.5, -1.0, -1.0]));
  }

  /** The camera the program builds. */
  function MainCamera(): Camera
  {
    NewFromViewportHeight(
      Images.NewFromWidth(Images.SixteenByNine, FromConst(256)),
      FromConst(2),
      1.0,
      Points.FromF32ArrayConst([0.0, 0.0, 0.0]))
  }
}
