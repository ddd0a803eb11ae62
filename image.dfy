/** An image that stores one of its two sides and derives the other through
    its aspect ratio (src/image.rs). */
module Images {
  import opened Dimensions

  datatype AspectRatios = SixteenByNine

  /** `AspectRatios::value`: the width divided by the height. */
  function Value(ar: AspectRatios): (r: real)
    ensures r > 0.0
    ensures ar == SixteenByNine ==> r * 9.0 == 16.0
  {
    match ar
    case SixteenByNine => 16.0 / 9.0
  }

  datatype WidthOrHeight = Height(height: Dimension) | Width(width: Dimension)

  datatype Image = Image(aspectRatio: AspectRatios, widthOrHeight: WidthOrHeight)

  /** The derived `Default`: sixteen by nine, stored width zero. */
  function Default(): (r: Image)
    ensures AspectRatio(r) == SixteenByNine
    ensures ImageWidth(r) == FromConst(0) && ImageHeight(r) == FromConst(0)
  {
    Image(SixteenByNine, Width(FromUsize(0)))
  }

  /** `_new_from_height`: the height is stored, the width derived. */
  function NewFromHeight(ar: AspectRatios, height: Dimension): (r: Image)
    ensures AspectRatio(r) == ar
    ensures ImageHeight(r) == height
    ensures IsTruncation(ToF32(height) * Value(ar), ImageWidth(r))
  {
    Image(ar, Height(height))
  }

  /** `new_from_width`: the width is stored, the height derived. */
  function NewFromWidth(ar: AspectRatios, width: Dimension): (r: Image)
    ensures AspectRatio(r) == ar
    ensures ImageWidth(r) == width
    ensures IsTruncation(ToF32(width) / Value(ar), ImageHeight(r))
  {
    Image(ar, Width(width))
  }

  function AspectRatio(image: Image): AspectRatios { image.aspectRatio }

  /** `height`: the stored height, or the stored width divided by the aspect
      ratio and truncated. */
  function ImageHeight(image: Image): (r: Dimension)
    ensures image.widthOrHeight.Height? ==> r == image.widthOrHeight.height
    ensures image.widthOrHeight.Width? ==>
      IsTruncation(ToF32(image.widthOrHeight.width) / Value(image.aspectRatio), r)
  {
    match image.widthOrHeight
    case Height(height) => height
    case Width(width) => FromReal(ToF32(width) / Value(image.aspectRatio))
  }

  /** `_width`: the stored width, or the stored height multiplied by the
      aspect ratio and truncated. */
  function ImageWidth(image: Image): (r: Dimension)
    ensures image.widthOrHeight.Width? ==> r == image.widthOrHeight.width
    ensures image.widthOrHeight.Height? ==>
      IsTruncation(ToF32(image.widthOrHeight.height) * Value(image.aspectRatio), r)
  {
    match image.widthOrHeight
    case Height(height) => FromReal(ToF32(height) * Value(image.aspectRatio))
    case Width(width) => width
  }

  /** Deriving a side never makes it larger than the exact quotient or product
      it truncates: the derived height times the ratio is at most the width,
      and the derived width divided by the ratio is at most the height. */
  lemma DerivedSideBounded(ar: AspectRatios, d: Dimension)
    ensures ToF32(ImageHeight(NewFromWidth(ar, d))) * Value(ar) <= ToF32(d)
    ensures ToF32(ImageWidth(NewFromHeight(ar, d))) <= ToF32(d) * Value(ar)
  {
    var h := ToF32(ImageHeight(NewFromWidth(ar, d)));
    assert h <= ToF32(d) / Value(ar);
    assert h * Value(ar) <= (ToF32(d) / Value(ar)) * Value(ar);
  }

  /** The program's image: 256 pixels wide at sixteen by nine is 144 high. */
  lemma MainImageHeight()
    ensures ImageHeight(NewFromWidth(SixteenByNine, FromConst(256))) == FromConst(144)
  {
    var image := NewFromWidth(SixteenByNine, FromConst(256));
    assert ToF32(FromConst(256)) / Value(SixteenByNine) == 144.0;
    TruncationUnique(144.0, ImageHeight(image), FromConst(144));
  }
}
