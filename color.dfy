/** An output colour: a `Vec3` whose channels are checked on construction
    and truncated to `u16` for display (src/newtypes/color.rs). */
module Colors {
  import opened Wrappers
  import Vectors

  datatype Color = Color(inner: Vectors.Vec3)

  const OUT_OF_RANGE_MESSAGE: string := "Color dimensions must be between 0 and 255"

  const U16_MAX: nat := 65535

  /** `is_color_dimension_valid`: the upper bound 256 is inclusive. */
  predicate IsColorDimensionValid(valueToCheck: real)
  {
    valueToCheck >= 0.0 && valueToCheck <= 256.0
  }

  /** `new_from_vec3` as written: the third test reads x again, so the z
      channel is never checked. */
  function NewFromVec3(input: Vectors.Vec3): (r: Result<Color, string>)
    ensures r.Ok? <==> IsColorDimensionValid(Vectors.X(input)) && IsColorDimensionValid(Vectors.Y(input))
    ensures r.Ok? ==> r.value.inner == input
    ensures r.Err? ==> r.error == OUT_OF_RANGE_MESSAGE
  {
    if !IsColorDimensionValid(Vectors.X(input)) || !IsColorDimensionValid(Vectors.Y(input))
       || !IsColorDimensionValid(Vectors.X(input))
    then Err(OUT_OF_RANGE_MESSAGE)
    else Ok(Color(input))
  }

  /** `new`: the same check on a vector built from the array. */
  function New(input: Vectors.Array3): (r: Result<Color, string>)
    ensures r.Ok? <==> IsColorDimensionValid(input[0]) && IsColorDimensionValid(input[1])
    ensures r.Ok? ==> r.value.inner.components == input
    ensures r.Err? ==> r.error == OUT_OF_RANGE_MESSAGE
  {
    NewFromVec3(Vectors.Vec3(input))
  }

  /** Rust's `as u16` on a float: truncation toward zero, saturating at 0 and
      at `u16::MAX`. */
  function CastU16(v: real): (r: nat)
    ensures r <= U16_MAX
    ensures v <= 0.0 ==> r == 0
    ensures v >= U16_MAX as real ==> r == U16_MAX
    ensures 0.0 <= v < U16_MAX as real ==> r as real <= v < r as real + 1.0
  {
    if v <= 0.0 then 0 else if v >= U16_MAX as real then U16_MAX else v.Floor
  }

  /** `red` reads x: its truncation, within `u16`. */
  function Red(c: Color): (r: nat)
    ensures r <= U16_MAX
    ensures 0.0 <= Vectors.X(c.inner) < U16_MAX as real ==> r as real <= Vectors.X(c.inner) < r as real + 1.0
  {
    CastU16(Vectors.X(c.inner))
  }

  /** `blue` reads y: its truncation, within `u16`. */
  function Blue(c: Color): (r: nat)
    ensures r <= U16_MAX
    ensures 0.0 <= Vectors.Y(c.inner) < U16_MAX as real ==> r as real <= Vectors.Y(c.inner) < r as real + 1.0
  {
    CastU16(Vectors.Y(c.inner))
  }

  /** `green` reads z: its truncation, within `u16`. */
  function Green(c: Color): (r: nat)
    ensures r <= U16_MAX
    ensures 0.0 <= Vectors.Z(c.inner) < U16_MAX as real ==> r as real <= Vectors.Z(c.inner) < r as real + 1.0
  {
    CastU16(Vectors.Z(c.inner))
  }

  /** `Display`: the three channels in the order red, blue, green, as the
      numbers it prints separated by spaces; each fits in a `u16`. */
  function Display(c: Color): (r: seq<nat>)
    ensures |r| == 3
    ensures forall i :: 0 <= i < 3 ==> r[i] <= U16_MAX
    ensures forall i :: 0 <= i < 3 && 0.0 <= c.inner.components[i] < U16_MAX as real ==>
      r[i] as real <= c.inner.components[i] < r[i] as real + 1.0
  {
    [Red(c), Blue(c), Green(c)]
  }

  /** A colour accepted by `new_from_vec3` displays its x and y channels as
      their truncations, in the order x, y, z: each number printed is at most
      256 for x and y, whatever z is. */
  lemma DisplayOfAcceptedColor(input: Vectors.Vec3)
    requires NewFromVec3(input).Ok?
    ensures |Display(NewFromVec3(input).value)| == 3
    ensures Display(NewFromVec3(input).value)[0] as real <= Vectors.X(input) < Display(NewFromVec3(input).value)[0] as real + 1.0
    ensures Display(NewFromVec3(input).value)[1] as real <= Vectors.Y(input) < Display(NewFromVec3(input).value)[1] as real + 1.0
    ensures Display(NewFromVec3(input).value)[2] == CastU16(Vectors.Z(input))
    ensures Display(NewFromVec3(input).value)[0] <= 256 && Display(NewFromVec3(input).value)[1] <= 256
  {
  }

  /** Concrete values for the channel accessors and `Display`. */
  lemma DisplayExamples()
    ensures Display(Color(Vectors.Of(255.9, 0.5, 128.0))) == [255, 0, 128]
    ensures Display(Color(Vectors.Of(-3.0, 70000.0, 12.25))) == [0, U16_MAX, 12]
  {
  }

  // ---------------------------------------------------------------
  // Channel check as evidently intended
  // ---------------------------------------------------------------

  /** As written, a z channel far outside the range is accepted ... */
  lemma ZChannelNeverChecked()
    ensures NewFromVec3(Vectors.Of(0.0, 0.0, -1.0)).Ok?
    ensures NewFromVec3(Vectors.Of(0.0, 0.0, 300.0)).Ok?
    ensures Green(NewFromVec3(Vectors.Of(0.0, 0.0, 300.0)).value) == 300
  {
  }

  /** ... and the value 256 passes although the message says 255, and
      displays as 256, which no 8-bit channel holds. */
  lemma ChannelOf256Accepted()
    ensures NewFromVec3(Vectors.Of(256.0, 0.0, 0.0)).Ok?
    ensures Red(NewFromVec3(Vectors.Of(256.0, 0.0, 0.0)).value) == 256
  {
  }

  /** A channel whose truncation lies in 0..=255. */
  predicate IsChannelInRange(v: real)
  {
    0.0 <= v < 256.0
  }

  /** The check the error message describes: every channel, z included, is
      in [0, 256), so that each displayed channel is between 0 and 255. */
  function NewFromVec3Checked(input: Vectors.Vec3): (r: Result<Color, string>)
    ensures r.Ok? <==> IsChannelInRange(Vectors.X(input)) && IsChannelInRange(Vectors.Y(input))
                       && IsChannelInRange(Vectors.Z(input))
    ensures r.Ok? ==> r.value.inner == input
    ensures r.Err? ==> r.error == OUT_OF_RANGE_MESSAGE
  {
    if !IsChannelInRange(Vectors.X(input)) || !IsChannelInRange(Vectors.Y(input))
       || !IsChannelInRange(Vectors.Z(input))
    then Err(OUT_OF_RANGE_MESSAGE)
    else Ok(Color(input))
  }

  /** With the corrected check, every displayed channel is between 0 and 255
      and is the truncation of its component; everything it accepts the
      written check accepts too. */
  lemma CheckedDisplayFitsEightBits(input: Vectors.Vec3)
    requires NewFromVec3Checked(input).Ok?
    ensures forall i :: 0 <= i < 3 ==> Display(NewFromVec3Checked(input).value)[i] <= 255
    ensures forall i :: 0 <= i < 3 ==>
      Display(NewFromVec3Checked(input).value)[i] as real <= input.components[i]
      < Display(NewFromVec3Checked(input).value)[i] as real + 1.0
    ensures NewFromVec3(input) == NewFromVec3Checked(input)
  {
    var d := Display(NewFromVec3Checked(input).value);
    assert d[0] <= 255 && d[1] <= 255 && d[2] <= 255;
  }
}
