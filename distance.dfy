/** A length that can never be negative (src/newtypes/distance.rs). */
module Distances {
  import opened Wrappers

  /** The private `f32` inside a `Distance`; the only way to obtain one is a
      successful constructor, so every value of the type is non-negative. */
  newtype Distance = r: real | r >= 0.0

  /** The error value a negative input produces. */
  datatype DistanceCannotBeNegative = DistanceCannotBeNegative

  predicate IsDistanceValid(value: real)
  {
    !(value < 0.0)
  }

  /** `as_f32`: every distance reads back as a non-negative number. */
  function AsF32(d: Distance): (r: real)
    ensures r >= 0.0
  {
    d as real
  }

  /** `Distance::try_from_const`: accepts exactly the non-negative reals and
      then hands the input back unchanged. */
  function TryFromConst(value: real): (r: Result<Distance, DistanceCannotBeNegative>)
    ensures r.Ok? <==> value >= 0.0
    ensures r.Ok? ==> AsF32(r.value) == value
    ensures r.Err? ==> r.error == DistanceCannotBeNegative
  {
    if !IsDistanceValid(value) then Err(DistanceCannotBeNegative) else Ok(value as Distance)
  }

  /** `TryFrom<f32> for Distance`, written separately in the source. */
  function TryFrom(value: real): (r: Result<Distance, DistanceCannotBeNegative>)
    ensures r.Ok? <==> value >= 0.0
    ensures r.Ok? ==> AsF32(r.value) == value
  {
    if !IsDistanceValid(value) then Err(DistanceCannotBeNegative) else Ok(value as Distance)
  }

  /** The two constructors agree on every input. */
  lemma TryFromAgreesWithConst(value: real)
    ensures TryFrom(value) == TryFromConst(value)
  {
  }

  /** The unit tests: 1.0 is accepted and -1.0 rejected by both constructors. */
  lemma ConstructorExamples()
    ensures TryFromConst(1.0).Ok? && TryFrom(1.0).Ok?
    ensures TryFromConst(-1.0) == Err(DistanceCannotBeNegative)
    ensures TryFrom(-1.0) == Err(DistanceCannotBeNegative)
  {
  }
}
