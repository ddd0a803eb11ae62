/** A blend factor restricted to [0, 1] (src/newtypes/percent.rs). */
module Percent {
  import opened Wrappers

  /** `Strict(pub f32)`: the field is public, so a value outside [0, 1] can be
      built directly; only `New` validates. */
  datatype Strict = Strict(raw: real)

  const MIN_STRICT_VALUE: real := 0.0
  const MAX_STRICT_VALUE: real := 1.0

  const OUT_OF_RANGE_MESSAGE: string := "A percent must be between 0.0 and 1.0"

  predicate IsStrictPercentValid(valueToCheck: real)
  {
    valueToCheck >= MIN_STRICT_VALUE && valueToCheck <= MAX_STRICT_VALUE
  }

  function AsF32(p: Strict): real
  {
    p.raw
  }

  /** `Strict::new`: succeeds exactly on [0, 1] and keeps the value. */
  function New(value: real): (r: Result<Strict, string>)
    ensures r.Ok? <==> 0.0 <= value <= 1.0
    ensures r.Ok? ==> AsF32(r.value) == value
    ensures r.Err? ==> r.error == OUT_OF_RANGE_MESSAGE
  {
    if !IsStrictPercentValid(value) then Err(OUT_OF_RANGE_MESSAGE) else Ok(Strict(value))
  }

  /** `overflowing_add`. The requires is the condition under which the
      source's `expect` does not panic; `AddNeverPanics` shows that valid
      operands always meet it. */
  function OverflowingAdd(p: Strict, rhs: Strict): (r: (Strict, bool))
    requires p.raw + rhs.raw <= MAX_STRICT_VALUE ==> IsStrictPercentValid(p.raw + rhs.raw)
    ensures r.1 <==> p.raw + rhs.raw <= 1.0
    ensures !r.1 ==> r.0 == p
    ensures r.1 ==> AsF32(r.0) == AsF32(p) + AsF32(rhs)
  {
    var rawValueOfAdd := p.raw + AsF32(rhs);
    if rawValueOfAdd > MAX_STRICT_VALUE then (p, false)
    else (New(rawValueOfAdd).value, true)
  }

  /** `overflowing_sub`, with the same reading of its `expect`. */
  function OverflowingSub(p: Strict, rhs: Strict): (r: (Strict, bool))
    requires p.raw - rhs.raw >= MIN_STRICT_VALUE ==> IsStrictPercentValid(p.raw - rhs.raw)
    ensures r.1 <==> p.raw - rhs.raw >= 0.0
    ensures !r.1 ==> r.0 == p
    ensures r.1 ==> AsF32(r.0) == AsF32(p) - AsF32(rhs)
  {
    var rawValueOfSub := p.raw - AsF32(rhs);
    if rawValueOfSub < MIN_STRICT_VALUE then (p, false)
    else (New(rawValueOfSub).value, true)
  }

  /** On valid operands the `expect` in `overflowing_add` never fires and
      the result, taken or refused, is again a valid percent. */
  lemma AddNeverPanics(p: Strict, rhs: Strict)
    requires IsStrictPercentValid(p.raw) && IsStrictPercentValid(rhs.raw)
    ensures p.raw + rhs.raw <= MAX_STRICT_VALUE ==> IsStrictPercentValid(p.raw + rhs.raw)
    ensures IsStrictPercentValid(OverflowingAdd(p, rhs).0.raw)
  {
  }

  /** The same for `overflowing_sub`. */
  lemma SubNeverPanics(p: Strict, rhs: Strict)
    requires IsStrictPercentValid(p.raw) && IsStrictPercentValid(rhs.raw)
    ensures p.raw - rhs.raw >= MIN_STRICT_VALUE ==> IsStrictPercentValid(p.raw - rhs.raw)
    ensures IsStrictPercentValid(OverflowingSub(p, rhs).0.raw)
  {
  }

  /** Subtracting what was just added gives the original percent back. */
  lemma AddThenSubRestores(p: Strict, q: Strict)
    requires IsStrictPercentValid(p.raw) && IsStrictPercentValid(q.raw)
    requires p.raw + q.raw <= 1.0
    ensures OverflowingAdd(p, q).1
    ensures OverflowingSub(OverflowingAdd(p, q).0, q) == (p, true)
  {
  }

  /** The unit tests, over exact reals. */
  lemma OverflowExamples()
    ensures OverflowingAdd(Strict(0.8), Strict(0.21)) == (Strict(0.8), false)
    ensures OverflowingAdd(Strict(0.8), Strict(0.19)) == (Strict(0.99), true)
    ensures OverflowingSub(Strict(0.8), Strict(0.81)) == (Strict(0.8), false)
    ensures OverflowingSub(Strict(0.8), Strict(0.79)) == (Strict(0.01), true)
  {
  }
}
