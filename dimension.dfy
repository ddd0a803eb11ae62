/** A pixel or viewport count over `usize` (src/newtypes/dimension.rs).
    `usize` is taken to be 64 bits wide. */
module Dimensions {
  import opened Wrappers

  const USIZE_MAX: nat := 0xFFFF_FFFF_FFFF_FFFF

  type Usize = n: nat | n <= USIZE_MAX

  datatype Dimension = Dimension(n: Usize)

  /** `from_const`: the count reads back unchanged. */
  function FromConst(value: Usize): (r: Dimension)
    ensures ToUsize(r) == value && ToF32(r) == value as real
  {
    Dimension(value)
  }

  /** `From<usize> for Dimension`. */
  function FromUsize(value: Usize): (r: Dimension)
    ensures ToUsize(r) == value && r == FromConst(value)
  {
    Dimension(value)
  }

  /** `From<Dimension> for usize` (also what `Deref` exposes). */
  function ToUsize(d: Dimension): Usize
  {
    d.n
  }

  /** `From<Dimension> for f32`; the precision lost above 2^24 is not modelled. */
  function ToF32(d: Dimension): (r: real)
    ensures 0.0 <= r <= USIZE_MAX as real
    ensures r == ToUsize(d) as real
  {
    d.n as real
  }

  /** `usize::checked_add`. */
  function CheckedAdd(a: Usize, b: Usize): (r: Option<Usize>)
    ensures r.Some? <==> a + b <= USIZE_MAX
    ensures r.Some? ==> r.value - b == a
  {
    if a + b <= USIZE_MAX then Some(a + b) else None
  }

  /** `usize::checked_sub`. */
  function CheckedSub(a: Usize, b: Usize): (r: Option<Usize>)
    ensures r.Some? <==> b <= a
    ensures r.Some? ==> r.value + b == a
  {
    if b <= a then Some(a - b) else None
  }

  /** `Step::steps_between`: the distance from `start` up to `end`, if `end`
      is not below `start`. */
  function StepsBetween(start: Dimension, end: Dimension): (r: Option<Usize>)
    ensures r.Some? <==> start.n <= end.n
    ensures r.Some? ==> start.n + r.value == end.n
  {
    if end.n >= start.n then Some(ToUsize(end) - ToUsize(start)) else None
  }

  /** `Step::forward_checked`: `None` exactly when the sum overflows `usize`. */
  function ForwardChecked(start: Dimension, count: Usize): (r: Option<Dimension>)
    ensures r.Some? <==> start.n + count <= USIZE_MAX
    ensures r.Some? ==> r.value.n - count == start.n
  {
    match CheckedAdd(start.n, count)
    case Some(sum) => Some(FromUsize(sum))
    case None => None
  }

  /** `Step::backward_checked`: `None` exactly when `count` exceeds `start`. */
  function BackwardChecked(start: Dimension, count: Usize): (r: Option<Dimension>)
    ensures r.Some? <==> count <= start.n
    ensures r.Some? ==> r.value.n + count == start.n
  {
    match CheckedSub(start.n, count)
    case Some(difference) => Some(FromUsize(difference))
    case None => None
  }

  /** `Add`: plain `usize` addition, which panics on overflow in a debug
      build; the requires rules that case out. */
  function Add(a: Dimension, rhs: Dimension): (r: Dimension)
    requires a.n + rhs.n <= USIZE_MAX
    ensures r.n - rhs.n == a.n
  {
    FromUsize(a.n + rhs.n)
  }

  /** `Sub`: unchecked `usize` subtraction, which underflows unless
      `rhs <= a`. */
  function Sub(a: Dimension, rhs: Dimension): (r: Dimension)
    requires rhs.n <= a.n
    ensures r.n + rhs.n == a.n
  {
    FromUsize(a.n - rhs.n)
  }

  /** Whether `d` is what truncating the non-negative real `x` toward zero
      gives, saturating at the largest `usize`. */
  predicate IsTruncation(x: real, d: Dimension)
  {
    d.n as real <= x && (x < d.n as real + 1.0 || d.n == USIZE_MAX)
  }

  /** The `f32` to `Dimension` conversion the image and camera use: a
      truncating cast of a non-negative real. */
  function FromReal(x: real): (r: Dimension)
    requires x >= 0.0
    ensures IsTruncation(x, r)
  {
    if x >= USIZE_MAX as real then Dimension(USIZE_MAX) else Dimension(x.Floor)
  }

  /** A truncation is determined by the real it truncates. */
  lemma TruncationUnique(x: real, d: Dimension, e: Dimension)
    requires IsTruncation(x, d) && IsTruncation(x, e)
    ensures d == e
  {
  }

  /** Converting a `usize` in and back out is the identity, both ways. */
  lemma UsizeRoundTrip(value: Usize, d: Dimension)
    ensures ToUsize(FromUsize(value)) == value
    ensures FromUsize(ToUsize(d)) == d
  {
  }

  /** `steps_between` and `forward_checked` describe the same steps. */
  lemma StepsAgreeWithForward(start: Dimension, end: Dimension, count: Usize)
    ensures StepsBetween(start, end) == Some(count) <==> ForwardChecked(start, count) == Some(end)
  {
  }

  /** `steps_between` and `backward_checked` describe the same steps. */
  lemma StepsAgreeWithBackward(start: Dimension, end: Dimension, count: Usize)
    ensures StepsBetween(start, end) == Some(count) <==> BackwardChecked(end, count) == Some(start)
  {
  }

  /** `Sub` undoes `Add`. */
  lemma AddThenSubRestores(a: Dimension, b: Dimension)
    requires a.n + b.n <= USIZE_MAX
    ensures Sub(Add(a, b), b) == a
  {
  }
}
