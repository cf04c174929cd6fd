/**
  Conversions between the signed and unsigned machine words used for array
  indices and relative offsets. The same two functions appear, identically,
  in two source files; they are modelled once here.
 */
module Utils {
  import opened Errors
  import opened MachineInt
  import opened Radix

  /** `isize -> usize`: succeeds exactly on non-negative values. */
  function IToU(i: isize): (r: Result<usize>)
    ensures r.Ok? <==> i >= 0
    ensures r.Ok? ==> r.value == i
    ensures r.Err? ==> r.error == MathParseInternalBug(DecimalText(i) + " should have been positive.")
  {
    if i >= 0 then Ok(i) else Err(MathParseInternalBug(DecimalText(i) + " should have been positive."))
  }

  /** `usize -> isize`: succeeds exactly up to `isize::MAX`. Any index is accepted, so the `usize` bound is not restated. */
  function UToI(u: nat): (r: Result<isize>)
    ensures r.Ok? <==> u <= I64_MAX
    ensures r.Ok? ==> r.value == u
    ensures r.Err? ==> r.error == MathParseInternalBug(Digits(u, 10) + " should be made as isize.")
  {
    if u <= I64_MAX then Ok(u) else Err(MathParseInternalBug(Digits(u, 10) + " should be made as isize."))
  }

  /** Going to `isize` and back is the identity wherever the first step succeeds. */
  lemma UToIRoundTrip(u: nat)
    requires UToI(u).Ok?
    ensures IToU(UToI(u).value) == Ok(u)
  {
  }

  /** ... and the other way round, wherever `i_to_u` succeeds. */
  lemma IToURoundTrip(i: isize)
    requires IToU(i).Ok?
    ensures UToI(IToU(i).value) == Ok(i)
  {
  }
}
