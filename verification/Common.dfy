/** Datatypes shared by every module. */
module Common {

  datatype Option<+T> = None | Some(value: T)

  datatype Result<+T, +E> = Ok(value: T) | Err(error: E)

  /** A reading of the monotonic clock, in seconds. */
  type Instant = real

  /** `Instant::duration_since`: saturates at zero when the clock readings are out of order. */
  function DurationSince(later: Instant, earlier: Instant): (d: real)
    ensures d >= 0.0
    ensures earlier <= later ==> earlier + d == later
  {
    if later >= earlier then later - earlier else 0.0
  }

  function Min(x: real, y: real): real { if x <= y then x else y }

  /** Clock readings of one run: none earlier than `start`, none going back. */
  ghost predicate Ordered(start: Instant, ts: seq<Instant>) {
    && (forall i | 0 <= i < |ts| :: start <= ts[i])
    && (forall i, j | 0 <= i < j < |ts| :: ts[i] <= ts[j])
  }
}
