/**
 * The liveness decision made when a coordinator is admitted: a GET on its
 * info endpoint is reduced to an abstract outcome, and the node counts as
 * live only on a 200 answer whose body reports `starting` as false.
 */
module Liveness {
  import opened Wrappers

  /** HTTP 200. */
  const StatusOk: int := 200

  /**
   * What the probe observed. `Response` carries the status code and the
   * `starting` field of the parsed body (absent, or a boolean); `Failed`
   * stands for any exception: connection error, timeout, unreadable or
   * unparseable body.
   */
  datatype ProbeOutcome =
    | Response(status: int, starting: Option<bool>)
    | Failed

  /** The decision: live on exactly one outcome, and never an error. */
  function IsActive(outcome: ProbeOutcome): (live: bool)
    ensures live <==> outcome == Response(StatusOk, Some(false))
  {
    match outcome
    case Failed => false
    case Response(status, starting) =>
      if status == StatusOk then starting == Some(false) else false
  }

  /** Defaulting to "not live": every failure, non-200 status, missing or true `starting` is rejected. */
  lemma RejectsByDefault(outcome: ProbeOutcome)
    ensures outcome.Failed? ==> !IsActive(outcome)
    ensures outcome.Response? && outcome.status != StatusOk ==> !IsActive(outcome)
    ensures outcome.Response? && outcome.starting != Some(false) ==> !IsActive(outcome)
  {
  }
}
