/** Shared vocabulary: options, real arithmetic, and the enumerations every component speaks. */
module Contracts {
  datatype Option<+T> = None | Some(value: T)

  /** Instants and durations are whole microseconds. */
  type Time = int

  const SECOND: Time := 1_000_000

  function Min(a: real, b: real): real { if a <= b then a else b }

  function Max(a: real, b: real): real { if a >= b then a else b }

  function Abs(a: real): real { if a >= 0.0 then a else -a }

  /** Nearest point of [lo, hi], and hi when the bounds are crossed. */
  function Clamp(x: real, lo: real, hi: real): real { Min(Max(x, lo), hi) }

  datatype Shape = Scalar | Range

  datatype Direction = HeatingOnly | CoolingOnly | Ranged

  datatype RoundingMode = Ceiling | Floor | Mathematical

  datatype DispatchStatus = NotDispatched | Dispatched | DispatchFailed

  datatype AckStatus =
    | NotApplicable | AckPending | Acknowledged | InferredAcknowledged | Rejected | Unknown

  /** The reason vocabulary shared by the broker and its classifier. */
  datatype Reason =
    | GateClosed | IntentExpired | IdentityChanged | EntryGenerationChanged
    | InputGenerationChanged | CapabilityGenerationChanged | OwnershipRevisionChanged
    | NotOwned | TargetNotReady | DataNotReady | LeaseLost
    | CommandIsPending | TargetCurrent | ExternalTarget | WriteFailed | CommandInterval
    | TargetUnchanged | BelowMinimumChange | QuantizationHysteresis
    | StorageVerificationFailed | CommandCancelled | OutcomeUnknown | AwaitingAcknowledgement
    | OutsideAckWindow | DuplicateEcho | LateTargetAcknowledged
    | ObsoleteFeedback | InvalidTolerance | OwnContextMatch | CoercedOrRejected | ExactPendingMatch
    | FeedbackBeforeReturn | ExplicitResume | TargetUnavailable

  /** A setpoint as the climate entity reports it, in the entity's own unit. */
  datatype Fingerprint = Fingerprint(
    shape: Shape, temperature: Option<real>, low: Option<real>, high: Option<real>)

  predicate Near(a: Option<real>, b: Option<real>, tolerance: real) {
    a.Some? && b.Some? && Abs(a.value - b.value) <= tolerance
  }

  /** Equal shape and every endpoint within the tolerance; a missing endpoint never matches. */
  predicate TargetMatches(a: Fingerprint, b: Fingerprint, tolerance: real) {
    && a.shape == b.shape
    && if a.shape.Scalar? then Near(a.temperature, b.temperature, tolerance)
       else Near(a.low, b.low, tolerance) && Near(a.high, b.high, tolerance)
  }

  // ---- inductions over the steps of a run ----------------------------------------------------------

  /** A fact and a count that every step of a stretch keeps hold at its end. */
  lemma {:induction false} Chain(good: nat -> bool, count: nat -> int, i: nat, j: nat)
    requires i <= j && good(i) && forall k: nat :: i <= k < j && good(k) ==> good(k + 1) && count(k + 1) == count(k)
    ensures good(j) && count(j) == count(i)
  {
    if i < j { Chain(good, count, i, j - 1); }
  }

  /** A fact that comes to hold during a stretch comes to hold at one of its steps. */
  lemma {:induction false} Turns(good: nat -> bool, i: nat, j: nat) returns (k: nat)
    requires i <= j && !good(i) && good(j)
    ensures i <= k < j && !good(k) && good(k + 1)
  {
    if good(j - 1) { k := Turns(good, i, j - 1); } else { k := j - 1; }
  }
}
