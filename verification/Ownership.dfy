/** Who may write a target: the ownership reducer and the acknowledgement classifier. */
module Ownership {
  import opened Contracts

  const MIN_OVERRIDE: Time := 15 * 60 * SECOND
  const MAX_OVERRIDE: Time := 24 * 3600 * SECOND

  datatype Owner = Disabled | Owned | ManualOverride | Reconciling | CommandFault

  datatype DataReadiness = Ready | DegradedReady | HoldLastGood | FallbackReady | DataInvalid

  datatype TargetReadiness = AvailableSupported | SuspendedMode | Unavailable | Incompatible

  datatype OverrideReason =
    | ExternalTemperature | ExternalPresetTarget | TargetWasReplaced | UncleanRestart
    | OutcomeUnknownFault | CoercedFault | StartupReported | OtherFault

  datatype Event =
    | Enable | Reconciled | Disable | ExternalTargetEvent | ExternalHvacMode | ExternalPreset
    | OverrideExpired | Resume | TargetLost | TargetReturned | TargetReplaced
    | CommandRejected | CommandUnknown | LateAcknowledged | CleanRestart | UncleanRestartEvent

  datatype OwnershipState = OwnershipState(
    ownership: Owner, data: DataReadiness, target: TargetReadiness,
    revision: nat, externalRevision: nat,
    overrideReason: Option<OverrideReason>, overrideExpiry: Option<Time>, resumeRequired: bool)

  /** The keyword arguments one event may carry. */
  datatype EventArgs = EventArgs(
    now: Time, target: Option<TargetReadiness>, data: Option<DataReadiness>,
    presetAffectsTarget: bool, overrideDuration: Option<Time>,
    ackExternalRevision: Option<nat>, recoveryReason: Option<OverrideReason>)

  function GetOr<T>(o: Option<T>, default: T): T {
    if o.Some? then o.value else default
  }

  predicate TakesOver(e: Event, a: EventArgs) {
    e.ExternalTargetEvent? || (e.ExternalPreset? && a.presetAffectsTarget)
  }

  /** A takeover is refused when its override would last less than 15 minutes or more than 24 hours. */
  predicate Accepts(e: Event, a: EventArgs) {
    TakesOver(e, a) && a.overrideDuration.Some? ==>
      MIN_OVERRIDE <= a.overrideDuration.value <= MAX_OVERRIDE
  }

  predicate DataAllowsControl(d: DataReadiness) {
    d.Ready? || d.DegradedReady? || d.FallbackReady?
  }

  /** One authoritative event. */
  function Reduce(s: OwnershipState, e: Event, a: EventArgs): OwnershipState
    requires Accepts(e, a)
  {
    var readiness := GetOr(a.target, s.target);
    var data := GetOr(a.data, s.data);
    var bumped := s.(revision := s.revision + 1);
    if TakesOver(e, a) then
      bumped.(ownership := ManualOverride, externalRevision := s.externalRevision + 1,
              overrideReason := Some(if e.ExternalTargetEvent? then ExternalTemperature else ExternalPresetTarget),
              overrideExpiry := if a.overrideDuration.Some? then Some(a.now + a.overrideDuration.value) else None,
              resumeRequired := false)
    else match e
      case Enable =>
        bumped.(ownership := Reconciling, target := readiness, data := data,
                overrideReason := None, overrideExpiry := None, resumeRequired := false)
      case Reconciled =>
        if !s.ownership.Reconciling? || s.resumeRequired then s
        else if !readiness.AvailableSupported? || !DataAllowsControl(data) then
          bumped.(target := readiness, data := data)
        else bumped.(ownership := Owned, target := readiness, data := data)
      case Disable =>
        bumped.(ownership := Disabled, overrideReason := None, overrideExpiry := None, resumeRequired := false)
      case ExternalHvacMode =>
        bumped.(ownership := if (s.ownership.Owned? || s.ownership.Reconciling?) && readiness.AvailableSupported?
                             then Reconciling else s.ownership,
                target := readiness)
      case OverrideExpired =>
        if !s.ownership.ManualOverride? || s.overrideExpiry.None? || a.now < s.overrideExpiry.value then s
        else bumped.(ownership := Reconciling, overrideReason := None, overrideExpiry := None)
      case Resume =>
        bumped.(ownership := Reconciling, overrideReason := None, overrideExpiry := None, resumeRequired := false)
      case TargetLost => bumped.(target := Unavailable)
      case TargetReturned =>
        bumped.(ownership := if s.ownership.Owned? then Reconciling else s.ownership, target := readiness)
      case TargetReplaced =>
        bumped.(ownership := Disabled, target := Unavailable, overrideReason := Some(TargetWasReplaced),
                overrideExpiry := None, resumeRequired := true)
      case LateAcknowledged =>
        if !s.ownership.CommandFault? || a.ackExternalRevision != Some(s.externalRevision) then s
        else bumped.(ownership := Reconciling, overrideReason := None, resumeRequired := false)
      case CleanRestart => bumped.(ownership := Reconciling, resumeRequired := false, overrideReason := None)
      case UncleanRestartEvent =>
        bumped.(ownership := Reconciling, resumeRequired := true,
                overrideReason := Some(GetOr(a.recoveryReason, UncleanRestart)))
      case _ => s
  }

  /** The only way into OWNED: a RECONCILED event on a reconciling, resumable, ready target. */
  predicate GrantsOwnership(s: OwnershipState, e: Event, a: EventArgs) {
    && e.Reconciled?
    && s.ownership.Reconciling? && !s.resumeRequired
    && GetOr(a.target, s.target).AvailableSupported?
    && DataAllowsControl(GetOr(a.data, s.data))
  }

  /** Ownership is granted by a successful RECONCILED and by nothing else; a takeover, by setpoint or by preset,
      always revokes it; no event moves a revision backwards, and a revision that stays put means nothing changed. */
  lemma OwnershipLaw(s: OwnershipState, e: Event, a: EventArgs)
    requires Accepts(e, a)
    ensures var t := Reduce(s, e, a);
      && (t.ownership.Owned? && !s.ownership.Owned? <==> !s.ownership.Owned? && GrantsOwnership(s, e, a))
      && (TakesOver(e, a) ==> t.ownership.ManualOverride? && t.externalRevision == s.externalRevision + 1)
      && s.revision <= t.revision <= s.revision + 1
      && s.externalRevision <= t.externalRevision
      && (t.revision == s.revision ==> t == s)
  {
  }

  datatype PendingAck = PendingAck(
    target: string, entryGeneration: int, inputGeneration: int, capabilityGeneration: int,
    ownershipRevision: int, externalRevision: int, contextId: string,
    requested: Fingerprint, step: real, resolution: real)

  datatype Feedback = Feedback(
    target: string, observed: Fingerprint, contextId: Option<string>, parentContextId: Option<string>,
    entryGeneration: int, inputGeneration: int, capabilityGeneration: int,
    ownershipRevision: int, externalRevision: int, userInitiated: bool)

  datatype Decision = Decision(status: AckStatus, reason: Reason, manual: bool)

  /** A quarter grid step, never coarser than the reported resolution. */
  function Tolerance(step: real, resolution: real): real { Min(step / 4.0, resolution) }

  function Classify(pending: Option<PendingAck>, f: Feedback): Decision {
    if pending.None? then Decision(NotApplicable, ExternalTarget, true)
    else
      var p := pending.value;
      var current := p.entryGeneration <= f.entryGeneration && p.inputGeneration <= f.inputGeneration
                     && p.capabilityGeneration == f.capabilityGeneration
                     && p.ownershipRevision == f.ownershipRevision;
      if p.target != f.target || !current then Decision(NotApplicable, ObsoleteFeedback, false)
      else
        var tolerance := Tolerance(p.step, p.resolution);
        if tolerance < 0.0 then Decision(Rejected, InvalidTolerance, false)
        else if p.externalRevision != f.externalRevision || f.userInitiated then
          Decision(NotApplicable, ExternalTarget, true)
        else
          var matches := TargetMatches(p.requested, f.observed, tolerance);
          var own := f.contextId == Some(p.contextId) || f.parentContextId == Some(p.contextId);
          if own then
            if matches then Decision(Acknowledged, OwnContextMatch, false)
            else Decision(Rejected, CoercedOrRejected, false)
          else if matches then Decision(InferredAcknowledged, ExactPendingMatch, false)
          else Decision(NotApplicable, ExternalTarget, true)
  }

  predicate Confirms(d: Decision) { d.status.Acknowledged? || d.status.InferredAcknowledged? }

  /** Exactly what confirms a command: the same target and generations, no user and no external change,
      and a setpoint within tolerance. The context only decides which of the two confirmations it is. */
  lemma ConfirmationLaw(p: PendingAck, f: Feedback)
    ensures var t := Tolerance(p.step, p.resolution);
      Confirms(Classify(Some(p), f)) <==>
        && p.target == f.target && !f.userInitiated
        && p.entryGeneration <= f.entryGeneration && p.inputGeneration <= f.inputGeneration
        && p.capabilityGeneration == f.capabilityGeneration
        && p.ownershipRevision == f.ownershipRevision && p.externalRevision == f.externalRevision
        && t >= 0.0 && TargetMatches(p.requested, f.observed, t)
  {
  }
}
