/** Decisions of the command broker: preflight, live-target check, anti-chatter, submit and feedback,
    each as one uninterrupted segment between two awaits. */
module Broker {
  import opened Contracts
  import opened Ownership

  const ORDINARY_INTERVAL: Time := 60 * SECOND
  const HARD_INTERVAL: Time := 10 * SECOND
  const ACK_DEADLINE: Time := 30 * SECOND
  const RELEASE_HYSTERESIS_C := 0.1
  const RELEASE_TOLERANCE_C := 0.000000000001
  const CHANGE_TOLERANCE := 0.000000000001
  const MAX_WRITE_ATTEMPTS: nat := 5

  datatype Intent = Intent(
    target: string, shape: Shape, direction: Direction,
    temperature: Option<real>, low: Option<real>, high: Option<real>,
    room: Option<real>, roomLow: Option<real>, roomHigh: Option<real>,
    continuous: Option<real>, continuousLow: Option<real>, continuousHigh: Option<real>,
    step: real, meaningfulDelta: real, resolution: real,
    entryGeneration: int, inputGeneration: int, capabilityGeneration: int,
    ownershipRevision: int, externalRevision: int, lease: string, expiresAt: Time,
    explicit: bool, safety: bool, recovery: bool,
    rounding: Option<RoundingMode>, stepRoom: Option<real>)

  datatype Preflight = Preflight(
    target: string, entryGeneration: int, inputGeneration: int, capabilityGeneration: int,
    ownershipRevision: int, ownership: Owner, targetReady: bool, dataReady: bool,
    lease: Option<string>, gateOpen: bool, observed: Option<Fingerprint>)

  datatype Command = Command(
    id: string, intent: Intent, contextId: string, expected: Option<Fingerprint>,
    requested: Fingerprint, registeredAt: Time, deadline: Time, dispatched: bool)

  datatype AckTarget = AckTarget(
    fingerprint: Fingerprint, room: Option<real>, low: Option<real>, high: Option<real>, at: Time)

  datatype Outcome = Outcome(id: Option<string>, dispatch: DispatchStatus, ack: AckStatus, reason: Reason)

  datatype WriteStatus = Idle | RetryPending | Failed | AwaitingAck | Confirmed | WaitingTarget

  datatype WriteError = ServiceError | AckTimeout | TargetRejected | LateObsoleteTarget

  /** Everything the broker remembers about one target. */
  datatype State = State(
    pending: Option<Command>, completed: Option<Command>, queued: Option<Intent>,
    acknowledged: Option<AckTarget>, lastDispatchAt: Option<Time>,
    feedbackStatus: Option<AckStatus>, feedbackReason: Option<Reason>,
    goal: Option<Fingerprint>, attempts: nat, writeStatus: WriteStatus, lastError: Option<WriteError>,
    baseline: Option<Fingerprint>, uncertain: seq<Command>)

  const FRESH := State(None, None, None, None, None, None, None, None, 0, Idle, None, None, [])

  function Requested(i: Intent): Fingerprint { Fingerprint(i.shape, i.temperature, i.low, i.high) }

  function PreflightReason(i: Intent, p: Preflight, now: Time): Option<Reason> {
    if !p.gateOpen then Some(GateClosed)
    else if now >= i.expiresAt then Some(IntentExpired)
    else if p.target != i.target then Some(IdentityChanged)
    else if p.entryGeneration != i.entryGeneration then Some(EntryGenerationChanged)
    else if p.inputGeneration != i.inputGeneration then Some(InputGenerationChanged)
    else if p.capabilityGeneration != i.capabilityGeneration then Some(CapabilityGenerationChanged)
    else if p.ownershipRevision != i.ownershipRevision then Some(OwnershipRevisionChanged)
    else if !p.ownership.Owned? then Some(NotOwned)
    else if !p.targetReady then Some(TargetNotReady)
    else if !p.dataReady && !i.safety then Some(DataNotReady)
    else if p.lease != Some(i.lease) then Some(LeaseLost)
    else None
  }

  /** Largest endpoint change; None when the two cannot be compared, which counts as any change. */
  function MaximumChange(a: Fingerprint, b: Fingerprint): Option<real> {
    if a.shape != b.shape then None
    else if a.shape.Scalar? then
      if a.temperature.None? || b.temperature.None? then None else Some(Abs(a.temperature.value - b.temperature.value))
    else if a.low.None? || a.high.None? || b.low.None? || b.high.None? then None
    else Some(Max(Abs(a.low.value - b.low.value), Abs(a.high.value - b.high.value)))
  }

  /** The edge of the acknowledged grid cell that a release has to clear. */
  function ReleaseBoundary(i: Intent, previous: real, heating: bool): real {
    if i.stepRoom.None? then previous
    else
      var step := i.stepRoom.value;
      match i.rounding
      case Some(Floor) => if heating then previous else previous + step
      case Some(Ceiling) => if heating then previous - step else previous
      case Some(Mathematical) => if heating then previous - step / 2.0 else previous + step / 2.0
      case None => if heating then previous - step else previous + step
  }

  predicate HoldsHeating(i: Intent, continuous: Option<real>, previous: real) {
    continuous.None?
    || continuous.value > ReleaseBoundary(i, previous, true) - RELEASE_HYSTERESIS_C + RELEASE_TOLERANCE_C
  }

  predicate HoldsCooling(i: Intent, continuous: Option<real>, previous: real) {
    continuous.None?
    || continuous.value < ReleaseBoundary(i, previous, false) + RELEASE_HYSTERESIS_C - RELEASE_TOLERANCE_C
  }

  predicate ReleaseBlocks(i: Intent, a: AckTarget) {
    if i.explicit then false
    else if i.shape.Scalar? then
      if i.room.None? || a.room.None? then false
      else if i.direction.HeatingOnly? && i.room.value < a.room.value then HoldsHeating(i, i.continuous, a.room.value)
      else if i.direction.CoolingOnly? && i.room.value > a.room.value then HoldsCooling(i, i.continuous, a.room.value)
      else false
    else if i.roomLow.None? || i.roomHigh.None? || a.low.None? || a.high.None? then false
    else
      || (i.roomLow.value < a.low.value && HoldsHeating(i, i.continuousLow, a.low.value))
      || (i.roomHigh.value > a.high.value && HoldsCooling(i, i.continuousHigh, a.high.value))
  }

  function MinimumInterval(i: Intent): Time { if i.explicit then HARD_INTERVAL else ORDINARY_INTERVAL }

  function AntiChatter(i: Intent, acknowledged: Option<AckTarget>, last: Option<Time>, now: Time): Option<Reason> {
    var known := !i.recovery && acknowledged.Some?;
    if known && Requested(i) == acknowledged.value.fingerprint then Some(TargetUnchanged)
    else if known && (var change := MaximumChange(Requested(i), acknowledged.value.fingerprint);
                      change.Some? && change.value + CHANGE_TOLERANCE < i.meaningfulDelta)
    then Some(BelowMinimumChange)
    else if known && ReleaseBlocks(i, acknowledged.value) then Some(QuantizationHysteresis)
    else if last.Some? && now - last.value < MinimumInterval(i) then Some(CommandInterval)
    else None
  }

  /** Setpoints the broker would not be surprised to see. */
  predicate Explained(s: State, i: Intent, observed: Fingerprint) {
    var t := Tolerance(i.step, i.resolution);
    || (s.baseline.Some? && TargetMatches(s.baseline.value, observed, t))
    || (s.acknowledged.Some? && TargetMatches(s.acknowledged.value.fingerprint, observed, t))
    || exists k | 0 <= k < |s.uncertain| ::
         SameEra(s.uncertain[k], i) && TargetMatches(s.uncertain[k].requested, observed, t)
  }

  predicate SameEra(c: Command, i: Intent) {
    && c.intent.ownershipRevision == i.ownershipRevision
    && c.intent.externalRevision == i.externalRevision
    && c.intent.capabilityGeneration == i.capabilityGeneration
  }

  predicate LiveTargetForeign(s: State, p: Preflight, i: Intent) {
    && p.observed.Some?
    && (s.baseline.Some? || s.acknowledged.Some? || exists k | 0 <= k < |s.uncertain| :: SameEra(s.uncertain[k], i))
    && !Explained(s, i, p.observed.value)
  }

  function Remember(u: seq<Command>, c: Command): (r: seq<Command>)
    requires |u| <= MAX_WRITE_ATTEMPTS
    ensures |r| <= MAX_WRITE_ATTEMPTS && c in r
  {
    if c in u then u
    else if |u| < MAX_WRITE_ATTEMPTS then u + [c]
    else u[1..] + [c]
  }

  function RecordFailure(s: State, e: WriteError): State {
    s.(lastError := Some(e), writeStatus := if s.attempts >= MAX_WRITE_ATTEMPTS then Failed else RetryPending)
  }

  function Acknowledge(s: State, c: Command, f: Feedback, now: Time): State {
    s.(acknowledged := Some(AckTarget(f.observed, c.intent.room, c.intent.roomLow, c.intent.roomHigh, now)),
       writeStatus := Confirmed, lastError := None, baseline := Some(f.observed))
  }

  function Contract(c: Command): PendingAck {
    PendingAck(c.intent.target, c.intent.entryGeneration, c.intent.inputGeneration, c.intent.capabilityGeneration,
               c.intent.ownershipRevision, c.intent.externalRevision, c.contextId, c.requested,
               c.intent.step, c.intent.resolution)
  }

  // ---- submit ------------------------------------------------------------------------------------

  /** A submit either answers at once or goes on to dispatch; `late` says a failed write was outstanding. */
  datatype SubmitResult = Answered(state: State, outcome: Outcome) | Proceed(state: State, late: bool)

  function NotSent(s: State, r: Reason): SubmitResult { Answered(s, Outcome(None, NotDispatched, NotApplicable, r)) }

  function Submit(gate: bool, s: State, i: Intent, p: Preflight, now: Time): SubmitResult {
    if !gate then NotSent(s, GateClosed)
    else
      var refused := PreflightReason(i, p, now);
      if refused.Some? then NotSent(s.(queued := None), refused.value)
      else if s.pending.Some? then
        Answered(s.(queued := Some(i)), Outcome(None, NotDispatched, AckPending, CommandIsPending))
      else
        var aimed := if s.goal != Some(Requested(i))
                     then s.(goal := Some(Requested(i)), attempts := 0, writeStatus := Idle) else s;
        if i.recovery && p.observed.Some? && TargetMatches(Requested(i), p.observed.value, i.resolution) then
          NotSent(aimed.(acknowledged := Some(AckTarget(p.observed.value, i.room, i.roomLow, i.roomHigh, now)),
                         queued := None, writeStatus := Confirmed, lastError := None), TargetCurrent)
        else
          SubmitKnown(Rebase(aimed, i, p), i, p, now)
  }

  /** Recovery distrusts the old acknowledgement; a first contact adopts what the device shows. */
  function Rebase(s: State, i: Intent, p: Preflight): State {
    if i.recovery then s.(acknowledged := None, baseline := p.observed)
    else if s.baseline.None? && s.acknowledged.None? then s.(baseline := p.observed)
    else s
  }

  function SubmitKnown(s: State, i: Intent, p: Preflight, now: Time): SubmitResult {
    if LiveTargetForeign(s, p, i) then NotSent(s.(queued := None), ExternalTarget)
    else if s.attempts >= MAX_WRITE_ATTEMPTS && s.lastError.Some? then NotSent(s, WriteFailed)
    else if s.lastError.Some? && s.lastDispatchAt.Some? && now < s.lastDispatchAt.value + ORDINARY_INTERVAL then
      NotSent(s.(writeStatus := RetryPending, queued := Some(i)), CommandInterval)
    else
      var chatter := AntiChatter(i, if s.lastError.None? then s.acknowledged else None, s.lastDispatchAt, now);
      if chatter.Some? then
        NotSent(if chatter.value.CommandInterval? then s.(queued := Some(i)) else s, chatter.value)
      else Proceed(s, s.lastError.Some?)
  }

  // ---- dispatch ----------------------------------------------------------------------------------

  function NewCommand(s: State, i: Intent, id: string, contextId: string, now: Time): Command {
    Command(id, i, contextId, if s.acknowledged.Some? then Some(s.acknowledged.value.fingerprint) else None,
            Requested(i), now, now + ACK_DEADLINE, false)
  }

  function Begin(s: State, c: Command): State { s.(queued := None, pending := Some(c), completed := None) }

  /** Why a command that has waited for the journal may no longer go out. The check before marking
      looks at the gate first, the check before calling looks at it last. */
  function StillRefused(gate: bool, s: State, c: Command, p: Preflight, now: Time, marked: bool): Option<Reason> {
    var r := PreflightReason(c.intent, p, now);
    if r.Some? then r
    else if !gate && !marked then Some(GateClosed)
    else if LiveTargetForeign(s, p, c.intent) then Some(ExternalTarget)
    else if !gate then Some(GateClosed)
    else None
  }

  /** The segment that ends with the service call starting. */
  function Launch(s: State, c: Command, now: Time): State {
    s.(pending := Some(c), attempts := s.attempts + 1, lastDispatchAt := Some(now), writeStatus := AwaitingAck,
       feedbackStatus := None, feedbackReason := None)
  }

  /** What the dispatching coroutine does when the journal answers: stop, withdraw the command from the
      journal, mark it dispatched, or call the service. */
  datatype Continuation =
    | Stop(state: State, outcome: Outcome)
    | Withdraw(state: State, command: Command, reason: Reason)
    | MarkNext(state: State, command: Command)
    | CallService(state: State, command: Command)

  function NotSentCommand(c: Command, r: Reason): Outcome { Outcome(Some(c.id), NotDispatched, NotApplicable, r) }

  function AfterPersist(gate: bool, s: State, c: Command, ok: bool, p: Preflight, now: Time): Continuation {
    if !ok then Stop(s.(pending := None), NotSentCommand(c, StorageVerificationFailed))
    else
      var r := StillRefused(gate, s, c, p, now, false);
      if r.Some? then Withdraw(s.(pending := None), c, r.value) else MarkNext(s, c.(dispatched := true))
  }

  function AfterMark(gate: bool, s: State, c: Command, ok: bool, p: Preflight, now: Time): Continuation {
    if !ok then Stop(s.(pending := None), NotSentCommand(c, StorageVerificationFailed))
    else
      var r := StillRefused(gate, s, c, p, now, true);
      if r.Some? then Withdraw(s.(pending := None), c, r.value) else CallService(Launch(s, c, now), c)
  }

  function ServiceReturned(s: State, c: Command, ok: bool): (State, Outcome)
    requires |s.uncertain| <= MAX_WRITE_ATTEMPTS
  {
    var status := if ok then Dispatched else DispatchFailed;
    if s.pending.None? && s.feedbackStatus.Some? then
      (s, Outcome(Some(c.id), status, s.feedbackStatus.value, GetOr(s.feedbackReason, FeedbackBeforeReturn)))
    else if s.pending != Some(c) then (s, Outcome(Some(c.id), status, NotApplicable, CommandCancelled))
    else if ok then (s, Outcome(Some(c.id), status, AckPending, AwaitingAcknowledgement))
    else (RecordFailure(s.(uncertain := Remember(s.uncertain, c)), ServiceError),
          Outcome(Some(c.id), status, Unknown, OutcomeUnknown))
  }

  // ---- feedback ----------------------------------------------------------------------------------

  predicate Echoes(c: Command, f: Feedback, remembered: bool, now: Time) {
    && c.dispatched && (remembered || now < c.deadline)
    && Confirms(Classify(Some(Contract(c)), f))
  }

  predicate AutomaticEcho(gate: bool, s: State, f: Feedback, p: Preflight, now: Time) {
    && gate && !f.userInitiated && p.ownership.Owned?
    && ( || (exists k | 0 <= k < |s.uncertain| :: Echoes(s.uncertain[k], f, true, now))
         || (s.pending.Some? && Echoes(s.pending.value, f, s.pending.value in s.uncertain, now))
         || (s.completed.Some? && Echoes(s.completed.value, f, s.completed.value in s.uncertain, now)))
  }

  predicate LateMatch(s: State, c: Command, f: Feedback) {
    s.goal == Some(c.requested)
    && TargetMatches(c.requested, f.observed, Tolerance(c.intent.step, c.intent.resolution))
  }

  /** Newest remembered command that is the current goal and matches what was observed. */
  function NewestLateMatch(s: State, u: seq<Command>, f: Feedback): (r: Option<Command>)
    ensures r.Some? ==> r.value in u && LateMatch(s, r.value, f)
    ensures r.None? ==> forall c | c in u :: !LateMatch(s, c, f)
  {
    if u == [] then None
    else if LateMatch(s, u[|u| - 1], f) then Some(u[|u| - 1])
    else NewestLateMatch(s, u[..|u| - 1], f)
  }

  /** New state, answer, and the command whose journal entry must now be resolved. */
  datatype FeedbackResult = FeedbackResult(state: State, outcome: Outcome, resolve: Option<Command>)

  function CommandTolerance(c: Option<Command>): real {
    if c.Some? then Tolerance(c.value.intent.step, c.value.intent.resolution) else 0.0
  }

  function Echoed(s: State, held: bool, f: Feedback, now: Time): FeedbackResult {
    var late := if held || s.goal.None? then None else NewestLateMatch(s, s.uncertain, f);
    if late.Some? then
      FeedbackResult(Acknowledge(s, late.value, f, now),
                     Outcome(Some(late.value.id), Dispatched, InferredAcknowledged, LateTargetAcknowledged), None)
    else
      var stale := !held && s.goal.Some? && s.acknowledged.Some? && s.lastError.None?
        && !TargetMatches(s.acknowledged.value.fingerprint, f.observed, CommandTolerance(s.completed));
      FeedbackResult(
        if stale then RecordFailure(s.(attempts := 0, baseline := Some(f.observed)), LateObsoleteTarget) else s,
        Outcome(None, NotDispatched, NotApplicable, DuplicateEcho), None)
  }

  /** Feedback attributed to the pending command, or found to be somebody else's. */
  function Heard(s: State, c: Command, f: Feedback, now: Time): FeedbackResult
    requires |s.uncertain| <= MAX_WRITE_ATTEMPTS
  {
    var d := Classify(Some(Contract(c)), f);
    var heard := s.(feedbackStatus := Some(d.status), feedbackReason := Some(d.reason));
    var outcome := Outcome(Some(c.id), Dispatched, d.status, d.reason);
    if Confirms(d) then
      FeedbackResult(Acknowledge(heard, c, f, now).(pending := None, completed := Some(c)), outcome, Some(c))
    else if d.status.Rejected? then
      FeedbackResult(RecordFailure(heard.(pending := None, queued := None,
                                          uncertain := Remember(heard.uncertain, c),
                                          baseline := Some(f.observed)), TargetRejected), outcome, Some(c))
    else if d.manual then FeedbackResult(heard.(pending := None, queued := None), outcome, Some(c))
    else FeedbackResult(heard, outcome, None)
  }

  /** The body of feedback once an overdue command has been timed out; `held` is the pending command it
      still holds, if any. */
  function FeedbackBody(gate: bool, s: State, held: Option<Command>, f: Feedback, p: Preflight,
      now: Time): FeedbackResult
    requires |s.uncertain| <= MAX_WRITE_ATTEMPTS
  {
    if AutomaticEcho(gate, s, f, p, now)
       && (held.None? || !TargetMatches(held.value.requested, f.observed, CommandTolerance(held))) then
      Echoed(s, held.Some?, f, now)
    else
      if held.None? then
        FeedbackResult(s, Outcome(None, NotDispatched, NotApplicable, ExternalTarget), None)
      else Heard(s, held.value, f, now)
  }

  function TimeOut(s: State): State
    requires s.pending.Some? && |s.uncertain| <= MAX_WRITE_ATTEMPTS
  {
    RecordFailure(s.(pending := None, queued := None, uncertain := Remember(s.uncertain, s.pending.value)), AckTimeout)
  }

  predicate Overdue(s: State, now: Time) { s.pending.Some? && now >= s.pending.value.deadline }

  /** Feedback up to its first await. When an overdue command is timed out first, `awaits` is true and
      the rest runs later as FeedbackBody with nothing held. */
  function FeedbackHead(gate: bool, s: State, f: Feedback, p: Preflight, now: Time): (FeedbackResult, bool)
    requires |s.uncertain| <= MAX_WRITE_ATTEMPTS
  {
    if s.pending.Some? && !s.pending.value.dispatched then
      (FeedbackResult(s, Outcome(Some(s.pending.value.id), NotDispatched, NotApplicable, OutsideAckWindow), None), false)
    else if Overdue(s, now) then
      (FeedbackResult(TimeOut(s), Outcome(Some(s.pending.value.id), Dispatched, Unknown, OutcomeUnknown),
                      s.pending), true)
    else (FeedbackBody(gate, s, s.pending, f, p, now), false)
  }

  function ResumeTarget(s: State): State {
    s.(pending := None, completed := None, queued := None, feedbackStatus := None, feedbackReason := None,
       goal := None, attempts := 0, writeStatus := Idle, lastError := None, baseline := None, uncertain := [])
  }

  function Suspend(s: State): State { s.(acknowledged := None, writeStatus := WaitingTarget) }
}
