/** How often, how many times, and on what evidence the broker acts, over whole runs. */
module DeliveryLimits {
  import opened Contracts
  import opened Ownership
  import opened Broker
  import opened BrokerSystem
  import opened JournalSafety

  predicate Sending(s: System) { s.flight.AwaitPersist? || s.flight.AwaitMark? }

  // ---- spacing -----------------------------------------------------------------------------------

  function Required(i: Intent, late: bool): Time { if i.explicit && !late then HARD_INTERVAL else ORDINARY_INTERVAL }

  ghost predicate Spaced(calls: seq<Sent>) {
    forall k :: 0 < k < |calls| ==>
      calls[k].at - calls[k - 1].at >= Required(calls[k].command.intent, calls[k].late)
  }

  /** Every call starts at or after its submit's stamp, in the order the calls are made, and none in the future. */
  ghost predicate Stamped(calls: seq<Sent>, clock: Time) {
    && (forall k :: 0 <= k < |calls| ==> calls[k].at <= calls[k].began <= clock)
    && forall j, k :: 0 <= j < k < |calls| ==> calls[j].began <= calls[k].began
  }

  ghost predicate SpacingInv(s: System) {
    && Spaced(s.calls) && Stamped(s.calls, s.clock)
    && (Sending(s) ==> s.flight.now <= s.clock)
    && (if s.calls == [] then s.state.lastDispatchAt.None?
        else s.state.lastDispatchAt == Some(s.calls[|s.calls| - 1].at))
    && ((s.flight.AwaitPersist? || s.flight.AwaitMark?) && s.state.lastDispatchAt.Some? ==>
          s.flight.now - s.state.lastDispatchAt.value >= Required(s.flight.command.intent, s.flight.late))
  }

  lemma FeedbackSpacing(gate: bool, s: State, f: Feedback, p: Preflight, now: Time)
    requires |s.uncertain| <= MAX_WRITE_ATTEMPTS
    ensures FeedbackHead(gate, s, f, p, now).0.state.lastDispatchAt == s.lastDispatchAt
    ensures FeedbackBody(gate, s, None, f, p, now).state.lastDispatchAt == s.lastDispatchAt
  {
  }

  lemma SubmitSpacing(gate: bool, s: State, i: Intent, p: Preflight, now: Time)
    ensures var r := Submit(gate, s, i, p, now);
      && r.state.lastDispatchAt == s.lastDispatchAt
      && (r.Proceed? && s.lastDispatchAt.Some? ==> now - s.lastDispatchAt.value >= Required(i, r.late))
  {
  }

  lemma SpacingOfSubmit(s: System, i: Intent, now: Time, id: string, context: string)
    requires SpacingInv(s) && MayDispatch(s, i, now, id)
    ensures SpacingInv(SubmitStep(s, i, now, id, context))
  {
    SubmitSpacing(s.gate, s.state, i, LivePreflight(s), now);
  }

  lemma OneMoreCall(calls: seq<Sent>, x: Sent, clock: Time)
    requires Spaced(calls) && Stamped(calls, clock) && x.at <= x.began == clock
    requires calls != [] ==> x.at - calls[|calls| - 1].at >= Required(x.command.intent, x.late)
    ensures Spaced(calls + [x]) && Stamped(calls + [x], clock)
  {
  }

  lemma SpacingOfCall(s: System, ok: bool)
    requires SpacingInv(s) && HeadDone(s, ok) && s.flight.AwaitMark? && Answer(s, ok).CallService?
    ensures SpacingInv(Continue(Released(s, ok), Answer(s, ok), s.flight.now, s.flight.late))
  {
    OneMoreCall(s.calls, Sent(s.flight.command, s.flight.now, s.clock, s.flight.late), s.clock);
  }

  /** Nothing else than calls, clock, the last stamp and what is on its way matters to the spacing. */
  lemma SpacingCarries(s: System, t: System)
    requires SpacingInv(s) && t.calls == s.calls && t.clock >= s.clock
    requires t.state.lastDispatchAt == s.state.lastDispatchAt
    requires Sending(t) ==> Sending(s) && t.flight.now == s.flight.now && t.flight.late == s.flight.late
    requires Sending(t) ==> t.flight.command.intent == s.flight.command.intent
    ensures SpacingInv(t)
  {
  }

  lemma SpacingOfNoCall(s: System, ok: bool)
    requires SpacingInv(s) && HeadDone(s, ok) && Sending(s) && !Answer(s, ok).CallService?
    ensures SpacingInv(Continue(Released(s, ok), Answer(s, ok), s.flight.now, s.flight.late))
  {
    SpacingCarries(s, Continue(Released(s, ok), Answer(s, ok), s.flight.now, s.flight.late));
  }

  lemma SpacingOfAnswer(s: System, ok: bool)
    requires SpacingInv(s) && HeadDone(s, ok) && Sending(s)
    ensures SpacingInv(Continue(Released(s, ok), Answer(s, ok), s.flight.now, s.flight.late))
  {
    if Answer(s, ok).CallService? { SpacingOfCall(s, ok); } else { SpacingOfNoCall(s, ok); }
  }

  /** A step that neither submits nor finishes a journal write leaves calls, flight times and stamps alone. */
  lemma SpacingOfOthers(s: System, l: Label)
    requires SpacingInv(s) && Enabled(s, l) && !l.DoSubmit? && !l.DoDrain? && !l.JournalFinish?
    requires !l.DoFeedback? && !l.DoFeedbackTail?
    ensures SpacingInv(Apply(s, l))
  {
    SpacingCarries(s, Apply(s, l));
  }

  lemma SpacingOfFeedback(s: System, l: Label)
    requires SpacingInv(s) && Enabled(s, l) && (l.DoFeedback? || l.DoFeedbackTail?)
    ensures SpacingInv(Apply(s, l))
  {
    FeedbackSpacing(s.gate, s.state, l.feedback, LivePreflight(s), l.now);
    SpacingCarries(s, Apply(s, l));
  }

  lemma SpacingOfFinish(s: System, ok: bool)
    requires SpacingInv(s) && HeadDone(s, ok)
    ensures SpacingInv(FinishStep(s, ok))
  {
    if Served(s) && Sending(s) { SpacingOfAnswer(s, ok); }
  }

  lemma SpacingOfDrain(s: System, now: Time, id: string, context: string)
    requires SpacingInv(s) && Enabled(s, DoDrain(now, id, context))
    ensures SpacingInv(Apply(s, DoDrain(now, id, context)))
  {
    var drained := s.(state := s.state.(queued := None));
    SpacingCarries(s, drained);
    SpacingOfSubmit(drained, s.state.queued.value, now, id, context);
  }

  lemma SpacingStep(s: System, l: Label)
    requires SpacingInv(s)
    ensures SpacingInv(Step(s, l))
  {
    if Enabled(s, l) {
      if l.DoSubmit? { SpacingOfSubmit(s, l.intent, l.now, l.id, l.contextId); }
      else if l.DoDrain? { SpacingOfDrain(s, l.now, l.id, l.contextId); }
      else if l.JournalFinish? { SpacingOfFinish(s, l.ok); }
      else if l.DoFeedback? || l.DoFeedbackTail? { SpacingOfFeedback(s, l); }
      else { SpacingOfOthers(s, l); }
    }
  }

  lemma SpacingRun(s: System, run: seq<Label>, k: nat)
    requires Initial(s) && k <= |run|
    ensures SpacingInv(At(s, run, k))
  {
    var spaced := (t: System) => SpacingInv(t);
    forall t, l | spaced(t) ensures spaced(Step(t, l)) { SpacingStep(t, l); }
    Throughout(spaced, s, run, 0, k);
  }

  lemma {:induction false} SpanOfCalls(calls: seq<Sent>, i: nat, j: nat)
    requires Spaced(calls) && i <= j < |calls|
    ensures calls[j].at - calls[i].at >= HARD_INTERVAL * (j - i)
  {
    if i < j { SpanOfCalls(calls, i, j - 1); }
  }

  /** How long a call waited between its submit's stamp and its start: for older stamps, the target lock and the
      journal. */
  function Wait(x: Sent): Time { x.began - x.at }

  lemma SpacedCallsSpan(calls: seq<Sent>, clock: Time, i: nat, j: nat)
    requires Spaced(calls) && Stamped(calls, clock) && i <= j < |calls|
    ensures calls[j].began - calls[i].at >= calls[j].at - calls[i].at >= HARD_INTERVAL * (j - i)
    ensures calls[i].at <= calls[i].began <= calls[j].began
    ensures i + 1 == j && (calls[j].late || !calls[j].command.intent.explicit) ==>
      calls[j].at - calls[i].at >= ORDINARY_INTERVAL
  {
    SpanOfCalls(calls, i, j);
  }

  /** In every run the submits behind two successive calls are stamped a minute apart, or ten seconds when the later
      is an explicit transition with no failed write outstanding. Measured from the stamp of one call to the start of
      another, k calls span at least 10(k - 1) seconds. */
  lemma CallsAreSpaced(s: System, run: seq<Label>, k: nat, i: nat, j: nat)
    requires Initial(s) && k <= |run| && i <= j < |At(s, run, k).calls|
    ensures var calls := At(s, run, k).calls;
      && calls[j].began - calls[i].at >= calls[j].at - calls[i].at >= HARD_INTERVAL * (j - i)
      && calls[i].at <= calls[i].began <= calls[j].began
      && (i + 1 == j && (calls[j].late || !calls[j].command.intent.explicit) ==>
            calls[j].at - calls[i].at >= ORDINARY_INTERVAL)
  {
    SpacingRun(s, run, k);
    SpacedCallsSpan(At(s, run, k).calls, At(s, run, k).clock, i, j);
  }

  /** Between real starts only the first call's wait is lost, however many calls follow. */
  lemma RealStartsAreSpaced(s: System, run: seq<Label>, k: nat, i: nat, j: nat)
    requires Initial(s) && k <= |run| && i <= j < |At(s, run, k).calls|
    ensures var calls := At(s, run, k).calls;
      calls[j].began - calls[i].began >= HARD_INTERVAL * (j - i) - Wait(calls[i])
  {
    CallsAreSpaced(s, run, k, i, j);
  }

  // ---- attempts ----------------------------------------------------------------------------------

  ghost predicate StreakInv(s: System) {
    && s.state.attempts <= MAX_WRITE_ATTEMPTS
    && (s.state.attempts > 0 ==>
          s.state.lastError.Some? || (s.state.pending.Some? && s.state.pending.value.dispatched))
    && (Sending(s) ==> s.state.attempts < MAX_WRITE_ATTEMPTS)
    && (Sending(s) && s.state.pending.Some? ==> !s.state.pending.value.dispatched)
  }

  /** The step ends a failing streak: the count is reset, a recorded failure is forgiven, or a sent command
      is let go without one. */
  ghost predicate Excuses(s: System, t: System) {
    || t.state.attempts < s.state.attempts
    || (s.state.lastError.Some? && t.state.lastError.None?)
    || (s.state.pending.Some? && s.state.pending.value.dispatched && t.state.pending.None? && t.state.lastError.None?)
  }

  lemma StreakKnown(s: State, i: Intent, p: Preflight, now: Time)
    ensures var r := SubmitKnown(s, i, p, now);
      && r.state.pending == s.pending && r.state.attempts == s.attempts && r.state.lastError == s.lastError
      && (r.Proceed? ==> s.attempts < MAX_WRITE_ATTEMPTS || s.lastError.None?)
  {
  }

  lemma StreakSubmit(gate: bool, s: State, i: Intent, p: Preflight, now: Time)
    requires s.attempts > 0 && s.pending.None? ==> s.lastError.Some?
    ensures var r := Submit(gate, s, i, p, now);
      && r.state.pending == s.pending && r.state.attempts <= s.attempts
      && (r.Proceed? && r.state.attempts == s.attempts ==> s.attempts < MAX_WRITE_ATTEMPTS || s.lastError.None?)
      && (r.Proceed? ==> s.pending.None? && r.state.lastError == s.lastError)
      && (r.state.lastError == s.lastError || r.state.lastError.None?)
  {
    var aimed :=
      if s.goal != Some(Requested(i)) then s.(goal := Some(Requested(i)), attempts := 0, writeStatus := Idle) else s;
    StreakKnown(Rebase(aimed, i, p), i, p, now);
  }

  lemma StreakFeedback(gate: bool, s: State, f: Feedback, p: Preflight, now: Time)
    requires |s.uncertain| <= MAX_WRITE_ATTEMPTS
    ensures var r := FeedbackHead(gate, s, f, p, now).0.state;
      && r.attempts <= s.attempts
      && (r.pending == s.pending || (r.pending.None? && s.pending.Some?))
      && (r.lastError.Some? || r.lastError == s.lastError || r.attempts == s.attempts)
    ensures var r := FeedbackBody(gate, s, None, f, p, now).state;
      r.attempts <= s.attempts && r.pending == s.pending
  {
  }

  lemma StreakOfSubmit(s: System, i: Intent, now: Time, id: string, context: string)
    requires StreakInv(s) && MayDispatch(s, i, now, id) && !Excuses(s, SubmitStep(s, i, now, id, context))
    ensures StreakInv(SubmitStep(s, i, now, id, context)) && SubmitStep(s, i, now, id, context).calls == s.calls
    ensures SubmitStep(s, i, now, id, context).state.attempts == s.state.attempts
  {
    StreakSubmit(s.gate, s.state, i, LivePreflight(s), now);
  }

  lemma StreakOfAnswer(s: System, ok: bool)
    requires StreakInv(s) && HeadDone(s, ok) && Sending(s) && (s.flight.AwaitMark? ==> s.flight.command.dispatched)
    ensures var r := Continue(Released(s, ok), Answer(s, ok), s.flight.now, s.flight.late);
      StreakInv(r) && |r.calls| - |s.calls| == r.state.attempts - s.state.attempts
  {
    match Answer(s, ok)
    case Stop(_, _) =>
    case Withdraw(_, _, _) =>
    case MarkNext(_, _) =>
    case CallService(_, _) =>
  }

  lemma StreakOfFeedback(s: System, f: Feedback, now: Time)
    requires StreakInv(s) && |s.state.uncertain| <= MAX_WRITE_ATTEMPTS
    requires f.target == s.target && !Excuses(s, Apply(s, DoFeedback(f, now)))
    ensures StreakInv(Apply(s, DoFeedback(f, now)))
    ensures Apply(s, DoFeedback(f, now)).state.attempts == s.state.attempts
  {
    StreakFeedback(s.gate, s.state, f, LivePreflight(s), now);
  }

  lemma StreakOfOthers(s: System, l: Label)
    requires StreakInv(s) && Enabled(s, l) && !Excuses(s, Apply(s, l))
    requires !l.DoSubmit? && !l.DoDrain? && !l.DoFeedback? && !l.JournalFinish?
    ensures StreakInv(Apply(s, l)) && Apply(s, l).calls == s.calls && Apply(s, l).state.attempts == s.state.attempts
  {
    if l.DoFeedbackTail? { StreakFeedback(s.gate, s.state, l.feedback, LivePreflight(s), l.now); }
  }

  lemma StreakOfFinish(s: System, ok: bool)
    requires StreakInv(s) && Inv(s) && HeadDone(s, ok)
    ensures StreakInv(FinishStep(s, ok))
    ensures |FinishStep(s, ok).calls| - |s.calls| == FinishStep(s, ok).state.attempts - s.state.attempts
  {
    if Served(s) && Sending(s) { StreakOfAnswer(s, ok); }
  }

  lemma StreakOfDrain(s: System, now: Time, id: string, context: string)
    requires StreakInv(s) && Enabled(s, DoDrain(now, id, context)) && !Excuses(s, Apply(s, DoDrain(now, id, context)))
    ensures var t := Apply(s, DoDrain(now, id, context));
      StreakInv(t) && t.state.attempts == s.state.attempts && t.calls == s.calls
  {
    var drained := s.(state := s.state.(queued := None));
    StreakOfSubmit(drained, s.state.queued.value, now, id, context);
  }

  lemma StreakStep(s: System, l: Label)
    requires StreakInv(s) && Inv(s) && !Excuses(s, Step(s, l))
    ensures StreakInv(Step(s, l))
    ensures |Step(s, l).calls| - |s.calls| == Step(s, l).state.attempts - s.state.attempts
  {
    if Enabled(s, l) {
      if l.DoSubmit? { StreakOfSubmit(s, l.intent, l.now, l.id, l.contextId); }
      else if l.DoDrain? { StreakOfDrain(s, l.now, l.id, l.contextId); }
      else if l.DoFeedback? { StreakOfFeedback(s, l.feedback, l.now); }
      else if l.JournalFinish? { StreakOfFinish(s, l.ok); }
      else { StreakOfOthers(s, l); }
    }
  }

  ghost predicate ExcusedAt(s: System, run: seq<Label>, k: nat)
    requires k < |run|
  {
    Excuses(At(s, run, k), At(s, run, k + 1))
  }

  ghost predicate Unexcused(s: System, run: seq<Label>, i: nat, j: nat)
    requires i <= j <= |run|
  {
    forall k :: i <= k < j ==> !ExcusedAt(s, run, k)
  }

  ghost predicate StreakAt(s: System, run: seq<Label>, k: nat)
    requires k <= |run|
  {
    StreakInv(At(s, run, k))
  }

  /** Calls made beyond those the attempt count stands for. */
  ghost function Forgotten(s: System, run: seq<Label>, k: nat): int
    requires k <= |run|
  {
    |At(s, run, k).calls| - At(s, run, k).state.attempts
  }

  lemma StreakAdvances(s: System, run: seq<Label>, k: nat)
    requires Initial(s) && k < |run| && StreakAt(s, run, k) && !ExcusedAt(s, run, k)
    ensures StreakAt(s, run, k + 1) && Forgotten(s, run, k + 1) == Forgotten(s, run, k)
  {
    RunKeeps(s, run, k);
    StreakStep(At(s, run, k), run[k]);
  }

  lemma StreakRun(s: System, run: seq<Label>, i: nat, j: nat)
    requires Initial(s) && i <= j <= |run| && StreakAt(s, run, i) && Unexcused(s, run, i, j)
    ensures StreakAt(s, run, j) && Forgotten(s, run, j) == Forgotten(s, run, i)
  {
    var good := (k: nat) => k <= |run| && StreakAt(s, run, k);
    var count := (k: nat) => if k <= |run| then Forgotten(s, run, k) else 0;
    forall k: nat | i <= k < j && good(k) ensures good(k + 1) && count(k + 1) == count(k) {
      StreakAdvances(s, run, k);
    }
    Chain(good, count, i, j);
  }

  /** A streak in which nothing is acknowledged, forgiven or reset makes at most five calls. */
  lemma AtMostFiveCalls(s: System, run: seq<Label>, i: nat, j: nat)
    requires Initial(s) && i <= j <= |run| && Unexcused(s, run, i, j)
    requires At(s, run, i).state.attempts == 0 && !Sending(At(s, run, i))
    ensures |At(s, run, j).calls| - |At(s, run, i).calls| <= MAX_WRITE_ATTEMPTS
  {
    StreakRun(s, run, i, j);
  }

  /** Once the five are spent and the last has failed, a permitted submit of the same goal is answered
      write_failed, unless recovery finds the device already there. */
  lemma ThenWriteFailed(s: System, run: seq<Label>, i: nat, j: nat, intent: Intent, now: Time)
    requires Initial(s) && i <= j <= |run| && Unexcused(s, run, i, j)
    requires At(s, run, i).state.attempts == 0 && !Sending(At(s, run, i))
    requires |At(s, run, j).calls| - |At(s, run, i).calls| == MAX_WRITE_ATTEMPTS
    requires var t := At(s, run, j); var p := LivePreflight(t);
      && t.gate && PreflightReason(intent, p, now).None?
      && t.state.pending.None? && t.state.goal == Some(Requested(intent))
      && !(intent.recovery && p.observed.Some? && TargetMatches(Requested(intent), p.observed.value, intent.resolution))
      && !LiveTargetForeign(Rebase(t.state, intent, p), p, intent)
    ensures var t := At(s, run, j);
      var r := Submit(t.gate, t.state, intent, LivePreflight(t), now);
      r.Answered? && r.outcome.reason == WriteFailed
  {
    StreakRun(s, run, i, j);
  }

  // ---- acknowledgements --------------------------------------------------------------------------

  /** The stored room values are the intent's, and the stored setpoint is what the intent asked for: within a quarter
      step and the resolution, or for a recovery intent, which may find the device already there, within the
      resolution. */
  predicate AckFrom(a: AckTarget, i: Intent) {
    && a.room == i.room && a.low == i.roomLow && a.high == i.roomHigh
    && (TargetMatches(Requested(i), a.fingerprint, Tolerance(i.step, i.resolution))
        || (i.recovery && TargetMatches(Requested(i), a.fingerprint, i.resolution)))
  }

  ghost predicate Genuine(a: Option<AckTarget>, submitted: set<Intent>) {
    a.Some? ==> exists i :: i in submitted && AckFrom(a.value, i)
  }

  ghost predicate Rooted(c: Command, submitted: set<Intent>) {
    c.intent in submitted && c.requested == Requested(c.intent)
  }

  ghost predicate StateRooted(s: State, submitted: set<Intent>) {
    && Genuine(s.acknowledged, submitted)
    && (s.pending.Some? ==> Rooted(s.pending.value, submitted))
    && (s.completed.Some? ==> Rooted(s.completed.value, submitted))
    && (forall c :: c in s.uncertain ==> Rooted(c, submitted))
  }

  ghost predicate AckInv(s: System) {
    && StateRooted(s.state, s.submitted)
    && (Sending(s) || s.flight.InService? ==> Rooted(s.flight.command, s.submitted))
  }

  lemma RememberedAreRooted(u: seq<Command>, c: Command, submitted: set<Intent>)
    requires |u| <= MAX_WRITE_ATTEMPTS && Rooted(c, submitted) && forall d :: d in u ==> Rooted(d, submitted)
    ensures forall d :: d in Remember(u, c) ==> Rooted(d, submitted)
  {
  }

  lemma AcknowledgedIsGenuine(c: Command, f: Feedback, now: Time, submitted: set<Intent>)
    requires Rooted(c, submitted)
    requires TargetMatches(c.requested, f.observed, Tolerance(c.intent.step, c.intent.resolution))
    ensures Genuine(Some(AckTarget(f.observed, c.intent.room, c.intent.roomLow, c.intent.roomHigh, now)), submitted)
  {
    assert AckFrom(AckTarget(f.observed, c.intent.room, c.intent.roomLow, c.intent.roomHigh, now), c.intent);
  }

  lemma BodyAcks(gate: bool, s: State, held: Option<Command>, f: Feedback, p: Preflight, now: Time,
      submitted: set<Intent>)
    requires StateRooted(s, submitted) && |s.uncertain| <= MAX_WRITE_ATTEMPTS && (held.Some? ==> held == s.pending)
    ensures var r := FeedbackBody(gate, s, held, f, p, now).state;
      StateRooted(r, submitted) && (r.acknowledged != s.acknowledged ==> !f.userInitiated)
  {
    if held.Some? {
      ConfirmationLaw(Contract(held.value), f);
      RememberedAreRooted(s.uncertain, held.value, submitted);
      if Confirms(Classify(Some(Contract(held.value)), f)) { AcknowledgedIsGenuine(held.value, f, now, submitted); }
    }
    var late := NewestLateMatch(s, s.uncertain, f);
    if late.Some? { AcknowledgedIsGenuine(late.value, f, now, submitted); }
  }

  predicate SameCommands(s: State, t: State) {
    t.pending == s.pending && t.completed == s.completed && t.uncertain == s.uncertain
  }

  lemma KnownKeepsCommands(s: State, i: Intent, p: Preflight, now: Time)
    ensures SameCommands(s, SubmitKnown(s, i, p, now).state)
  {
  }

  lemma SubmitKeepsCommands(gate: bool, s: State, i: Intent, p: Preflight, now: Time)
    ensures SameCommands(s, Submit(gate, s, i, p, now).state)
  {
    var aimed :=
      if s.goal != Some(Requested(i)) then s.(goal := Some(Requested(i)), attempts := 0, writeStatus := Idle) else s;
    KnownKeepsCommands(Rebase(aimed, i, p), i, p, now);
  }

  /** A submit acknowledges only what recovery finds on the device, and forgets an acknowledgement at most. */
  lemma SubmitAcknowledges(gate: bool, s: State, i: Intent, p: Preflight, now: Time)
    ensures var r := Submit(gate, s, i, p, now).state;
      r.acknowledged == s.acknowledged || r.acknowledged.None?
      || (i.recovery && p.observed.Some? && TargetMatches(Requested(i), p.observed.value, i.resolution)
          && r.acknowledged == Some(AckTarget(p.observed.value, i.room, i.roomLow, i.roomHigh, now)))
  {
  }

  lemma SubmitAcks(gate: bool, s: State, i: Intent, p: Preflight, now: Time, submitted: set<Intent>)
    requires StateRooted(s, submitted) && i in submitted
    ensures StateRooted(Submit(gate, s, i, p, now).state, submitted)
  {
    SubmitKeepsCommands(gate, s, i, p, now);
    SubmitAcknowledges(gate, s, i, p, now);
    var r := Submit(gate, s, i, p, now).state;
    if i.recovery && p.observed.Some? && TargetMatches(Requested(i), p.observed.value, i.resolution) {
      assert AckFrom(AckTarget(p.observed.value, i.room, i.roomLow, i.roomHigh, now), i);
    }
  }

  lemma MoreSubmitted(s: State, before: set<Intent>, after: set<Intent>)
    requires StateRooted(s, before) && before <= after
    ensures StateRooted(s, after)
  {
  }

  lemma AckSubmit(s: System, i: Intent, now: Time, id: string, context: string)
    requires AckInv(s)
    ensures AckInv(SubmitStep(s, i, now, id, context))
  {
    MoreSubmitted(s.state, s.submitted, s.submitted + {i});
    SubmitAcks(s.gate, s.state, i, LivePreflight(s), now, s.submitted + {i});
  }

  lemma HeadAcks(gate: bool, s: State, f: Feedback, p: Preflight, now: Time, submitted: set<Intent>)
    requires StateRooted(s, submitted) && |s.uncertain| <= MAX_WRITE_ATTEMPTS
    ensures StateRooted(FeedbackHead(gate, s, f, p, now).0.state, submitted)
  {
    BodyAcks(gate, s, s.pending, f, p, now, submitted);
    if s.pending.Some? { RememberedAreRooted(s.uncertain, s.pending.value, submitted); }
  }

  lemma AckFeedback(s: System, f: Feedback, now: Time)
    requires AckInv(s) && Enabled(s, DoFeedback(f, now))
    ensures AckInv(Apply(s, DoFeedback(f, now)))
  {
    HeadAcks(s.gate, s.state, f, LivePreflight(s), now, s.submitted);
  }

  lemma AckAnswer(s: System, ok: bool)
    requires AckInv(s) && HeadDone(s, ok) && Sending(s)
    ensures AckInv(Continue(Released(s, ok), Answer(s, ok), s.flight.now, s.flight.late))
  {
    match Answer(s, ok)
    case Stop(_, _) =>
    case Withdraw(_, _, _) =>
    case MarkNext(_, _) =>
    case CallService(_, _) =>
  }

  lemma AckOfFinish(s: System, ok: bool)
    requires AckInv(s) && HeadDone(s, ok)
    ensures AckInv(FinishStep(s, ok))
  {
    if Served(s) && Sending(s) { AckAnswer(s, ok); }
  }

  lemma AckReturn(s: System, ok: bool)
    requires AckInv(s) && Enabled(s, DoServiceReturn(ok))
    ensures AckInv(Apply(s, DoServiceReturn(ok)))
  {
    RememberedAreRooted(s.state.uncertain, s.flight.command, s.submitted);
  }

  lemma AckTail(s: System, f: Feedback, now: Time)
    requires AckInv(s) && Enabled(s, DoFeedbackTail(f, now))
    ensures AckInv(Apply(s, DoFeedbackTail(f, now)))
  {
    BodyAcks(s.gate, s.state, None, f, LivePreflight(s), now, s.submitted);
  }

  lemma AckTimeout(s: System, now: Time)
    requires AckInv(s) && Enabled(s, DoTimeout(now))
    ensures AckInv(Apply(s, DoTimeout(now)))
  {
    RememberedAreRooted(s.state.uncertain, s.state.pending.value, s.submitted);
  }

  lemma AckOfOthers(s: System, l: Label)
    requires AckInv(s) && Enabled(s, l) && !l.DoSubmit? && !l.DoDrain? && !l.DoFeedback? && !l.JournalFinish?
    requires !l.DoServiceReturn? && !l.DoFeedbackTail? && !l.DoTimeout?
    ensures AckInv(Apply(s, l))
  {
  }

  lemma AckStep(s: System, l: Label)
    requires AckInv(s)
    ensures AckInv(Step(s, l))
  {
    if Enabled(s, l) {
      if l.DoSubmit? { AckSubmit(s, l.intent, l.now, l.id, l.contextId); }
      else if l.DoDrain? {
        AckSubmit(s.(state := s.state.(queued := None)), s.state.queued.value, l.now, l.id, l.contextId);
      }
      else if l.DoServiceReturn? { AckReturn(s, l.ok); }
      else if l.DoFeedback? { AckFeedback(s, l.feedback, l.now); }
      else if l.DoFeedbackTail? { AckTail(s, l.feedback, l.now); }
      else if l.DoTimeout? { AckTimeout(s, l.now); }
      else if l.JournalFinish? { AckOfFinish(s, l.ok); }
      else { AckOfOthers(s, l); }
    }
  }

  /** In every run, an acknowledged target is one some submitted intent asked for, stored with that intent's own
      room values: by direct, inferred, late and recovery acknowledgement alike. */
  lemma AcknowledgementsAreGenuine(s: System, run: seq<Label>, k: nat)
    requires Initial(s) && k <= |run|
    ensures AckInv(At(s, run, k))
    ensures Genuine(At(s, run, k).state.acknowledged, At(s, run, k).submitted)
  {
    var rooted := (t: System) => AckInv(t);
    forall t, l | rooted(t) ensures rooted(Step(t, l)) { AckStep(t, l); }
    Throughout(rooted, s, run, 0, k);
  }

  /** Nothing a user does through the device is ever taken for an acknowledgement. */
  lemma UsersAcknowledgeNothing(s: System, run: seq<Label>, k: nat, f: Feedback, now: Time)
    requires Initial(s) && k < |run| && f.userInitiated
    requires run[k] == DoFeedback(f, now) || run[k] == DoFeedbackTail(f, now)
    ensures At(s, run, k + 1).state.acknowledged == At(s, run, k).state.acknowledged
  {
    AcknowledgementsAreGenuine(s, run, k);
    var t := At(s, run, k);
    if Enabled(t, run[k]) {
      BodyAcks(t.gate, t.state, if run[k].DoFeedback? then t.state.pending else None, f, LivePreflight(t), now, t.submitted);
    }
  }
}
