/** What a report from the device, a returned call or a deadline makes of the broker's record. */
module FeedbackLaw {
  import opened Contracts
  import opened Ownership
  import opened Broker
  import opened SubmitLaw

  // ---- whose report it is --------------------------------------------------------------------------

  /** The report is from the same target and ownership as the command, and from no older world. */
  predicate Current(c: Command, f: Feedback) {
    && c.intent.target == f.target && c.intent.ownershipRevision == f.ownershipRevision
    && c.intent.capabilityGeneration == f.capabilityGeneration
    && c.intent.entryGeneration <= f.entryGeneration && c.intent.inputGeneration <= f.inputGeneration
  }

  function Grain(i: Intent): real { Min(i.step / 4.0, i.resolution) }

  predicate Shows(c: Command, f: Feedback) { TargetMatches(c.requested, f.observed, Grain(c.intent)) }

  /** Nobody else has set the target since the command was formed, as far as the report can tell. */
  predicate Undisputed(c: Command, f: Feedback) { !f.userInitiated && c.intent.externalRevision == f.externalRevision }

  /** Exactly the reports that confirm a command. */
  predicate Answers(c: Command, f: Feedback) {
    Current(c, f) && Undisputed(c, f) && Grain(c.intent) >= 0.0 && Shows(c, f)
  }

  /** The report carries the command's own context. */
  predicate Own(c: Command, f: Feedback) { f.contextId == Some(c.contextId) || f.parentContextId == Some(c.contextId) }

  lemma AnswersConfirm(c: Command, f: Feedback)
    ensures Confirms(Classify(Some(Contract(c)), f)) <==> Answers(c, f)
  {
    ConfirmationLaw(Contract(c), f);
  }

  /** What a report is to a command: its confirmation, by context or by setpoint; its refusal, when the context is its
      own and the setpoint is not; somebody else's doing; or too old to tell. */
  lemma ClassificationExactly(c: Command, f: Feedback)
    ensures var d := Classify(Some(Contract(c)), f);
      && (d.status.Acknowledged? <==> Answers(c, f) && Own(c, f))
      && (d.status.InferredAcknowledged? <==> Answers(c, f) && !Own(c, f))
      && (d.status.Rejected? <==>
            Current(c, f) && (Grain(c.intent) < 0.0 || (Undisputed(c, f) && Own(c, f) && !Shows(c, f))))
      && (d.manual <==> Current(c, f) && Grain(c.intent) >= 0.0
                        && (!Undisputed(c, f) || (!Own(c, f) && !Shows(c, f))))
      && (d.reason.ObsoleteFeedback? <==> !Current(c, f))
      && (d.status.NotApplicable? <==> d.manual || !Current(c, f))
  {
  }

  /** With nothing pending any report is somebody else's. */
  lemma NothingPendingIsForeign(f: Feedback)
    ensures Classify(None, f) == Decision(NotApplicable, ExternalTarget, true)
  {
  }

  /** Heard again: some command that is still remembered, or was sent and is within its deadline, would be confirmed. */
  ghost predicate Echo(s: State, f: Feedback, now: Time) {
    exists c :: && (c in s.uncertain || s.pending == Some(c) || s.completed == Some(c))
                && c.dispatched && (c in s.uncertain || now < c.deadline) && Answers(c, f)
  }

  lemma EchoExactly(gate: bool, s: State, f: Feedback, p: Preflight, now: Time)
    ensures AutomaticEcho(gate, s, f, p, now) <==> gate && !f.userInitiated && p.ownership.Owned? && Echo(s, f, now)
  {
    if k :| 0 <= k < |s.uncertain| && Echoes(s.uncertain[k], f, true, now) { AnswersConfirm(s.uncertain[k], f); }
    if s.pending.Some? { AnswersConfirm(s.pending.value, f); }
    if s.completed.Some? { AnswersConfirm(s.completed.value, f); }
    if c :| && (c in s.uncertain || s.pending == Some(c) || s.completed == Some(c))
            && c.dispatched && (c in s.uncertain || now < c.deadline) && Answers(c, f) {
      AnswersConfirm(c, f);
      if c in s.uncertain {
        var k :| 0 <= k < |s.uncertain| && s.uncertain[k] == c;
        assert Echoes(s.uncertain[k], f, true, now);
      }
    }
  }

  // ---- reports while a command is pending ----------------------------------------------------------

  /** The record after a command has been confirmed by what the device shows. */
  predicate Confirmed(s: State, t: State, c: Command, f: Feedback, now: Time) {
    && t.acknowledged == Some(AckTarget(f.observed, c.intent.room, c.intent.roomLow, c.intent.roomHigh, now))
    && t.baseline == Some(f.observed) && t.lastError.None? && t.writeStatus.Confirmed?
    && t.attempts == s.attempts && t.goal == s.goal && t.uncertain == s.uncertain && t.lastDispatchAt == s.lastDispatchAt
    && t.queued == s.queued
  }

  /** A report that confirms the pending command completes it, whatever else it may echo, and its entry is resolved. */
  lemma PendingIsConfirmed(gate: bool, s: State, c: Command, f: Feedback, p: Preflight, now: Time)
    requires |s.uncertain| <= MAX_WRITE_ATTEMPTS && s.pending == Some(c) && Answers(c, f)
    ensures var r := FeedbackBody(gate, s, Some(c), f, p, now);
      && Confirmed(s, r.state, c, f, now) && r.state.pending.None? && r.state.completed == Some(c) && r.resolve == Some(c)
      && r.outcome.id == Some(c.id) && r.outcome.dispatch.Dispatched?
      && r.outcome.ack == (if Own(c, f) then Acknowledged else InferredAcknowledged)
      && r.state.feedbackStatus == Some(r.outcome.ack) && r.state.feedbackReason == Some(r.outcome.reason)
  {
    ClassificationExactly(c, f);
  }

  /** The device took the command and made something else of it: the command is uncertain, the write has failed, nothing
      stays queued, and what the device shows becomes the baseline. */
  lemma PendingIsRefused(gate: bool, s: State, c: Command, f: Feedback, p: Preflight, now: Time)
    requires |s.uncertain| <= MAX_WRITE_ATTEMPTS && s.pending == Some(c) && !(gate && p.ownership.Owned? && Echo(s, f, now))
    requires Current(c, f) && Grain(c.intent) >= 0.0 && Undisputed(c, f) && Own(c, f) && !Shows(c, f)
    ensures var r := FeedbackBody(gate, s, Some(c), f, p, now);
      && r.state.pending.None? && r.state.queued.None? && r.state.baseline == Some(f.observed)
      && r.state.uncertain == Remember(s.uncertain, c) && r.state.lastError == Some(TargetRejected)
      && r.state.acknowledged == s.acknowledged && r.state.attempts == s.attempts && r.state.goal == s.goal
      && r.state.writeStatus == (if s.attempts >= MAX_WRITE_ATTEMPTS then Failed else RetryPending)
      && r.outcome.ack.Rejected? && r.resolve == Some(c)
  {
    ClassificationExactly(c, f);
    EchoExactly(gate, s, f, p, now);
  }

  /** Somebody else set the target while the command was pending: the command is dropped and nothing stays queued,
      without a failed write. */
  lemma PendingIsOverruled(gate: bool, s: State, c: Command, f: Feedback, p: Preflight, now: Time)
    requires |s.uncertain| <= MAX_WRITE_ATTEMPTS && s.pending == Some(c) && !(gate && p.ownership.Owned? && Echo(s, f, now))
    requires Current(c, f) && Grain(c.intent) >= 0.0 && (!Undisputed(c, f) || (!Own(c, f) && !Shows(c, f)))
    ensures var r := FeedbackBody(gate, s, Some(c), f, p, now);
      && r.state.pending.None? && r.state.queued.None? && r.state.lastError == s.lastError
      && r.state.uncertain == s.uncertain && r.state.acknowledged == s.acknowledged && r.state.baseline == s.baseline
      && r.outcome.ack.NotApplicable? && r.resolve == Some(c)
  {
    ClassificationExactly(c, f);
    if f.userInitiated { assert !AutomaticEcho(gate, s, f, p, now); }
    EchoExactly(gate, s, f, p, now);
  }

  /** A user's hand overrules even what looks like an echo. */
  lemma UserOverrules(gate: bool, s: State, c: Command, f: Feedback, p: Preflight, now: Time)
    requires |s.uncertain| <= MAX_WRITE_ATTEMPTS && s.pending == Some(c) && f.userInitiated
    requires Current(c, f) && Grain(c.intent) >= 0.0
    ensures var r := FeedbackBody(gate, s, Some(c), f, p, now);
      r.state.pending.None? && r.state.queued.None? && r.state.acknowledged == s.acknowledged && r.resolve == Some(c)
  {
    ClassificationExactly(c, f);
  }

  /** A report from an older world, and the echo of another command, leave the pending command waiting. */
  lemma PendingGoesOnWaiting(gate: bool, s: State, c: Command, f: Feedback, p: Preflight, now: Time)
    requires |s.uncertain| <= MAX_WRITE_ATTEMPTS && s.pending == Some(c)
    requires (!f.userInitiated && gate && p.ownership.Owned? && Echo(s, f, now) && !Shows(c, f))
          || (!Current(c, f) && !(gate && p.ownership.Owned? && Echo(s, f, now)))
    ensures var r := FeedbackBody(gate, s, Some(c), f, p, now);
      && r.state == s.(feedbackStatus := r.state.feedbackStatus, feedbackReason := r.state.feedbackReason)
      && r.resolve.None?
      && (r.outcome.reason.DuplicateEcho? || r.outcome.reason.ObsoleteFeedback?)
      && (r.outcome.reason.DuplicateEcho? ==> r.state == s)
  {
    ClassificationExactly(c, f);
    EchoExactly(gate, s, f, p, now);
  }

  // ---- reports with nothing pending ----------------------------------------------------------------

  /** The broker aims at this command's setpoint and the device shows it. */
  predicate Late(s: State, c: Command, f: Feedback) { s.goal == Some(c.requested) && Shows(c, f) }

  /** The search finds the last one remembered. */
  lemma {:induction false} NewestIsLast(s: State, u: seq<Command>, f: Feedback) returns (k: nat)
    requires NewestLateMatch(s, u, f).Some?
    ensures k < |u| && NewestLateMatch(s, u, f) == Some(u[k]) && Late(s, u[k], f)
    ensures forall j :: k < j < |u| ==> !Late(s, u[j], f)
  {
    if Late(s, u[|u| - 1], f) { k := |u| - 1; } else { k := NewestIsLast(s, u[..|u| - 1], f); }
  }

  /** What no automatic echo explains changes nothing here; it is reported as somebody else's. */
  lemma StrangerChangesNothing(gate: bool, s: State, f: Feedback, p: Preflight, now: Time)
    requires |s.uncertain| <= MAX_WRITE_ATTEMPTS && !(gate && !f.userInitiated && p.ownership.Owned? && Echo(s, f, now))
    ensures FeedbackBody(gate, s, None, f, p, now)
         == FeedbackResult(s, Outcome(None, NotDispatched, NotApplicable, ExternalTarget), None)
  {
    EchoExactly(gate, s, f, p, now);
  }

  /** An echo of the current goal's own command, given up before, acknowledges the newest such command after all. */
  lemma LateEchoAcknowledges(gate: bool, s: State, f: Feedback, p: Preflight, now: Time) returns (k: nat)
    requires |s.uncertain| <= MAX_WRITE_ATTEMPTS && gate && !f.userInitiated && p.ownership.Owned? && Echo(s, f, now)
    requires exists c :: c in s.uncertain && Late(s, c, f)
    ensures k < |s.uncertain| && Late(s, s.uncertain[k], f)
    ensures forall j :: k < j < |s.uncertain| ==> !Late(s, s.uncertain[j], f)
    ensures var r := FeedbackBody(gate, s, None, f, p, now);
      && Confirmed(s, r.state, s.uncertain[k], f, now) && r.state.pending == s.pending && r.state.completed == s.completed
      && r.outcome == Outcome(Some(s.uncertain[k].id), Dispatched, InferredAcknowledged, LateTargetAcknowledged)
      && r.resolve.None?
  {
    EchoExactly(gate, s, f, p, now);
    var c :| c in s.uncertain && Late(s, c, f);
    assert LateMatch(s, c, f);
    k := NewestIsLast(s, s.uncertain, f);
  }

  /** An echo of an older command shows that the device has left the acknowledged setpoint: a failed write with a
      fresh count of attempts, from what the device shows now. Any other echo is only noted. */
  lemma ObsoleteEchoIsNoticed(gate: bool, s: State, f: Feedback, p: Preflight, now: Time)
    requires |s.uncertain| <= MAX_WRITE_ATTEMPTS && gate && !f.userInitiated && p.ownership.Owned? && Echo(s, f, now)
    requires forall c :: c in s.uncertain ==> !Late(s, c, f)
    ensures var r := FeedbackBody(gate, s, None, f, p, now);
      var grain := if s.completed.Some? then Grain(s.completed.value.intent) else 0.0;
      var left := s.goal.Some? && s.lastError.None? && s.acknowledged.Some?
                  && !TargetMatches(s.acknowledged.value.fingerprint, f.observed, grain);
      && r.outcome == Outcome(None, NotDispatched, NotApplicable, DuplicateEcho) && r.resolve.None?
      && (!left ==> r.state == s)
      && (left ==> r.state == s.(attempts := 0, baseline := Some(f.observed), lastError := Some(LateObsoleteTarget),
                                 writeStatus := RetryPending))
  {
    EchoExactly(gate, s, f, p, now);
    var late := NewestLateMatch(s, s.uncertain, f);
    if late.Some? { assert Late(s, late.value, f); }
  }

  /** And that is repaired: as soon as the interval allows, a permitted submit of the very setpoint that is
      acknowledged goes out again, although it would have been answered as unchanged before. */
  lemma ObsoleteEchoIsRepaired(gate: bool, s: State, f: Feedback, p: Preflight, now: Time, i: Intent, q: Preflight,
                               later: Time)
    requires |s.uncertain| <= MAX_WRITE_ATTEMPTS && gate && !f.userInitiated && p.ownership.Owned? && Echo(s, f, now)
    requires (forall c :: c in s.uncertain ==> !Late(s, c, f)) && s.pending.None?
    requires s.goal.Some? && s.lastError.None? && s.acknowledged.Some?
    requires var grain := if s.completed.Some? then Grain(s.completed.value.intent) else 0.0;
      !TargetMatches(s.acknowledged.value.fingerprint, f.observed, grain)
    requires Requested(i) == s.acknowledged.value.fingerprint && !i.recovery && Permitted(i, q, later)
    requires q.observed == Some(f.observed) && TargetMatches(f.observed, f.observed, Grain(i))
    requires s.lastDispatchAt.Some? ==> later >= s.lastDispatchAt.value + 60 * SECOND
    ensures Submit(gate, s, i, q, later).Answered?
    ensures Submit(gate, FeedbackBody(gate, s, None, f, p, now).state, i, q, later).Proceed?
  {
    ObsoleteEchoIsNoticed(gate, s, f, p, now);
    var t := FeedbackBody(gate, s, None, f, p, now).state;
    SubmitGoesExactly(gate, s, i, q, later);
    SubmitGoesExactly(gate, t, i, q, later);
    assert Expects(Looking(t, i, q), i, f.observed);
  }

  // ---- before the report is looked at --------------------------------------------------------------

  /** A command that has not been sent yet cannot be answered; one past its deadline is given up first, and the report
      is looked at afterwards with nothing pending. */
  lemma WindowExactly(gate: bool, s: State, f: Feedback, p: Preflight, now: Time)
    requires |s.uncertain| <= MAX_WRITE_ATTEMPTS
    ensures var (r, awaits) := FeedbackHead(gate, s, f, p, now);
      && (awaits <==> s.pending.Some? && s.pending.value.dispatched && now >= s.pending.value.deadline)
      && (s.pending.Some? && !s.pending.value.dispatched ==>
            r == FeedbackResult(s, Outcome(Some(s.pending.value.id), NotDispatched, NotApplicable, OutsideAckWindow), None))
      && (awaits ==> GivenUp(s, r.state, AckTimeout) && r.resolve == s.pending && r.state.pending.None?
                     && r.outcome == Outcome(Some(s.pending.value.id), Dispatched, Unknown, OutcomeUnknown))
      && (!awaits && (s.pending.None? || s.pending.value.dispatched) ==> r == FeedbackBody(gate, s, s.pending, f, p, now))
  {
  }

  // ---- failures ------------------------------------------------------------------------------------

  /** The pending command's write has failed: it may still have worked, so it is remembered. */
  predicate GivenUp(s: State, t: State, e: WriteError)
    requires |s.uncertain| <= MAX_WRITE_ATTEMPTS
  {
    && s.pending.Some? && t.uncertain == Remember(s.uncertain, s.pending.value) && t.lastError == Some(e)
    && t.writeStatus == (if s.attempts >= 5 then Failed else RetryPending)
    && t.acknowledged == s.acknowledged && t.goal == s.goal && t.attempts == s.attempts
    && t.baseline == s.baseline && t.lastDispatchAt == s.lastDispatchAt && t.completed == s.completed
  }

  lemma TimeOutGivesUp(s: State)
    requires |s.uncertain| <= MAX_WRITE_ATTEMPTS && s.pending.Some?
    ensures GivenUp(s, TimeOut(s), AckTimeout) && TimeOut(s).pending.None? && TimeOut(s).queued.None?
  {
  }

  /** A call that returns leaves an expected answer, unless it raised: then its command is uncertain and the write has
      failed, but it stays pending for its answer. A command answered or dropped in the meantime is not touched. */
  lemma ReturnExactly(s: State, c: Command, ok: bool)
    requires |s.uncertain| <= MAX_WRITE_ATTEMPTS
    ensures var (t, outcome) := ServiceReturned(s, c, ok);
      && outcome.id == Some(c.id) && outcome.dispatch == (if ok then Dispatched else DispatchFailed)
      && (s.pending != Some(c) || ok ==> t == s)
      && (s.pending == Some(c) && !ok ==>
            GivenUp(s, t, ServiceError) && t.pending == s.pending && t.queued == s.queued && outcome.ack.Unknown?)
      && (s.pending == Some(c) && ok ==> outcome.ack.AckPending?)
      && (s.pending.None? && s.feedbackStatus.Some? ==> outcome.ack == s.feedbackStatus.value)
      && (s.pending != Some(c) && (s.pending.Some? || s.feedbackStatus.None?) ==> outcome.reason.CommandCancelled?)
  {
  }

  /** Commands given up one after another, as the record remembers them. */
  function Remembered(cs: seq<Command>): (u: seq<Command>)
    ensures |u| <= MAX_WRITE_ATTEMPTS
  {
    if cs == [] then [] else Remember(Remembered(cs[..|cs| - 1]), cs[|cs| - 1])
  }

  predicate AllDifferent(cs: seq<Command>) { forall i, j :: 0 <= i < j < |cs| ==> cs[i] != cs[j] }

  function LastFive(cs: seq<Command>): seq<Command> { if |cs| <= 5 then cs else cs[|cs| - 5..] }

  /** The last five commands are remembered, in order. */
  lemma {:induction false} LastFiveAreRemembered(cs: seq<Command>)
    requires AllDifferent(cs)
    ensures Remembered(cs) == LastFive(cs)
  {
    if cs != [] {
      var front, c := cs[..|cs| - 1], cs[|cs| - 1];
      LastFiveAreRemembered(front);
      assert c !in LastFive(front);
      assert LastFive(cs) == if |front| < 5 then LastFive(front) + [c] else LastFive(front)[1..] + [c];
    }
  }

  /** A command given up twice, by a raising call and by its deadline, is remembered once. */
  lemma RememberingTwice(u: seq<Command>, c: Command)
    requires |u| <= MAX_WRITE_ATTEMPTS
    ensures Remember(Remember(u, c), c) == Remember(u, c)
  {
  }

  // ---- dispatch and resume -------------------------------------------------------------------------

  /** The command that is registered: to be answered within thirty seconds, expecting what is acknowledged. */
  lemma CommandExactly(s: State, i: Intent, id: string, contextId: string, now: Time)
    ensures var c := NewCommand(s, i, id, contextId, now);
      && c.id == id && c.intent == i && c.contextId == contextId && !c.dispatched
      && c.requested == Requested(i) && c.registeredAt == now && c.deadline == now + 30 * SECOND
      && c.expected == if s.acknowledged.Some? then Some(s.acknowledged.value.fingerprint) else None
    ensures var c := NewCommand(s, i, id, contextId, now);
      var t := Begin(s, c);
      t == s.(pending := Some(c), queued := None, completed := None)
  {
  }

  /** A call counts one more attempt from its submit's stamp on, and waits for a fresh answer. */
  lemma LaunchExactly(s: State, c: Command, now: Time)
    ensures var t := Launch(s, c, now);
      && t.pending == Some(c) && t.attempts == s.attempts + 1 && t.lastDispatchAt == Some(now)
      && t.writeStatus.AwaitingAck? && t.feedbackStatus.None? && t.feedbackReason.None?
      && t.acknowledged == s.acknowledged && t.uncertain == s.uncertain && t.lastError == s.lastError
      && t.baseline == s.baseline && t.goal == s.goal && t.queued == s.queued && t.completed == s.completed
  {
  }

  /** A command that does not go on leaves the record without it and everything else as it was. */
  lemma DroppedExactly(gate: bool, s: State, c: Command, ok: bool, p: Preflight, now: Time)
    ensures var k := AfterPersist(gate, s, c, ok, p, now);
      && (k.Stop? || k.Withdraw? ==> k.state == s.(pending := None)) && (k.MarkNext? ==> k.state == s)
      && (k.Stop? <==> !ok)
      && (k.MarkNext? ==> k.command == c.(dispatched := true)) && (k.Withdraw? ==> k.command == c)
    ensures var k := AfterMark(gate, s, c, ok, p, now);
      && (k.Stop? || k.Withdraw? ==> k.state == s.(pending := None)) && (k.CallService? ==> k.state == Launch(s, c, now))
      && (k.Stop? <==> !ok) && (k.Withdraw? || k.CallService? ==> k.command == c)
  {
  }

  /** After a resume the device is met afresh: nothing it shows is foreign, no old command is heard of, no failure
      counts. */
  lemma ResumeStartsAfresh(s: State, i: Intent, p: Preflight, f: Feedback, now: Time)
    requires p.observed.Some? ==> Present(p.observed.value) && i.step >= 0.0 && i.resolution >= 0.0
    requires i.recovery || s.acknowledged.None?
    ensures var t := ResumeTarget(s);
      && !Foreign(Looking(t, i, p), i, p.observed) && !Echo(t, f, now) && Failures(t, i) == 0 && t.lastError.None?
      && t.queued.None? && t.lastDispatchAt == s.lastDispatchAt && t.acknowledged == s.acknowledged
      && t.writeStatus.Idle? && t.feedbackStatus.None? && t.feedbackReason.None?
  {
    FirstContactIsTrusted(ResumeTarget(s), i, p);
  }

  /** A resume forgets everything about commands, goal and failures, and keeps the acknowledgement and the last call's
      stamp. */
  lemma ResumeForgetsCommands(s: State)
    ensures ResumeTarget(s) == FRESH.(acknowledged := s.acknowledged, lastDispatchAt := s.lastDispatchAt)
  {
  }

  /** A lost target is forgotten as acknowledged, and nothing else. */
  lemma LossForgets(s: State)
    ensures Suspend(s) == s.(acknowledged := None, writeStatus := WaitingTarget)
  {
  }
}
