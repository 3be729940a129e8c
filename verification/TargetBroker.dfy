/** The broker's mutable record of one target and the methods that update it in place, one method per
    stretch of code between two awaits. Each is proved to do what its decision function says. */
module TargetBroker {
  import opened Contracts
  import opened Ownership
  import opened Broker

  class Target {
    var gateOpen: bool
    var pending: Option<Command>
    var completed: Option<Command>
    var queued: Option<Intent>
    var acknowledged: Option<AckTarget>
    var lastDispatchAt: Option<Time>
    var feedbackStatus: Option<AckStatus>
    var feedbackReason: Option<Reason>
    var goal: Option<Fingerprint>
    var attempts: nat
    var writeStatus: WriteStatus
    var lastError: Option<WriteError>
    var baseline: Option<Fingerprint>
    var uncertain: seq<Command>

    function View(): State
      reads this
    {
      State(pending, completed, queued, acknowledged, lastDispatchAt, feedbackStatus, feedbackReason,
            goal, attempts, writeStatus, lastError, baseline, uncertain)
    }

    predicate Valid()
      reads this
    {
      |uncertain| <= MAX_WRITE_ATTEMPTS
    }

    constructor ()
      ensures gateOpen && Valid() && View() == FRESH
    {
      gateOpen := true;
      pending, completed, queued, acknowledged, lastDispatchAt := None, None, None, None, None;
      feedbackStatus, feedbackReason, goal, attempts := None, None, None, 0;
      writeStatus, lastError, baseline, uncertain := Idle, None, None, [];
    }

    method RememberUncertain(c: Command)
      requires Valid()
      modifies `uncertain
      ensures Valid() && uncertain == Remember(old(uncertain), c)
    {
      if c !in uncertain {
        uncertain := uncertain + [c];
        if |uncertain| > MAX_WRITE_ATTEMPTS {
          uncertain := uncertain[|uncertain| - MAX_WRITE_ATTEMPTS..];
        }
      }
    }

    method WriteFailedBecause(e: WriteError)
      modifies `lastError, `writeStatus
      ensures View() == RecordFailure(old(View()), e)
    {
      lastError := Some(e);
      writeStatus := if attempts >= MAX_WRITE_ATTEMPTS then Failed else RetryPending;
    }

    method AcknowledgeBy(c: Command, f: Feedback, now: Time)
      modifies `acknowledged, `writeStatus, `lastError, `baseline
      ensures View() == Acknowledge(old(View()), c, f, now)
    {
      acknowledged := Some(AckTarget(f.observed, c.intent.room, c.intent.roomLow, c.intent.roomHigh, now));
      writeStatus := Confirmed;
      lastError := None;
      baseline := Some(f.observed);
    }

    method CloseGate()
      modifies `gateOpen, `queued
      ensures !gateOpen && View() == old(View()).(queued := None)
    {
      gateOpen := false;
      queued := None;
    }

    method Invalidate()
      modifies `queued
      ensures View() == old(View()).(queued := None)
    {
      queued := None;
    }

    /** Answers at once, or returns no answer when the intent goes on to dispatch. */
    method SubmitIntent(i: Intent, p: Preflight, now: Time) returns (answer: Option<Outcome>, late: bool)
      modifies `queued, `goal, `attempts, `writeStatus, `acknowledged, `lastError, `baseline
      ensures gateOpen == old(gateOpen)
      ensures var r := Submit(old(gateOpen), old(View()), i, p, now);
        View() == r.state
        && (if r.Answered? then answer == Some(r.outcome) else answer.None? && late == r.late)
    {
      late := false;
      if !gateOpen { return Some(Outcome(None, NotDispatched, NotApplicable, GateClosed)), false; }
      var refused := PreflightReason(i, p, now);
      if refused.Some? {
        queued := None;
        return Some(Outcome(None, NotDispatched, NotApplicable, refused.value)), false;
      }
      if pending.Some? {
        queued := Some(i);
        return Some(Outcome(None, NotDispatched, AckPending, CommandIsPending)), false;
      }
      AimAt(Requested(i));
      if i.recovery && p.observed.Some? && TargetMatches(Requested(i), p.observed.value, i.resolution) {
        FindAcknowledged(p.observed.value, i, now);
        return Some(Outcome(None, NotDispatched, NotApplicable, TargetCurrent)), false;
      }
      RebaseOn(i, p);
      answer, late := SubmitAgainstKnown(i, p, now);
    }

    /** A new goal starts a new count of attempts. */
    method AimAt(requested: Fingerprint)
      modifies `goal, `attempts, `writeStatus
      ensures View() == if old(goal) != Some(requested)
                        then old(View()).(goal := Some(requested), attempts := 0, writeStatus := Idle) else old(View())
    {
      if goal != Some(requested) {
        goal, attempts, writeStatus := Some(requested), 0, Idle;
      }
    }

    /** Recovery finds the device already where the intent wants it. */
    method FindAcknowledged(observed: Fingerprint, i: Intent, now: Time)
      modifies `acknowledged, `queued, `writeStatus, `lastError
      ensures View() == old(View()).(acknowledged := Some(AckTarget(observed, i.room, i.roomLow, i.roomHigh, now)),
                                     queued := None, writeStatus := Confirmed, lastError := None)
    {
      acknowledged := Some(AckTarget(observed, i.room, i.roomLow, i.roomHigh, now));
      queued, writeStatus, lastError := None, Confirmed, None;
    }

    method RebaseOn(i: Intent, p: Preflight)
      modifies `acknowledged, `baseline
      ensures View() == Rebase(old(View()), i, p)
    {
      if i.recovery {
        acknowledged := None;
        baseline := p.observed;
      } else if baseline.None? && acknowledged.None? {
        baseline := p.observed;
      }
    }

    method SubmitAgainstKnown(i: Intent, p: Preflight, now: Time) returns (answer: Option<Outcome>, late: bool)
      modifies `queued, `writeStatus
      ensures var r := SubmitKnown(old(View()), i, p, now);
        View() == r.state
        && (if r.Answered? then answer == Some(r.outcome) else answer.None? && late == r.late)
    {
      late := lastError.Some?;
      if LiveTargetForeign(View(), p, i) {
        queued := None;
        return Some(Outcome(None, NotDispatched, NotApplicable, ExternalTarget)), late;
      }
      if attempts >= MAX_WRITE_ATTEMPTS && lastError.Some? {
        return Some(Outcome(None, NotDispatched, NotApplicable, Reason.WriteFailed)), late;
      }
      if lastError.Some? && lastDispatchAt.Some? && now < lastDispatchAt.value + ORDINARY_INTERVAL {
        writeStatus := RetryPending;
        queued := Some(i);
        return Some(Outcome(None, NotDispatched, NotApplicable, CommandInterval)), late;
      }
      var chatter := AntiChatter(i, if lastError.None? then acknowledged else None, lastDispatchAt, now);
      if chatter.Some? {
        if chatter.value.CommandInterval? { queued := Some(i); }
        return Some(Outcome(None, NotDispatched, NotApplicable, chatter.value)), late;
      }
      answer := None;
    }

    method BeginDispatch(i: Intent, id: string, contextId: string, now: Time) returns (c: Command)
      modifies `queued, `pending, `completed
      ensures c == NewCommand(old(View()), i, id, contextId, now)
      ensures View() == Begin(old(View()), c) && gateOpen == old(gateOpen)
    {
      queued := None;
      c := NewCommand(View(), i, id, contextId, now);
      pending := Some(c);
      completed := None;
    }

    method PersistAnswered(c: Command, ok: bool, p: Preflight, now: Time) returns (next: Continuation)
      modifies `pending
      ensures next == AfterPersist(gateOpen, old(View()), c, ok, p, now)
      ensures View() == next.state
    {
      if !ok {
        pending := None;
        return Stop(View(), NotSentCommand(c, StorageVerificationFailed));
      }
      var refused := StillRefused(gateOpen, View(), c, p, now, false);
      if refused.Some? {
        pending := None;
        return Withdraw(View(), c, refused.value);
      }
      next := MarkNext(View(), c.(dispatched := true));
    }

    method MarkAnswered(c: Command, ok: bool, p: Preflight, now: Time) returns (next: Continuation)
      modifies `pending, `attempts, `lastDispatchAt, `writeStatus, `feedbackStatus, `feedbackReason
      ensures next == AfterMark(old(gateOpen), old(View()), c, ok, p, now)
      ensures View() == next.state && gateOpen == old(gateOpen)
    {
      if !ok {
        pending := None;
        return Stop(View(), NotSentCommand(c, StorageVerificationFailed));
      }
      var refused := StillRefused(gateOpen, View(), c, p, now, true);
      if refused.Some? {
        pending := None;
        return Withdraw(View(), c, refused.value);
      }
      CountCall(c, now);
      next := CallService(View(), c);
    }

    /** The record just before the service call. */
    method CountCall(c: Command, now: Time)
      modifies `pending, `attempts, `lastDispatchAt, `writeStatus, `feedbackStatus, `feedbackReason
      ensures View() == Launch(old(View()), c, now)
    {
      pending := Some(c);
      attempts := attempts + 1;
      lastDispatchAt := Some(now);
      writeStatus := AwaitingAck;
      feedbackStatus, feedbackReason := None, None;
    }

    method CallReturned(c: Command, ok: bool) returns (outcome: Outcome)
      requires Valid()
      modifies `uncertain, `lastError, `writeStatus
      ensures Valid() && (View(), outcome) == ServiceReturned(old(View()), c, ok)
    {
      var status := if ok then Dispatched else DispatchFailed;
      if pending.None? && feedbackStatus.Some? {
        return Outcome(Some(c.id), status, feedbackStatus.value, GetOr(feedbackReason, FeedbackBeforeReturn));
      }
      if pending != Some(c) { return Outcome(Some(c.id), status, NotApplicable, CommandCancelled); }
      if ok { return Outcome(Some(c.id), status, AckPending, AwaitingAcknowledgement); }
      RememberUncertain(c);
      WriteFailedBecause(ServiceError);
      outcome := Outcome(Some(c.id), status, Unknown, OutcomeUnknown);
    }

    method TimeOutPending() returns (c: Command)
      requires Valid() && pending.Some?
      modifies `pending, `queued, `uncertain, `lastError, `writeStatus
      ensures Valid() && View() == TimeOut(old(View())) && Some(c) == old(pending) && gateOpen == old(gateOpen)
    {
      c := pending.value;
      pending := None;
      queued := None;
      RememberUncertain(c);
      WriteFailedBecause(AckTimeout);
    }

    /** Nothing sent, waiting or heard is remembered any more. */
    method ForgetCommands()
      modifies `pending, `completed, `queued, `feedbackStatus, `feedbackReason, `uncertain
      ensures View() == old(View()).(pending := None, completed := None, queued := None, feedbackStatus := None,
                                     feedbackReason := None, uncertain := [])
    {
      pending, completed, queued := None, None, None;
      feedbackStatus, feedbackReason := None, None;
      uncertain := [];
    }

    method ForgetGoal()
      modifies `goal, `attempts, `writeStatus, `lastError, `baseline
      ensures View() == old(View()).(goal := None, attempts := 0, writeStatus := Idle, lastError := None, baseline := None)
    {
      goal, attempts, writeStatus, lastError, baseline := None, 0, Idle, None, None;
    }

    method Resume() returns (resolve: Option<Command>)
      modifies `pending, `completed, `queued, `feedbackStatus, `feedbackReason, `uncertain,
               `goal, `attempts, `writeStatus, `lastError, `baseline
      ensures Valid() && View() == ResumeTarget(old(View())) && resolve == old(pending)
    {
      resolve := pending;
      ForgetCommands();
      ForgetGoal();
    }

    method TargetGone()
      modifies `acknowledged, `writeStatus
      ensures View() == Suspend(old(View()))
    {
      acknowledged := None;
      writeStatus := WaitingTarget;
    }

    /** Feedback up to its first await. When `awaits`, the caller waits for the journal and then runs
        FeedbackRest with nothing held. */
    method Feedback(f: Feedback, p: Preflight, now: Time)
        returns (outcome: Outcome, resolve: Option<Command>, awaits: bool)
      requires Valid()
      modifies `pending, `completed, `queued, `acknowledged, `feedbackStatus, `feedbackReason, `attempts, `writeStatus,
               `lastError, `baseline, `uncertain
      ensures Valid() && gateOpen == old(gateOpen)
      ensures var (r, a) := FeedbackHead(old(gateOpen), old(View()), f, p, now);
        View() == r.state && outcome == r.outcome && resolve == r.resolve && awaits == a
    {
      awaits := false;
      if pending.Some? && !pending.value.dispatched {
        return Outcome(Some(pending.value.id), NotDispatched, NotApplicable, OutsideAckWindow), None, false;
      }
      if Overdue(View(), now) {
        var c := TimeOutPending();
        return Outcome(Some(c.id), Dispatched, Unknown, OutcomeUnknown), Some(c), true;
      }
      outcome, resolve := FeedbackRest(pending, f, p, now);
    }

    method FeedbackRest(held: Option<Command>, f: Feedback, p: Preflight, now: Time)
        returns (outcome: Outcome, resolve: Option<Command>)
      requires Valid()
      modifies `pending, `completed, `queued, `acknowledged, `feedbackStatus, `feedbackReason, `attempts, `writeStatus,
               `lastError, `baseline, `uncertain
      ensures Valid() && gateOpen == old(gateOpen)
      ensures var r := FeedbackBody(old(gateOpen), old(View()), held, f, p, now);
        View() == r.state && outcome == r.outcome && resolve == r.resolve
    {
      if AutomaticEcho(gateOpen, View(), f, p, now)
         && (held.None? || !TargetMatches(held.value.requested, f.observed, CommandTolerance(held))) {
        outcome := EchoHeard(held.Some?, f, now);
        resolve := None;
      } else if held.None? {
        var d := Classify(None, f);
        outcome, resolve := Outcome(None, NotDispatched, d.status, d.reason), None;
      } else {
        outcome, resolve := HeardAbout(held.value, f, now);
      }
    }

    method HeardAbout(c: Command, f: Feedback, now: Time) returns (outcome: Outcome, resolve: Option<Command>)
      requires Valid()
      modifies `pending, `completed, `queued, `acknowledged, `feedbackStatus, `feedbackReason, `writeStatus,
               `lastError, `baseline, `uncertain
      ensures Valid() && gateOpen == old(gateOpen)
      ensures var r := Heard(old(View()), c, f, now);
        View() == r.state && outcome == r.outcome && resolve == r.resolve
    {
      resolve := None;
      var d := Classify(Some(Contract(c)), f);
      feedbackStatus, feedbackReason := Some(d.status), Some(d.reason);
      outcome := Outcome(Some(c.id), Dispatched, d.status, d.reason);
      if Confirms(d) {
        AcknowledgeBy(c, f, now);
        pending := None;
        completed := Some(c);
        resolve := Some(c);
      } else if d.status.Rejected? || d.manual {
        pending := None;
        queued := None;
        if d.status.Rejected? { RejectedBy(c, f.observed); }
        resolve := Some(c);
      }
    }

    method RejectedBy(c: Command, observed: Fingerprint)
      requires Valid()
      modifies `baseline, `uncertain, `lastError, `writeStatus
      ensures Valid()
      ensures View() == RecordFailure(old(View()).(uncertain := Remember(old(uncertain), c), baseline := Some(observed)),
                                      TargetRejected)
    {
      RememberUncertain(c);
      baseline := Some(observed);
      WriteFailedBecause(TargetRejected);
    }

    method EchoHeard(held: bool, f: Feedback, now: Time) returns (outcome: Outcome)
      modifies `acknowledged, `writeStatus, `lastError, `baseline, `attempts
      ensures var r := Echoed(old(View()), held, f, now); View() == r.state && outcome == r.outcome
    {
      if !held && goal.Some? {
        var late := NewestLateMatch(View(), uncertain, f);
        if late.Some? {
          AcknowledgeBy(late.value, f, now);
          return Outcome(Some(late.value.id), Dispatched, InferredAcknowledged, LateTargetAcknowledged);
        }
        if acknowledged.Some? && lastError.None?
           && !TargetMatches(acknowledged.value.fingerprint, f.observed, CommandTolerance(completed)) {
          attempts := 0;
          baseline := Some(f.observed);
          WriteFailedBecause(LateObsoleteTarget);
        }
      }
      outcome := Outcome(None, NotDispatched, NotApplicable, DuplicateEcho);
    }
  }
}
