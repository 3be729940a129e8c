/** Every call is made under a verified journal entry, and no crash can forget it. */
module JournalSafety {
  import opened Contracts
  import opened Ownership
  import opened Broker
  import opened Journal
  import opened BrokerSystem

  /** First command write of the target still in the queue. */
  function First(q: seq<Write>, target: string): Option<Write> {
    if q == [] then None
    else if IsFor(q[0], target) then Some(q[0])
    else First(q[1..], target)
  }

  lemma {:induction false} FirstAppend(q: seq<Write>, w: Write, target: string)
    ensures First(q + [w], target) ==
      if First(q, target).Some? then First(q, target) else if IsFor(w, target) then Some(w) else None
  {
    if q != [] {
      FirstAppend(q[1..], w, target);
      assert (q + [w])[1..] == q[1..] + [w];
    }
  }

  lemma {:induction false} FirstIsIn(q: seq<Write>, target: string)
    ensures First(q, target).None? ==> forall k :: 0 <= k < |q| ==> !IsFor(q[k], target)
    ensures First(q, target).Some? ==> exists k :: 0 <= k < |q| && q[k] == First(q, target).value && IsFor(q[k], target)
  {
    if q != [] && !IsFor(q[0], target) {
      FirstIsIn(q[1..], target);
      if First(q, target).Some? {
        var k :| 0 <= k < |q[1..]| && q[1..][k] == First(q, target).value && IsFor(q[1..][k], target);
        assert q[k + 1] == First(q, target).value;
      } else {
        forall k | 0 <= k < |q| ensures !IsFor(q[k], target) {
          if k > 0 { assert q[k] == q[1..][k - 1]; }
        }
      }
    }
  }

  /** Apart from the entry at `except`, the target's queued writes are resolves. */
  ghost predicate OnlyResolves(s: System, except: int) {
    forall k :: 0 <= k < |s.store.queue| && k != except && IsFor(s.store.queue[k], s.target) ==> s.store.queue[k].Resolve?
  }

  ghost predicate Ticketed(s: System, ticket: nat, w: Write) {
    && s.store.served <= ticket < s.store.served + |s.store.queue|
    && s.store.queue[ticket - s.store.served] == w
  }

  ghost predicate ResolvesAfter(s: System, index: int, c: Command) {
    forall k :: 0 <= index < k < |s.store.queue| && IsFor(s.store.queue[k], s.target) ==> Resolves(s.store.queue[k], c)
  }

  /** The queue as the flight sees it. */
  ghost predicate QueueInv(s: System) {
    match s.flight
    case AwaitPersist(c, _, _, t) =>
      && c.intent.target == s.target && !c.dispatched
      && Ticketed(s, t, Persist(c)) && OnlyResolves(s, t - s.store.served)
      && ResolvesAfter(s, t - s.store.served, c)
    case AwaitMark(c, _, _, t) =>
      && c.intent.target == s.target && c.dispatched
      && Ticketed(s, t, Mark(c)) && OnlyResolves(s, t - s.store.served)
      && (forall k :: 0 <= k < |s.store.queue| && k != t - s.store.served && IsFor(s.store.queue[k], s.target) ==>
            Resolves(s.store.queue[k], c))
    case AwaitResolve(t) =>
      && OnlyResolves(s, -1) && s.store.served <= t < s.store.served + |s.store.queue|
      && IsFor(s.store.queue[t - s.store.served], s.target)
    case InService(c) => OnlyResolves(s, -1) && c.dispatched && c.intent.target == s.target
    case Grounded => OnlyResolves(s, -1)
  }

  ghost predicate PendingInv(s: System) {
    && (s.state.pending.Some? ==> s.state.pending.value.intent.target == s.target)
    && (s.state.queued.Some? ==> s.state.queued.value.target == s.target)
    && (s.flight.AwaitPersist? && s.state.pending.Some? ==> Same(s.state.pending.value, s.flight.command))
    && (s.flight.AwaitMark? && s.state.pending.Some? ==> Same(s.state.pending.value, s.flight.command))
    && ((s.flight.AwaitPersist? || s.flight.AwaitMark?) && s.state.pending.Some? ==> !s.state.pending.value.dispatched)
  }

  /** An entry whose resolve the journal has not taken up. */
  ghost predicate Standing(s: System) { s.open.Some? && !s.open.value.begun }

  ghost predicate Entry(s: System, m: ControlState)
    requires s.open.Some?
  {
    Holds(m, s.target, Some(Stored(s.open.value.command, true)))
  }

  ghost predicate OpenInv(s: System) {
    && s.target in s.store.memory.actuators
    && (s.store.saving.Some? ==> s.store.queue != [] && s.target in s.store.saving.value.actuators)
    && (s.store.saving.Some? && IsFor(s.store.queue[0], s.target) ==>
          var w := s.store.queue[0];
          && Holds(s.store.saving.value, s.target, if w.Resolve? then None else Some(Stored(w.command, w.Mark?)))
          && s.store.memory == s.store.saving.value && !Standing(s))
    && (s.open.Some? ==>
          && s.open.value.command.intent.target == s.target && s.open.value.command.dispatched
          && s.open.value.command.id in s.issued && Entry(s, s.store.disk))
    && (s.open.Some? && (s.flight.AwaitPersist? || s.flight.AwaitMark?) ==>
          s.flight.command.id != s.open.value.command.id && s.flight.command.id in s.issued)
    && (s.flight.AwaitPersist? || s.flight.AwaitMark? ==> s.flight.command.id in s.issued)
    && (s.flight.AwaitMark? ==> !Standing(s))
    && (Standing(s) ==>
          && Entry(s, s.store.memory)
          && (s.store.saving.Some? ==> Entry(s, s.store.saving.value))
          && var w := First(s.store.queue, s.target);
             if w.Some? then Resolves(w.value, s.open.value.command)
             else s.state.pending == Some(s.open.value.command) && (s.flight.Grounded? || s.flight.InService?))
  }

  ghost predicate Inv(s: System) { QueueInv(s) && PendingInv(s) && OpenInv(s) && |s.state.uncertain| <= MAX_WRITE_ATTEMPTS }

  lemma InitiallyInv(s: System)
    requires Initial(s)
    ensures Inv(s)
  {
  }

  /** A resolve of what was pending, or a write of another target. */
  ghost predicate Appends(s: System, t: System, w: Write) {
    && t == Enqueue(s, w).(state := t.state)
    && (!IsFor(w, s.target) ==> t.state.pending == s.state.pending)
    && (IsFor(w, s.target) ==> w.Resolve? && s.state.pending == Some(w.command) && t.state.pending.None?)
  }

  lemma EnqueueQueue(s: System, t: System, w: Write)
    requires Inv(s) && Appends(s, t, w)
    ensures QueueInv(t)
  {
  }

  lemma EnqueueOpen(s: System, t: System, w: Write)
    requires Inv(s) && Appends(s, t, w)
    ensures OpenInv(t)
  {
    FirstAppend(s.store.queue, w, s.target);
  }

  /** Appending it keeps the invariant. */
  lemma EnqueueKeeps(s: System, t: System, w: Write)
    requires Inv(s) && Appends(s, t, w)
    requires PendingInv(t) && |t.state.uncertain| <= MAX_WRITE_ATTEMPTS
    ensures Inv(t)
  {
    EnqueueQueue(s, t, w);
    EnqueueOpen(s, t, w);
  }

  /** Dropping or keeping nothing pending matters only to the caller; everything else of the state is free. */
  lemma StateKeeps(s: System, t: System)
    requires Inv(s) && t == s.(state := t.state, gate := t.gate, live := t.live, submitted := t.submitted, clock := t.clock)
    requires t.state.pending == s.state.pending && |t.state.uncertain| <= MAX_WRITE_ATTEMPTS
    requires t.state.queued.Some? ==> t.state.queued.value.target == s.target
    ensures Inv(t)
  {
  }

  lemma FeedbackShape(gate: bool, s: State, held: Option<Command>, f: Feedback, p: Preflight, now: Time)
    requires |s.uncertain| <= MAX_WRITE_ATTEMPTS && (held.Some? ==> held == s.pending)
    ensures var r := FeedbackBody(gate, s, held, f, p, now);
      && |r.state.uncertain| <= MAX_WRITE_ATTEMPTS
      && (r.state.queued.None? || r.state.queued == s.queued)
      && if r.resolve.Some? then r.resolve == held && r.state.pending.None? else r.state.pending == s.pending
  {
  }

  lemma FeedbackKeeps(s: System, f: Feedback, now: Time)
    requires Inv(s) && Enabled(s, DoFeedback(f, now))
    ensures Inv(Apply(s, DoFeedback(f, now)))
  {
    var t := Apply(s, DoFeedback(f, now));
    var r := FeedbackHead(s.gate, s.state, f, LivePreflight(s), now).0;
    if !(s.state.pending.Some? && !s.state.pending.value.dispatched) && !Overdue(s.state, now) {
      FeedbackShape(s.gate, s.state, s.state.pending, f, LivePreflight(s), now);
    }
    if r.resolve.Some? { EnqueueKeeps(s, t, Resolve(r.resolve.value)); } else { StateKeeps(s, t); }
  }

  lemma SubmitShape(gate: bool, s: State, i: Intent, p: Preflight, now: Time)
    ensures var r := Submit(gate, s, i, p, now);
      && r.state.pending == s.pending && r.state.uncertain == s.uncertain
      && (r.state.queued.None? || r.state.queued == s.queued || r.state.queued == Some(i))
      && (r.Proceed? ==> s.pending.None?)
  {
  }

  lemma SubmitKeeps(s: System, i: Intent, now: Time, id: string, context: string)
    requires Inv(s) && MayDispatch(s, i, now, id)
    ensures Inv(SubmitStep(s, i, now, id, context))
  {
    SubmitShape(s.gate, s.state, i, LivePreflight(s), now);
    var t := SubmitStep(s, i, now, id, context);
    match Submit(s.gate, s.state, i, LivePreflight(s), now)
    case Answered(_, _) => StateKeeps(s, t);
    case Proceed(state, _) =>
      FirstAppend(s.store.queue, Persist(NewCommand(state, i, id, context, now)), s.target);
  }

  lemma BeginQueue(s: System)
    requires Inv(s) && Enabled(s, JournalBegin)
    ensures QueueInv(BeginStep(s)) && PendingInv(BeginStep(s))
  {
  }

  lemma BeginOpen(s: System)
    requires Inv(s) && Enabled(s, JournalBegin)
    ensures OpenInv(BeginStep(s))
  {
    WriteFrame(s.store.memory, s.store.queue[0], s.target);
  }

  lemma BeginKeeps(s: System)
    requires Inv(s) && Enabled(s, JournalBegin)
    ensures Inv(BeginStep(s))
  {
    BeginQueue(s);
    BeginOpen(s);
  }

  lemma CommitKeeps(s: System)
    requires Inv(s) && s.store.saving.Some?
    ensures Inv(CommitStep(s))
  {
  }

  /** Releasing the lock alone, before the waiting coroutine runs. */
  lemma ReleasedFacts(s: System, ok: bool)
    requires Inv(s) && HeadDone(s, ok)
    ensures var r := Released(s, ok);
      && (IsFor(s.store.queue[0], s.target) ==> s.store.saving.Some?)
      && s.target in r.store.memory.actuators
      && (Standing(s) ==> Entry(s, r.store.memory) && First(r.store.queue, s.target) == First(s.store.queue, s.target))
      && r.store.queue == s.store.queue[1..]
  {
  }

  /** At the moment of a call the store holds that very command, marked dispatched, for this target. */
  lemma CallFacts(s: System, l: Label)
    requires Inv(s) && Called(s, l).Some?
    ensures var c := Called(s, l).value;
      && Holds(s.store.disk, s.target, Some(Stored(c, true)))
      && Holds(s.store.memory, s.target, Some(Stored(c, true)))
      && s.open.None?
  {
    ReleasedFacts(s, l.ok);
    assert s.store.queue[0] == Mark(s.flight.command);
  }

  /** The lock passes on and the flight, if any, keeps waiting for its own ticket. */
  lemma ReleaseKeeps(s: System, ok: bool)
    requires Inv(s) && HeadDone(s, ok) && !Served(s)
    ensures Inv(Released(s, ok))
  {
    ReleasedFacts(s, ok);
    var r := Released(s, ok);
    assert forall k :: 0 <= k < |r.store.queue| ==> r.store.queue[k] == s.store.queue[k + 1];
  }

  /** The flight's own write is at the head: what is left of the target's writes are resolves. */
  lemma ServedFacts(s: System, ok: bool)
    requires Inv(s) && HeadDone(s, ok) && Served(s)
    ensures var r := Released(s, ok);
      && IsFor(s.store.queue[0], s.target) && !Standing(s)
      && OnlyResolves(r, -1)
      && (s.flight.AwaitPersist? || s.flight.AwaitMark? ==> ResolvesAfter(s, 0, s.flight.command))
      && (s.flight.AwaitPersist? || s.flight.AwaitMark? ==>
            forall k :: 0 <= k < |r.store.queue| && IsFor(r.store.queue[k], s.target) ==>
              Resolves(r.store.queue[k], s.flight.command))
  {
    ReleasedFacts(s, ok);
    var r := Released(s, ok);
    assert forall k :: 0 <= k < |r.store.queue| ==> r.store.queue[k] == s.store.queue[k + 1];
  }

  lemma FinishGrounded(s: System, ok: bool)
    requires Inv(s) && HeadDone(s, ok) && Served(s)
    requires s.flight.AwaitResolve? || Answer(s, ok).Stop?
    ensures Inv(FinishStep(s, ok))
  {
    ServedFacts(s, ok);
    ReleasedFacts(s, ok);
  }

  lemma FinishQueuedOpen(s: System, ok: bool)
    requires Inv(s) && HeadDone(s, ok) && Served(s) && !s.flight.AwaitResolve?
    requires Answer(s, ok).Withdraw? || Answer(s, ok).MarkNext?
    ensures OpenInv(FinishStep(s, ok)) && PendingInv(FinishStep(s, ok))
  {
    ServedFacts(s, ok);
    ReleasedFacts(s, ok);
    assert !Standing(FinishStep(s, ok));
  }

  lemma FinishQueuedQueue(s: System, ok: bool)
    requires Inv(s) && HeadDone(s, ok) && Served(s) && !s.flight.AwaitResolve?
    requires Answer(s, ok).Withdraw? || Answer(s, ok).MarkNext?
    ensures QueueInv(FinishStep(s, ok)) && |FinishStep(s, ok).state.uncertain| <= MAX_WRITE_ATTEMPTS
  {
    ServedFacts(s, ok);
    var w := if Answer(s, ok).Withdraw? then Resolve(s.flight.command) else Mark(s.flight.command.(dispatched := true));
    assert FinishStep(s, ok).store.queue == Released(s, ok).store.queue + [w];
  }

  lemma FinishQueued(s: System, ok: bool)
    requires Inv(s) && HeadDone(s, ok) && Served(s) && !s.flight.AwaitResolve?
    requires Answer(s, ok).Withdraw? || Answer(s, ok).MarkNext?
    ensures Inv(FinishStep(s, ok))
  {
    FinishQueuedOpen(s, ok);
    FinishQueuedQueue(s, ok);
  }

  lemma FinishWithCall(s: System, ok: bool)
    requires Inv(s) && HeadDone(s, ok) && Served(s) && s.flight.AwaitMark? && Answer(s, ok).CallService?
    ensures Inv(FinishStep(s, ok))
  {
    ServedFacts(s, ok);
    ReleasedFacts(s, ok);
    CallFacts(s, JournalFinish(ok));
    FirstIsIn(Released(s, ok).store.queue, s.target);
  }

  lemma FinishKeeps(s: System, ok: bool)
    requires Inv(s) && HeadDone(s, ok)
    ensures Inv(FinishStep(s, ok))
  {
    if !Served(s) { ReleaseKeeps(s, ok); }
    else if s.flight.AwaitResolve? || Answer(s, ok).Stop? { FinishGrounded(s, ok); }
    else if Answer(s, ok).CallService? { FinishWithCall(s, ok); }
    else { FinishQueued(s, ok); }
  }

  lemma DrainKeeps(s: System, now: Time, id: string, context: string)
    requires Inv(s) && Enabled(s, DoDrain(now, id, context))
    ensures Inv(Apply(s, DoDrain(now, id, context)))
  {
    var drained := s.(state := s.state.(queued := None));
    StateKeeps(s, drained);
    SubmitKeeps(drained, s.state.queued.value, now, id, context);
  }

  lemma TailKeeps(s: System, f: Feedback, now: Time)
    requires Inv(s) && Enabled(s, DoFeedbackTail(f, now))
    ensures Inv(Apply(s, DoFeedbackTail(f, now)))
  {
    FeedbackShape(s.gate, s.state, None, f, LivePreflight(s), now);
    StateKeeps(s, Apply(s, DoFeedbackTail(f, now)));
  }

  lemma AskKeeps(s: System, l: Label)
    requires Inv(s) && Enabled(s, l) && (l.DoTimeout? || l.DoResume? || l.JournalAsk?)
    ensures Inv(Apply(s, l))
  {
    var t := Apply(s, l);
    if l.JournalAsk? { EnqueueKeeps(s, t, l.write); }
    else if s.state.pending.Some? { EnqueueKeeps(s, t, Resolve(s.state.pending.value)); }
    else { StateKeeps(s, t); }
  }

  lemma ReturnKeeps(s: System, ok: bool)
    requires Inv(s) && Enabled(s, DoServiceReturn(ok))
    ensures Inv(Apply(s, DoServiceReturn(ok)))
  {
    var landed := s.(flight := Grounded);
    assert QueueInv(landed);
    assert OpenInv(landed);
    StateKeeps(landed, landed.(state := ServiceReturned(s.state, s.flight.command, ok).0));
  }

  lemma QuietKeeps(s: System, l: Label)
    requires Inv(s) && Enabled(s, l)
    requires l.DoTick? || l.DoSuspend? || l.DoInvalidate? || l.DoCloseGate? || l.DoOwnership? || l.DoWorld?
    ensures Inv(Apply(s, l))
  {
    StateKeeps(s, Apply(s, l));
  }

  lemma CommandStepKeeps(s: System, l: Label)
    requires Inv(s) && Enabled(s, l)
    requires l.DoSubmit? || l.DoDrain? || l.DoServiceReturn? || l.DoFeedback? || l.DoFeedbackTail?
    ensures Inv(Apply(s, l))
  {
    match l
    case DoSubmit(i, now, id, context) => SubmitKeeps(s, i, now, id, context);
    case DoDrain(now, id, context) => DrainKeeps(s, now, id, context);
    case DoServiceReturn(ok) => ReturnKeeps(s, ok);
    case DoFeedback(f, now) => FeedbackKeeps(s, f, now);
    case DoFeedbackTail(f, now) => TailKeeps(s, f, now);
  }

  lemma JournalStepKeeps(s: System, l: Label)
    requires Inv(s) && Enabled(s, l) && (l.JournalBegin? || l.JournalCommit? || l.JournalFinish?)
    ensures Inv(Apply(s, l))
  {
    match l
    case JournalBegin => BeginKeeps(s);
    case JournalCommit => CommitKeeps(s);
    case JournalFinish(ok) => FinishKeeps(s, ok);
  }

  lemma StepKeeps(s: System, l: Label)
    requires Inv(s)
    ensures Inv(Step(s, l))
  {
    if Enabled(s, l) {
      if l.DoSubmit? || l.DoDrain? || l.DoServiceReturn? || l.DoFeedback? || l.DoFeedbackTail? { CommandStepKeeps(s, l); }
      else if l.JournalBegin? || l.JournalCommit? || l.JournalFinish? { JournalStepKeeps(s, l); }
      else if l.DoTimeout? || l.DoResume? || l.JournalAsk? { AskKeeps(s, l); }
      else { QuietKeeps(s, l); }
    }
  }

  lemma RunKeeps(s: System, run: seq<Label>, k: nat)
    requires Initial(s) && k <= |run|
    ensures Inv(At(s, run, k))
  {
    InitiallyInv(s);
    var kept := (t: System) => Inv(t);
    forall t, l | kept(t) ensures kept(Step(t, l)) { StepKeeps(t, l); }
    Throughout(kept, s, run, 0, k);
  }
}
