/** Runs that do reach a call, exactly when the next call really keeps its interval, and how close two calls can come
    when the journal is slow. */
module CallTiming {
  import opened Contracts
  import opened Ownership
  import opened Broker
  import opened Journal
  import opened BrokerSystem
  import opened DeliveryLimits
  import DispatchSafety

  /** Nothing is under way. */
  predicate Resting(s: System) {
    && s.gate && s.flight.Grounded? && s.store.queue == [] && s.store.saving.None?
    && s.target in s.store.memory.actuators && |s.state.uncertain| <= MAX_WRITE_ATTEMPTS
  }

  /** The device shows nothing the broker would not expect of this intent. */
  predicate Undisturbed(s: System, i: Intent) { !LiveTargetForeign(s.state, LivePreflight(s), i) }

  /** An intent that is permitted now and would be sent. */
  predicate Sendable(s: System, i: Intent, now: Time, id: string) {
    && MayDispatch(s, i, now, id) && PreflightReason(i, LivePreflight(s), now).None?
    && Submit(s.gate, s.state, i, LivePreflight(s), now).Proceed?
  }

  /** One undisturbed submit, whose second journal write is answered at `began`. */
  function Sending(i: Intent, now: Time, id: string, context: string, began: Time): seq<Label> {
    [DoSubmit(i, now, id, context), JournalBegin, JournalCommit, JournalFinish(true),
     JournalBegin, JournalCommit, DoTick(began), JournalFinish(true)]
  }

  /** Its two halves: the command is registered in the journal, then marked as dispatched and sent. */
  function Registering(i: Intent, now: Time, id: string, context: string): seq<Label> {
    [DoSubmit(i, now, id, context), JournalBegin, JournalCommit, JournalFinish(true)]
  }

  function Calling(began: Time): seq<Label> { [JournalBegin, JournalCommit, DoTick(began), JournalFinish(true)] }

  /** The command the submit makes, as it is sent. */
  function SentCommand(s: System, i: Intent, now: Time, id: string, context: string): Command
    requires Sendable(s, i, now, id)
  {
    NewCommand(Submit(s.gate, s.state, i, LivePreflight(s), now).state, i, id, context, now).(dispatched := true)
  }

  predicate Launched(s: System, t: System, i: Intent, now: Time, id: string, context: string, began: Time)
    requires Sendable(s, i, now, id)
  {
    var r := Submit(s.gate, s.state, i, LivePreflight(s), now);
    var c := SentCommand(s, i, now, id, context);
    && t.target == s.target && t.gate && t.live == s.live && t.clock == began && t.issued == s.issued + {id}
    && t.calls == s.calls + [Sent(c, now, began, r.late)] && t.flight == InService(c)
    && t.state == Launch(Begin(r.state, c), c, now)
    && t.store.queue == [] && t.store.saving.None? && t.target in t.store.memory.actuators
  }

  lemma {:induction false} RunsCompose(s: System, first: seq<Label>, second: seq<Label>, k: nat)
    requires k <= |second|
    ensures At(s, first + second, |first| + k) == At(At(s, first, |first|), second, k)
    decreases k
  {
    if k == 0 {
      PrefixSuffices(s, first, second, |first|);
    } else {
      RunsCompose(s, first, second, k - 1);
      assert (first + second)[|first| + k - 1] == second[k - 1];
    }
  }

  lemma {:induction false} PrefixSuffices(s: System, first: seq<Label>, second: seq<Label>, k: nat)
    requires k <= |first|
    ensures At(s, first + second, k) == At(s, first, k)
  {
    if k > 0 { PrefixSuffices(s, first, second, k - 1); }
  }

  lemma OneAfterAnother(s: System, first: seq<Label>, t: System, second: seq<Label>, u: System)
    requires t == At(s, first, |first|) && u == At(t, second, |second|)
    ensures u == At(s, first + second, |first + second|)
  {
    RunsCompose(s, first, second, |second|);
  }

  lemma Taken(s: System, w: Write) returns (t: System)
    requires s.store.queue == [w] && s.store.saving.None? && IsCommandWrite(w) && |s.state.uncertain| <= MAX_WRITE_ATTEMPTS
    requires IsFor(w, s.target) && s.target in s.store.memory.actuators
    ensures t == Step(s, JournalBegin)
    ensures t == s.(store := t.store, open := t.open) && t.store.queue == [w] && t.store.served == s.store.served
    ensures t.store.saving.Some? && t.target in t.store.memory.actuators
  {
    var candidate := Candidate(s.store.memory, w);
    assert candidate.Some? && s.target in candidate.value.actuators;
    t := Step(s, JournalBegin);
    assert t == BeginStep(s);
  }

  /** The only queued write reaches storage, and its writer is about to go on. */
  lemma Written(s: System, run: seq<Label>, k: nat, w: Write) returns (t: System)
    requires k + 2 <= |run| && run[k] == JournalBegin && run[k + 1] == JournalCommit
    requires var r := At(s, run, k);
      && r.store.queue == [w] && r.store.saving.None? && IsCommandWrite(w) && |r.state.uncertain| <= MAX_WRITE_ATTEMPTS
      && IsFor(w, r.target) && r.target in r.store.memory.actuators
    ensures t == At(s, run, k + 2) && HeadDone(t, true)
    ensures var r := At(s, run, k);
      && t == r.(store := t.store, open := t.open) && t.store.queue == [w] && t.store.served == r.store.served
      && t.store.saving.Some? && t.target in t.store.memory.actuators
  {
    var a := Taken(At(s, run, k), w);
    t := Step(a, JournalCommit);
    assert t == CommitStep(a);
    assert At(s, run, k + 1) == a;
  }

  lemma Submitted(s: System, i: Intent, now: Time, id: string, context: string) returns (t: System)
    requires Resting(s) && Sendable(s, i, now, id)
    ensures t == Step(s, DoSubmit(i, now, id, context))
    ensures var r := Submit(s.gate, s.state, i, LivePreflight(s), now);
      var c := NewCommand(r.state, i, id, context, now);
      && t == s.(state := Begin(r.state, c), flight := AwaitPersist(c, now, r.late, s.store.served), store := t.store,
                 issued := s.issued + {id}, submitted := t.submitted)
      && t.store == s.store.(queue := [Persist(c)]) && |t.state.uncertain| <= MAX_WRITE_ATTEMPTS
  {
    SubmitKeepsCommands(s.gate, s.state, i, LivePreflight(s), now);
    t := Step(s, DoSubmit(i, now, id, context));
  }

  /** An answered write lets the submit that waits for it go on in the same breath. */
  lemma AnswerGoesOn(s: System)
    requires HeadDone(s, true) && Served(s) && DeliveryLimits.Sending(s) && |s.state.uncertain| <= MAX_WRITE_ATTEMPTS
    ensures Step(s, JournalFinish(true)) == Continue(Released(s, true), Answer(s, true), s.flight.now, s.flight.late)
  {
  }

  lemma PersistDone(s: System, c: Command, now: Time, late: bool) returns (t: System)
    requires s.gate && Undisturbed(s, c.intent) && |s.state.uncertain| <= MAX_WRITE_ATTEMPTS && HeadDone(s, true)
    requires s.flight == AwaitPersist(c, now, late, s.store.served) && s.store.queue == [Persist(c)]
    requires PreflightReason(c.intent, LivePreflight(s), now).None?
    ensures t == Step(s, JournalFinish(true))
    ensures var d := c.(dispatched := true);
      && t == s.(flight := AwaitMark(d, now, late, t.store.served), store := t.store)
      && t.store == s.store.(queue := [Mark(d)], served := s.store.served + 1, saving := None)
  {
    assert AfterPersist(s.gate, s.state, c, true, LivePreflight(s), now) == MarkNext(s.state, c.(dispatched := true));
    AnswerGoesOn(s);
    t := Step(s, JournalFinish(true));
  }

  lemma MarkDone(s: System, c: Command, now: Time, late: bool) returns (t: System)
    requires s.gate && Undisturbed(s, c.intent) && |s.state.uncertain| <= MAX_WRITE_ATTEMPTS && HeadDone(s, true)
    requires s.flight == AwaitMark(c, now, late, s.store.served) && s.store.queue == [Mark(c)]
    requires PreflightReason(c.intent, LivePreflight(s), now).None?
    ensures t == Step(s, JournalFinish(true)) && BrokerSystem.Called(s, JournalFinish(true)) == Some(c)
    ensures t == s.(state := Launch(s.state, c, now), flight := InService(c), store := t.store, open := t.open,
                    calls := s.calls + [Sent(c, now, s.clock, late)])
    ensures t.store == s.store.(queue := [], served := s.store.served + 1, saving := None)
  {
    assert AfterMark(s.gate, s.state, c, true, LivePreflight(s), now) == CallService(Launch(s.state, c, now), c);
    AnswerGoesOn(s);
    t := Step(s, JournalFinish(true));
  }

  /** The submit's own command, before it is marked. */
  function NewOf(s: System, i: Intent, now: Time, id: string, context: string): Command {
    NewCommand(Submit(s.gate, s.state, i, LivePreflight(s), now).state, i, id, context, now)
  }

  /** Waiting for the mark of its command. */
  predicate Marking(s: System, t: System, i: Intent, now: Time, id: string, context: string) {
    var r := Submit(s.gate, s.state, i, LivePreflight(s), now);
    var c := NewOf(s, i, now, id, context);
    var d := c.(dispatched := true);
    && t == s.(state := Begin(r.state, c), flight := t.flight, store := t.store, issued := s.issued + {id},
               submitted := t.submitted, open := t.open)
    && r.Proceed? && t.flight == AwaitMark(d, now, r.late, t.store.served)
    && t.store.queue == [Mark(d)] && t.store.saving.None? && t.target in t.store.memory.actuators
    && |t.state.uncertain| <= MAX_WRITE_ATTEMPTS
  }

  /** What goes on was not disturbed, and registering the command changes nothing the broker expects. */
  lemma SubmitUndisturbed(s: System, t: System, i: Intent, now: Time, c: Command)
    requires var r := Submit(s.gate, s.state, i, LivePreflight(s), now);
      r.Proceed? && t.state == Begin(r.state, c) && t.live == s.live && t.target == s.target
    ensures Undisturbed(t, i)
  {
  }

  lemma EntryIsStored(s: System, run: seq<Label>, i: Intent, now: Time, id: string, context: string) returns (t: System)
    requires Resting(s) && Sendable(s, i, now, id) && |run| > 3 && run[0] == DoSubmit(i, now, id, context)
    requires run[1] == JournalBegin && run[2] == JournalCommit
    ensures var r := Submit(s.gate, s.state, i, LivePreflight(s), now);
      var c := NewOf(s, i, now, id, context);
      && t == s.(state := Begin(r.state, c), flight := AwaitPersist(c, now, r.late, t.store.served), store := t.store,
                 issued := s.issued + {id}, submitted := t.submitted, open := t.open)
      && t.store.queue == [Persist(c)] && t.target in t.store.memory.actuators
    ensures t == At(s, run, 3) && HeadDone(t, true) && |t.state.uncertain| <= MAX_WRITE_ATTEMPTS
  {
    var a := Submitted(s, i, now, id, context);
    assert At(s, run, 1) == a;
    t := Written(s, run, 1, Persist(NewOf(s, i, now, id, context)));
  }

  /** Four steps from rest to the command in the journal. */
  lemma JournalIsReached(s: System, run: seq<Label>, i: Intent, now: Time, id: string, context: string) returns (t: System)
    requires Resting(s) && Sendable(s, i, now, id) && |run| > 3 && run[0] == DoSubmit(i, now, id, context)
    requires run[1] == JournalBegin && run[2] == JournalCommit && run[3] == JournalFinish(true)
    ensures t == At(s, run, 4) && Marking(s, t, i, now, id, context)
  {
    var b := EntryIsStored(s, run, i, now, id, context);
    SubmitUndisturbed(s, b, i, now, NewOf(s, i, now, id, context));
    t := PersistDone(b, NewOf(s, i, now, id, context), now, Submit(s.gate, s.state, i, LivePreflight(s), now).late);
  }

  lemma MarkIsStored(s: System, run: seq<Label>, k: nat, c: Command, now: Time, late: bool, began: Time) returns (t: System)
    requires k + 3 <= |run| && run[k] == JournalBegin && run[k + 1] == JournalCommit && run[k + 2] == DoTick(began)
    requires var r := At(s, run, k);
      && r.flight == AwaitMark(c, now, late, r.store.served) && r.store.queue == [Mark(c)] && r.store.saving.None?
      && r.target == c.intent.target && r.target in r.store.memory.actuators && |r.state.uncertain| <= MAX_WRITE_ATTEMPTS
      && r.clock <= began
    ensures t == At(s, run, k + 3) && HeadDone(t, true)
    ensures t == At(s, run, k).(clock := began, store := t.store, open := t.open)
    ensures t.store.queue == [Mark(c)] && t.flight.ticket == t.store.served && t.target in t.store.memory.actuators
  {
    var e := Written(s, run, k, Mark(c));
    t := Step(e, DoTick(began));
  }

  /** Four more steps from waiting for the mark to the call. */
  lemma CallStarts(s: System, run: seq<Label>, k: nat, c: Command, now: Time, late: bool, began: Time) returns (t: System)
    requires k + 4 <= |run| && run[k] == JournalBegin && run[k + 1] == JournalCommit && run[k + 2] == DoTick(began)
    requires run[k + 3] == JournalFinish(true)
    requires Prepared(At(s, run, k), c, now, late, began)
    ensures t == At(s, run, k + 4) && BrokerSystem.Called(At(s, run, k + 3), run[k + 3]).Some?
    ensures var r := At(s, run, k);
      && t == r.(clock := began, state := Launch(r.state, c, now), flight := InService(c), store := t.store,
                 open := t.open, calls := r.calls + [Sent(c, now, began, late)])
      && t.store.queue == [] && t.store.saving.None? && t.target in t.store.memory.actuators
  {
    var f := MarkIsStored(s, run, k, c, now, late, began);
    t := MarkDone(f, c, now, late);
  }

  /** What CallStarts asks for. */
  predicate Prepared(d: System, c: Command, now: Time, late: bool, began: Time) {
    && d.flight == AwaitMark(c, now, late, d.store.served) && d.store.queue == [Mark(c)] && d.store.saving.None?
    && d.target == c.intent.target && d.target in d.store.memory.actuators && |d.state.uncertain| <= MAX_WRITE_ATTEMPTS
    && d.clock <= began && d.gate && Undisturbed(d, c.intent) && PreflightReason(c.intent, LivePreflight(d), now).None?
  }

  lemma MarkingIsPrepared(s: System, d: System, i: Intent, now: Time, id: string, context: string, began: Time)
    requires Resting(s) && Sendable(s, i, now, id) && Marking(s, d, i, now, id, context) && s.clock <= began
    ensures d.flight.AwaitMark? && d.flight.command == SentCommand(s, i, now, id, context)
    ensures Prepared(d, d.flight.command, now, d.flight.late, began)
  {
    SubmitUndisturbed(s, d, i, now, NewOf(s, i, now, id, context));
  }

  lemma MarkingLaunches(s: System, d: System, t: System, i: Intent, now: Time, id: string, context: string, began: Time)
    requires Resting(s) && Sendable(s, i, now, id) && Marking(s, d, i, now, id, context)
    requires var c := SentCommand(s, i, now, id, context);
      && t == d.(clock := began, state := Launch(d.state, c, now), flight := InService(c), store := t.store,
                 open := t.open, calls := d.calls + [Sent(c, now, began, d.flight.late)])
      && t.store.queue == [] && t.store.saving.None? && t.target in t.store.memory.actuators
    ensures Launched(s, t, i, now, id, context, began)
  {
    assert Launch(Begin(Submit(s.gate, s.state, i, LivePreflight(s), now).state, NewOf(s, i, now, id, context)),
                  SentCommand(s, i, now, id, context), now)
        == Launch(Begin(Submit(s.gate, s.state, i, LivePreflight(s), now).state, SentCommand(s, i, now, id, context)),
                  SentCommand(s, i, now, id, context), now);
  }

  lemma CallFromRest(s: System, i: Intent, now: Time, id: string, context: string, began: Time)
      returns (d: System, t: System)
    requires Resting(s) && Sendable(s, i, now, id) && s.clock <= began
    ensures d == At(s, Registering(i, now, id, context), 4) && t == At(d, Calling(began), 4)
    ensures Launched(s, t, i, now, id, context, began)
    ensures BrokerSystem.Called(At(d, Calling(began), 3), JournalFinish(true)).Some?
  {
    d := JournalIsReached(s, Registering(i, now, id, context), i, now, id, context);
    MarkingIsPrepared(s, d, i, now, id, context, began);
    t := CallStarts(d, Calling(began), 0, d.flight.command, now, d.flight.late, began);
    MarkingLaunches(s, d, t, i, now, id, context, began);
  }

  lemma ThenAt(s: System, first: seq<Label>, t: System, second: seq<Label>, k: nat, run: seq<Label>)
    requires t == At(s, first, |first|) && k <= |second| && run == first + second
    ensures At(s, run, |first| + k) == At(t, second, k)
  {
    RunsCompose(s, first, second, k);
  }

  /** Eight steps from rest to a call. */
  lemma CallIsReached(s: System, run: seq<Label>, i: Intent, now: Time, id: string, context: string, began: Time)
      returns (t: System)
    requires Resting(s) && Sendable(s, i, now, id) && s.clock <= began && run == Sending(i, now, id, context, began)
    ensures t == At(s, run, 8) && Launched(s, t, i, now, id, context, began)
    ensures BrokerSystem.Called(At(s, run, 7), run[7]).Some?
  {
    var d: System;
    d, t := CallFromRest(s, i, now, id, context, began);
    ThenAt(s, Registering(i, now, id, context), d, Calling(began), 3, run);
    ThenAt(s, Registering(i, now, id, context), d, Calling(began), 4, run);
  }

  /** The device reports the setpoint, the service returns, and the journal entry is resolved. */
  function Answered(f: Feedback, heard: Time, later: Time): seq<Label> {
    [DoFeedback(f, heard), DoServiceReturn(true), JournalBegin, JournalCommit, JournalFinish(true), DoTick(later)]
  }

  lemma Heard(s: System, c: Command, f: Feedback, heard: Time) returns (t: System)
    requires s.flight == InService(c) && s.state.pending == Some(c) && c.dispatched && heard < c.deadline
    requires s.store.queue == [] && |s.state.uncertain| <= MAX_WRITE_ATTEMPTS && f.target == s.target
    requires Confirms(Classify(Some(Contract(c)), f))
    ensures t == Step(Step(s, DoFeedback(f, heard)), DoServiceReturn(true))
    ensures t == s.(state := t.state, flight := Grounded, store := s.store.(queue := [Resolve(c)]))
    ensures t.state == Settled(s.state, c, f, heard)
  {
    ConfirmationLaw(Contract(c), f);
    var a := Step(s, DoFeedback(f, heard));
    assert a.store.queue == [Resolve(c)];
    t := Step(a, DoServiceReturn(true));
  }

  /** Resolving an entry nobody waits for. */
  lemma Resolved(s: System, run: seq<Label>, k: nat, c: Command) returns (t: System)
    requires k + 3 <= |run| && run[k] == JournalBegin && run[k + 1] == JournalCommit && run[k + 2] == JournalFinish(true)
    requires var r := At(s, run, k);
      && r.store.queue == [Resolve(c)] && r.store.saving.None? && |r.state.uncertain| <= MAX_WRITE_ATTEMPTS
      && c.intent.target == r.target && r.target in r.store.memory.actuators && r.flight.Grounded?
    ensures t == At(s, run, k + 3)
    ensures t == At(s, run, k).(store := t.store, open := t.open)
    ensures t.store.queue == [] && t.store.saving.None? && t.target in t.store.memory.actuators
  {
    var b := Written(s, run, k, Resolve(c));
    t := Step(b, JournalFinish(true));
    assert t == Released(b, true);
  }

  /** The state a confirming report leaves. */
  function Settled(s: State, c: Command, f: Feedback, heard: Time): State {
    var d := Classify(Some(Contract(c)), f);
    Acknowledge(s.(feedbackStatus := Some(d.status), feedbackReason := Some(d.reason)), c, f, heard)
    .(pending := None, completed := Some(c))
  }

  lemma HeardAt(s: System, run: seq<Label>, t: System)
    requires |run| > 1 && t == Step(Step(s, run[0]), run[1])
    ensures t == At(s, run, 2)
  {
    assert At(s, run, 1) == Step(s, run[0]);
  }

  /** The same after the deadline: the report first gives the command up, then is recognised as its late echo. */
  function AnsweredLate(f: Feedback, heard: Time, later: Time): seq<Label> {
    [DoFeedback(f, heard), DoFeedbackTail(f, heard), DoServiceReturn(true),
     JournalBegin, JournalCommit, JournalFinish(true), DoTick(later)]
  }

  /** What giving the command up and hearing its echo leave. */
  function SettledLate(s: State, c: Command, f: Feedback, heard: Time): State
    requires s.pending.Some? && |s.uncertain| <= MAX_WRITE_ATTEMPTS
  {
    Acknowledge(TimeOut(s), c, f, heard)
  }

  /** A command that may still be heard of. */
  predicate Expected(s: System, c: Command, f: Feedback) {
    && s.gate && s.live.ownership.ownership.Owned? && s.state.goal == Some(c.requested) && s.state.uncertain == []
    && s.state.pending == Some(c) && c.dispatched && f.target == s.target && !f.userInitiated
    && Confirms(Classify(Some(Contract(c)), f))
  }

  lemma GivenUp(s: System, c: Command, f: Feedback, heard: Time) returns (t: System)
    requires s.flight == InService(c) && Expected(s, c, f) && heard >= c.deadline && s.store.queue == []
    ensures t == Step(s, DoFeedback(f, heard))
    ensures t == s.(state := TimeOut(s.state), store := s.store.(queue := [Resolve(c)]))
  {
    t := Step(s, DoFeedback(f, heard));
    assert t.store.queue == [Resolve(c)];
  }

  lemma HeardLate(s: System, t: System, c: Command, f: Feedback, heard: Time) returns (u: System)
    requires s.flight == InService(c) && Expected(s, c, f)
    requires t == s.(state := TimeOut(s.state), store := t.store)
    ensures u == Step(Step(t, DoFeedbackTail(f, heard)), DoServiceReturn(true))
    ensures u == t.(state := SettledLate(s.state, c, f, heard), flight := Grounded)
  {
    ConfirmationLaw(Contract(c), f);
    var p := LivePreflight(t);
    assert t.state.uncertain == [c];
    assert Echoes(t.state.uncertain[0], f, true, heard);
    assert NewestLateMatch(t.state, t.state.uncertain, f) == Some(c);
    assert FeedbackBody(t.gate, t.state, None, f, p, heard).state == Acknowledge(t.state, c, f, heard);
    var a := Step(t, DoFeedbackTail(f, heard));
    u := Step(a, DoServiceReturn(true));
  }

  lemma LateAnswerAt(s: System, run: seq<Label>, c: Command, f: Feedback, heard: Time) returns (t: System)
    requires s.flight == InService(c) && Expected(s, c, f) && heard >= c.deadline && s.store.queue == []
    requires run == [DoFeedback(f, heard), DoFeedbackTail(f, heard), DoServiceReturn(true)]
    ensures t == At(s, run, 3)
    ensures t == s.(state := SettledLate(s.state, c, f, heard), flight := Grounded,
                    store := s.store.(queue := [Resolve(c)]))
  {
    var a := GivenUp(s, c, f, heard);
    assert At(s, run, 1) == a;
    t := HeardLate(s, a, c, f, heard);
    assert At(s, run, 2) == Step(a, run[1]);
  }

  lemma Ticked(s: System, run: seq<Label>, k: nat, later: Time) returns (t: System)
    requires k < |run| && run[k] == DoTick(later)
    requires At(s, run, k).clock <= later && |At(s, run, k).state.uncertain| <= MAX_WRITE_ATTEMPTS
    ensures t == At(s, run, k + 1) && t == At(s, run, k).(clock := later)
  {
    t := Step(At(s, run, k), DoTick(later));
  }

  /** The journal resolves the entry nobody waits for, and time passes. */
  function Tidied(later: Time): seq<Label> { [JournalBegin, JournalCommit, JournalFinish(true), DoTick(later)] }

  lemma TidiedUp(s: System, c: Command, later: Time) returns (t: System)
    requires s.store.queue == [Resolve(c)] && s.store.saving.None? && |s.state.uncertain| <= MAX_WRITE_ATTEMPTS
    requires c.intent.target == s.target && s.target in s.store.memory.actuators && s.flight.Grounded?
    requires s.clock <= later
    ensures t == At(s, Tidied(later), 4) && t == s.(clock := later, store := t.store, open := t.open)
    ensures t.store.queue == [] && t.store.saving.None? && t.target in t.store.memory.actuators
  {
    var _ := Resolved(s, Tidied(later), 0, c);
    t := Ticked(s, Tidied(later), 3, later);
  }

  lemma AnswerAt(s: System, run: seq<Label>, c: Command, f: Feedback, heard: Time) returns (t: System)
    requires s.flight == InService(c) && s.state.pending == Some(c) && c.dispatched && heard < c.deadline
    requires s.store.queue == [] && |s.state.uncertain| <= MAX_WRITE_ATTEMPTS && f.target == s.target
    requires Confirms(Classify(Some(Contract(c)), f)) && run == [DoFeedback(f, heard), DoServiceReturn(true)]
    ensures t == At(s, run, 2)
    ensures t == s.(state := Settled(s.state, c, f, heard), flight := Grounded, store := s.store.(queue := [Resolve(c)]))
  {
    t := Heard(s, c, f, heard);
    HeardAt(s, run, t);
  }

  lemma RestIsReached(s: System, c: Command, f: Feedback, heard: Time, later: Time) returns (t: System)
    requires s.gate && s.flight == InService(c) && s.state.pending == Some(c) && c.dispatched && heard < c.deadline
    requires s.store.queue == [] && s.store.saving.None? && |s.state.uncertain| <= MAX_WRITE_ATTEMPTS
    requires f.target == s.target == c.intent.target && s.target in s.store.memory.actuators
    requires Confirms(Classify(Some(Contract(c)), f)) && s.clock <= later
    ensures t == At(s, Answered(f, heard, later), 6) && Resting(t)
    ensures t == s.(clock := later, state := Settled(s.state, c, f, heard), flight := Grounded,
                    store := t.store, open := t.open)
  {
    var first := [DoFeedback(f, heard), DoServiceReturn(true)];
    var a := AnswerAt(s, first, c, f, heard);
    t := TidiedUp(a, c, later);
    OneAfterAnother(s, first, a, Tidied(later), t);
    assert first + Tidied(later) == Answered(f, heard, later);
  }

  lemma LateRestIsReached(s: System, c: Command, f: Feedback, heard: Time, later: Time) returns (t: System)
    requires s.flight == InService(c) && Expected(s, c, f) && heard >= c.deadline && s.clock <= later
    requires s.store.queue == [] && s.store.saving.None?
    requires c.intent.target == s.target && s.target in s.store.memory.actuators
    ensures t == At(s, AnsweredLate(f, heard, later), 7) && Resting(t)
    ensures t == s.(clock := later, state := SettledLate(s.state, c, f, heard), flight := Grounded,
                    store := t.store, open := t.open)
  {
    var first := [DoFeedback(f, heard), DoFeedbackTail(f, heard), DoServiceReturn(true)];
    var a := LateAnswerAt(s, first, c, f, heard);
    t := TidiedUp(a, c, later);
    OneAfterAnother(s, first, a, Tidied(later), t);
    assert first + Tidied(later) == AnsweredLate(f, heard, later);
  }

  // ---- the real interval ---------------------------------------------------------------------------

  /** The clock does not go back, no call is forgotten, and every call since s has really started since s. */
  ghost predicate Later(s: System, t: System) {
    && s.clock <= t.clock && s.calls <= t.calls
    && forall n :: |s.calls| <= n < |t.calls| ==> t.calls[n].began >= s.clock
  }

  lemma LaterStep(s: System, t: System, l: Label)
    requires Later(s, t)
    ensures Later(s, Step(t, l))
  {
    DispatchSafety.CallsFrame(t, l);
  }

  lemma LaterRun(s: System, run: seq<Label>, k: nat)
    requires k <= |run|
    ensures Later(s, At(s, run, k))
  {
    var later := (t: System) => Later(s, t);
    forall t, l | later(t) ensures later(Step(t, l)) { LaterStep(s, t, l); }
    Throughout(later, s, run, 0, k);
  }

  /** A run that starts by submitting this intent. */
  predicate Submits(run: seq<Label>, i: Intent, now: Time, id: string) {
    run != [] && run[0].DoSubmit? && run[0].intent == i && run[0].now == now && run[0].id == id
  }

  /** If a call has been made since s, the first of them really started a gap after the last one before. */
  ghost predicate NextCallWaits(s: System, run: seq<Label>, k: nat, gap: Time)
    requires s.calls != [] && k <= |run|
  {
    var calls := At(s, run, k).calls;
    |calls| > |s.calls| ==> calls[|s.calls|].began - s.calls[|s.calls| - 1].began >= gap
  }

  lemma OldEnoughWaits(s: System, run: seq<Label>, k: nat, gap: Time)
    requires s.calls != [] && k <= |run| && s.clock - s.calls[|s.calls| - 1].began >= gap
    ensures NextCallWaits(s, run, k, gap)
  {
    LaterRun(s, run, k);
  }

  /** When the journal answers at once, the call starts at once. */
  lemma AtOnceDoesNotWait(s: System, i: Intent, now: Time, id: string, gap: Time) returns (run: seq<Label>)
    requires Resting(s) && Sendable(s, i, now, id) && s.calls != [] && s.clock - s.calls[|s.calls| - 1].began < gap
    ensures Submits(run, i, now, id) && |run| == 8 && !NextCallWaits(s, run, 8, gap)
  {
    run := Sending(i, now, id, "", s.clock);
    var t := CallIsReached(s, run, i, now, id, "", s.clock);
    assert t.calls[|s.calls|].began == s.clock;
  }

  /** The interval a submit asks for. */
  function Gap(s: System, i: Intent, now: Time): Time
    requires Submit(s.gate, s.state, i, LivePreflight(s), now).Proceed?
  {
    Required(i, Submit(s.gate, s.state, i, LivePreflight(s), now).late)
  }

  /** Main result. At rest, with a call behind it, a broker may be given any intent it would send: whatever happens from
      there on, the next call really starts the required interval after the last one if and only if that interval has
      passed by the clock, not just by the stamps, when the intent is submitted. */
  lemma RealGapExactly(s: System, i: Intent, now: Time, id: string)
    requires Resting(s) && Sendable(s, i, now, id) && s.calls != []
    ensures (forall run, k: nat :: Submits(run, i, now, id) && k <= |run| ==> NextCallWaits(s, run, k, Gap(s, i, now)))
        <==> s.clock - s.calls[|s.calls| - 1].began >= Gap(s, i, now)
  {
    var gap := Gap(s, i, now);
    if s.clock - s.calls[|s.calls| - 1].began >= gap {
      forall run, k: nat | Submits(run, i, now, id) && k <= |run| ensures NextCallWaits(s, run, k, gap) {
        OldEnoughWaits(s, run, k, gap);
      }
    } else {
      var run := AtOnceDoesNotWait(s, i, now, id, gap);
    }
  }

  // ---- two calls -----------------------------------------------------------------------------------

  /** Heating to a temperature, ordinary or as an explicit transition. */
  function Ask(celsius: real, explicit: bool): Intent {
    Intent("t", Scalar, HeatingOnly, Some(celsius), None, None, Some(celsius), None, None, Some(celsius), None, None,
           0.5, 0.5, 0.1, 1, 1, 1, 1, 0, "lease", 3600 * SECOND, explicit, false, false, None, Some(0.5))
  }

  function Report(celsius: real): Feedback {
    Feedback("t", Fingerprint(Scalar, Some(celsius), None, None), None, None, 1, 1, 1, 1, 0, false)
  }

  /** A fresh broker whose one target is owned and ready. */
  function Fresh(m: ControlState): System {
    System("t", true, 0, FRESH, Grounded, Store(m, m, [], 0, None),
           Live(OwnershipState(Owned, Ready, AvailableSupported, 1, 0, None, None, false),
                1, 1, 1, Some("lease"), true, None),
           {}, {}, [], None)
  }

  function Interval(explicit: bool): Time { if explicit then HARD_INTERVAL else ORDINARY_INTERVAL }

  /** A first submit whose journal answers only after `wait`, and a second one interval after the first one's stamp. */
  function Twice(explicit: bool, wait: Time): seq<Label> {
    First(explicit, wait) + Between(explicit, wait) + Second(explicit)
  }

  function First(explicit: bool, wait: Time): seq<Label> { Sending(Ask(20.0, explicit), 0, "a", "x", wait) }

  /** An answer before the deadline acknowledges the command; one after it first gives the command up as uncertain, and
      is then recognised as its late echo. */
  function Between(explicit: bool, wait: Time): seq<Label> {
    if wait < ACK_DEADLINE then Answered(Report(20.0), wait, Interval(explicit))
    else AnsweredLate(Report(20.0), wait, Interval(explicit))
  }

  function Second(explicit: bool): seq<Label> {
    Sending(Ask(22.0, explicit), Interval(explicit), "b", "y", Interval(explicit))
  }

  /** A broker can call: the first call of such a run. */
  lemma FirstCall(m: ControlState, explicit: bool, wait: Time) returns (t: System)
    requires "t" in m.actuators && 0 <= wait
    ensures Initial(Fresh(m)) && t == At(Fresh(m), First(explicit, wait), 8)
    ensures BrokerSystem.Called(At(Fresh(m), First(explicit, wait), 7), JournalFinish(true)).Some?
    ensures Sendable(Fresh(m), Ask(20.0, explicit), 0, "a")
    ensures Launched(Fresh(m), t, Ask(20.0, explicit), 0, "a", "x", wait)
  {
    t := CallIsReached(Fresh(m), First(explicit, wait), Ask(20.0, explicit), 0, "a", "x", wait);
  }

  /** At rest an interval later, with the first command acknowledged. */
  predicate Rested(t: System, explicit: bool, wait: Time) {
    && Resting(t) && t.target == "t" && t.issued == {"a"} && t.clock == Interval(explicit)
    && t.live == Fresh(t.store.memory).live
    && |t.calls| == 1 && t.calls[0].at == 0 && t.calls[0].began == wait
    && t.state.pending.None? && t.state.lastError.None? && t.state.lastDispatchAt == Some(0)
    && t.state.acknowledged.Some? && t.state.acknowledged.value.room == Some(20.0)
    && t.state.acknowledged.value.fingerprint == Report(20.0).observed
  }

  lemma RestInTime(m: ControlState, explicit: bool, wait: Time, s: System) returns (t: System)
    requires "t" in m.actuators && 0 <= wait < ACK_DEADLINE && wait <= Interval(explicit)
    requires Sendable(Fresh(m), Ask(20.0, explicit), 0, "a") && Launched(Fresh(m), s, Ask(20.0, explicit), 0, "a", "x", wait)
    ensures t == At(s, Between(explicit, wait), 6) && Rested(t, explicit, wait)
  {
    var c := SentCommand(Fresh(m), Ask(20.0, explicit), 0, "a", "x");
    ConfirmationLaw(Contract(c), Report(20.0));
    t := RestIsReached(s, c, Report(20.0), wait, Interval(explicit));
  }

  lemma RestTooLate(m: ControlState, explicit: bool, wait: Time, s: System) returns (t: System)
    requires "t" in m.actuators && ACK_DEADLINE <= wait <= Interval(explicit)
    requires Sendable(Fresh(m), Ask(20.0, explicit), 0, "a") && Launched(Fresh(m), s, Ask(20.0, explicit), 0, "a", "x", wait)
    ensures t == At(s, Between(explicit, wait), 7) && Rested(t, explicit, wait)
  {
    var c := SentCommand(Fresh(m), Ask(20.0, explicit), 0, "a", "x");
    ConfirmationLaw(Contract(c), Report(20.0));
    t := LateRestIsReached(s, c, Report(20.0), wait, Interval(explicit));
  }

  lemma RestBetween(m: ControlState, explicit: bool, wait: Time, s: System) returns (t: System)
    requires "t" in m.actuators && 0 <= wait <= Interval(explicit)
    requires Sendable(Fresh(m), Ask(20.0, explicit), 0, "a") && Launched(Fresh(m), s, Ask(20.0, explicit), 0, "a", "x", wait)
    ensures t == At(s, Between(explicit, wait), |Between(explicit, wait)|) && Rested(t, explicit, wait)
  {
    if wait < ACK_DEADLINE { t := RestInTime(m, explicit, wait, s); } else { t := RestTooLate(m, explicit, wait, s); }
  }

  lemma SecondIsSendable(explicit: bool, wait: Time, t: System)
    requires Rested(t, explicit, wait)
    ensures Sendable(t, Ask(22.0, explicit), Interval(explicit), "b")
    ensures !Submit(t.gate, t.state, Ask(22.0, explicit), LivePreflight(t), Interval(explicit)).late
  {
    var i := Ask(22.0, explicit);
    assert AntiChatter(i, t.state.acknowledged, Some(0), Interval(explicit)).None?;
  }

  lemma SecondCall(explicit: bool, wait: Time, s: System) returns (t: System)
    requires Rested(s, explicit, wait)
    ensures t == At(s, Second(explicit), 8)
    ensures |t.calls| == 2 && t.calls[0] == s.calls[0] && !t.calls[1].late
    ensures t.calls[1].at == t.calls[1].began == Interval(explicit) && t.calls[1].command.intent == Ask(22.0, explicit)
  {
    SecondIsSendable(explicit, wait, s);
    t := CallIsReached(s, Second(explicit), Ask(22.0, explicit), Interval(explicit), "b", "y", Interval(explicit));
  }

  lemma TwiceIsReached(m: ControlState, explicit: bool, wait: Time) returns (t: System)
    requires "t" in m.actuators && 0 <= wait <= Interval(explicit)
    ensures t == At(Fresh(m), Twice(explicit, wait), |Twice(explicit, wait)|)
    ensures |t.calls| == 2 && t.calls[0].at == 0 && t.calls[0].began == wait && !t.calls[1].late
    ensures t.calls[1].at == t.calls[1].began == Interval(explicit) && t.calls[1].command.intent == Ask(22.0, explicit)
  {
    var a := FirstCall(m, explicit, wait);
    var b := RestBetween(m, explicit, wait, a);
    t := SecondCall(explicit, wait, b);
    OneAfterAnother(Fresh(m), First(explicit, wait), a, Between(explicit, wait), b);
    OneAfterAnother(Fresh(m), First(explicit, wait) + Between(explicit, wait), b, Second(explicit), t);
  }

  /** The interval between real calls can shrink by the whole wait of the earlier one: for every wait up to the interval
      there is a run whose second call starts that much early, although both submits were stamped exactly an interval
      apart and no failed write was outstanding. */
  lemma CallsCanComeClose(m: ControlState, explicit: bool, wait: Time)
    requires "t" in m.actuators && 0 <= wait <= Interval(explicit)
    ensures Initial(Fresh(m))
    ensures var run := Twice(explicit, wait);
      var calls := At(Fresh(m), run, |run|).calls;
      && |calls| == 2 && !calls[1].late && calls[1].command.intent.explicit == explicit
      && calls[1].at - calls[0].at == Interval(explicit)
      && Wait(calls[0]) == wait && calls[1].began - calls[0].began == Interval(explicit) - wait
  {
    var t := TwiceIsReached(m, explicit, wait);
  }
}
