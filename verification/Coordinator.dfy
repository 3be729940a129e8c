/** The broker's record at work: an object that takes every step of the system through the record's own methods, so that
    what is proved of the system's runs holds of the record. */
module Coordinator {
  import opened Contracts
  import opened Ownership
  import opened Broker
  import opened Journal
  import opened BrokerSystem
  import opened TargetBroker
  import opened JournalSafety
  import opened DeliveryLimits
  import opened DispatchSafety

  class Delivery {
    const target: string
    const record: Target
    var clock: Time
    var flight: Flight
    var store: Store
    var live: Live
    var issued: set<string>
    var submitted: set<Intent>
    var calls: seq<Sent>
    var open: Option<Open>

    function View(): System
      reads this, record
    {
      System(target, record.gateOpen, clock, record.View(), flight, store, live, issued, submitted, calls, open)
    }

    constructor (target: string, memory: ControlState, disk: ControlState, live: Live, clock: Time)
      requires target in memory.actuators
      ensures Initial(View()) && fresh(record) && View().store == Store(memory, disk, [], 0, None)
      ensures View().target == target && View().live == live && View().clock == clock
    {
      this.target, this.clock, this.live := target, clock, live;
      record := new Target();
      flight, store := Grounded, Store(memory, disk, [], 0, None);
      issued, submitted, calls, open := {}, {}, [], None;
    }

    method Enqueue(w: Write)
      modifies `store
      ensures View() == BrokerSystem.Enqueue(old(View()), w)
    {
      store := store.(queue := store.queue + [w]);
    }

    method ResolveIf(c: Option<Command>)
      modifies `store
      ensures View() == EnqueueResolve(old(View()), c)
    {
      if c.Some? { Enqueue(Resolve(c.value)); }
    }

    method SubmitOne(i: Intent, now: Time, id: string, contextId: string)
      modifies `submitted, `flight, `issued, `store, record
      ensures View() == SubmitStep(old(View()), i, now, id, contextId)
    {
      var p := LivePreflight(View());
      ghost var r := Submit(record.gateOpen, record.View(), i, p, now);
      var answer, late := record.SubmitIntent(i, p, now);
      submitted := submitted + {i};
      assert View() == old(View()).(state := r.state, submitted := old(submitted) + {i});
      if answer.None? { Dispatch(i, now, id, contextId, late); }
    }

    /** An intent that goes on becomes the pending command and asks for its journal entry. */
    method Dispatch(i: Intent, now: Time, id: string, contextId: string, late: bool)
      modifies `flight, `issued, `store, record
      ensures var s := old(View());
        var c := NewCommand(s.state, i, id, contextId, now);
        View() == BrokerSystem.Enqueue(
          s.(state := Broker.Begin(s.state, c), flight := AwaitPersist(c, now, late, Ticket(s)), issued := s.issued + {id}),
          Persist(c))
    {
      var c := record.BeginDispatch(i, id, contextId, now);
      flight := AwaitPersist(c, now, late, store.served + |store.queue|);
      issued := issued + {id};
      Enqueue(Persist(c));
    }

    method DrainOne(now: Time, id: string, contextId: string)
      requires Enabled(View(), DoDrain(now, id, contextId))
      modifies this, record
      ensures View() == Apply(old(View()), DoDrain(now, id, contextId))
    {
      var queued := record.queued.value;
      record.Invalidate();
      SubmitOne(queued, now, id, contextId);
    }

    method Return(ok: bool)
      requires Enabled(View(), DoServiceReturn(ok))
      modifies this, record
      ensures View() == Apply(old(View()), DoServiceReturn(ok))
    {
      var _ := record.CallReturned(flight.command, ok);
      flight := Grounded;
    }

    method Hear(f: Feedback, now: Time)
      requires Enabled(View(), DoFeedback(f, now))
      modifies this, record
      ensures View() == Apply(old(View()), DoFeedback(f, now))
    {
      var _, resolve, _ := record.Feedback(f, LivePreflight(View()), now);
      ResolveIf(resolve);
    }

    method HearRest(f: Feedback, now: Time)
      requires Enabled(View(), DoFeedbackTail(f, now))
      modifies this, record
      ensures View() == Apply(old(View()), DoFeedbackTail(f, now))
    {
      var _, _ := record.FeedbackRest(None, f, LivePreflight(View()), now);
    }

    method TimeOut(now: Time)
      requires Enabled(View(), DoTimeout(now))
      modifies this, record
      ensures View() == Apply(old(View()), DoTimeout(now))
    {
      var c := record.TimeOutPending();
      ResolveIf(Some(c));
    }

    method Resume()
      requires Enabled(View(), DoResume)
      modifies this, record
      ensures View() == Apply(old(View()), DoResume)
    {
      var resolve := record.Resume();
      ResolveIf(resolve);
    }

    method Release(ok: bool)
      requires HeadDone(View(), ok)
      modifies `store
      ensures View() == Released(old(View()), ok)
    {
      var w := store.queue[0];
      if ok && w.UpdateDemandStates? { store := store.(memory := store.saving.value); }
      store := store.(queue := store.queue[1..], served := store.served + 1, saving := None);
    }

    /** The lock is released, and a dispatching coroutine whose turn it was goes on in the same breath. */
    method Finish(ok: bool)
      requires HeadDone(View(), ok)
      modifies this, record
      ensures View() == FinishStep(old(View()), ok)
    {
      var served, answers := Served(View()), flight.AwaitPersist? || flight.AwaitMark?;
      Release(ok);
      if served {
        if answers { GoOn(ok); } else { flight := Grounded; }
      }
    }

    method GoOn(ok: bool)
      requires flight.AwaitPersist? || flight.AwaitMark?
      modifies this, record
      ensures View() == Continue(old(View()), Answer(old(View()), ok), old(flight).now, old(flight).late)
    {
      var next: Continuation;
      var f, p := flight, LivePreflight(View());
      if f.AwaitPersist? { next := record.PersistAnswered(f.command, ok, p, f.now); }
      else { next := record.MarkAnswered(f.command, ok, p, f.now); }
      Act(next, f.now, f.late);
    }

    /** What the coroutine does once the record has decided. */
    method Act(next: Continuation, now: Time, late: bool)
      requires View().state == next.state
      modifies `flight, `store, `calls, `open
      ensures View() == Continue(old(View()), next, now, late)
    {
      match next
      case Stop(_, _) => flight := Grounded;
      case Withdraw(_, c, _) =>
        flight := AwaitResolve(store.served + |store.queue|);
        Enqueue(Resolve(c));
      case MarkNext(_, c) =>
        flight := AwaitMark(c, now, late, store.served + |store.queue|);
        Enqueue(Mark(c));
      case CallService(_, c) =>
        flight, calls, open := InService(c), calls + [Sent(c, now, clock, late)], Some(Open(c, false));
    }

    /** The steps that need no method of the record, or one that changes a single thing. */
    method TakeQuietly(l: Label)
      requires Enabled(View(), l)
      requires l.DoTick? || l.DoSuspend? || l.DoInvalidate? || l.DoCloseGate? || l.DoOwnership? || l.DoWorld?
      modifies this, record
      ensures View() == Apply(old(View()), l)
    {
      match l
      case DoTick(to) => clock := to;
      case DoSuspend => record.TargetGone();
      case DoInvalidate => record.Invalidate();
      case DoCloseGate => record.CloseGate();
      case DoOwnership(e, a) => live := live.(ownership := Reduce(live.ownership, e, a));
      case DoWorld(l') => live := l';
    }

    method TakeJournal(l: Label)
      requires Enabled(View(), l) && (l.JournalAsk? || l.JournalBegin? || l.JournalCommit?)
      modifies this
      ensures View() == Apply(old(View()), l)
    {
      match l
      case JournalAsk(w) => Enqueue(w);
      case JournalBegin =>
        var w := store.queue[0];
        var candidate := Candidate(store.memory, w).value;
        store := store.(memory := Installed(store.memory, w, candidate), saving := Some(candidate));
        if open.Some? && Resolves(w, open.value.command) { open := Some(Open(open.value.command, true)); }
      case JournalCommit =>
        store := store.(disk := store.saving.value);
        if open.Some? && open.value.begun { open := None; }
    }

    /** Any step. In a consistent state it leaves a consistent one, and a call it makes is safe. */
    method Take(l: Label)
      modifies this, record
      ensures View() == Step(old(View()), l)
      ensures old(Inv(View())) ==> Inv(View())
      ensures old(Inv(View())) && calls != old(calls) ==>
        && |calls| == |old(calls)| + 1
        && SafeToCall(old(View()), calls[|calls| - 1].command, calls[|calls| - 1].at)
        && calls[|calls| - 1].began == old(clock)
    {
      ghost var s := View();
      TakeAny(l);
      CallsFrame(s, l);
      if Inv(s) { StepKeeps(s, l); }
      if Inv(s) && Called(s, l).Some? { SafeStep(s, l); }
    }

    method TakeAny(l: Label)
      modifies this, record
      ensures View() == Step(old(View()), l)
    {
      if !Enabled(View(), l) { return; }
      match l
      case DoSubmit(i, now, id, context) => SubmitOne(i, now, id, context);
      case DoDrain(now, id, context) => DrainOne(now, id, context);
      case DoServiceReturn(ok) => Return(ok);
      case DoFeedback(f, now) => Hear(f, now);
      case DoFeedbackTail(f, now) => HearRest(f, now);
      case DoTimeout(now) => TimeOut(now);
      case DoResume => Resume();
      case JournalFinish(ok) => Finish(ok);
      case JournalAsk(_) => TakeJournal(l);
      case JournalBegin => TakeJournal(l);
      case JournalCommit => TakeJournal(l);
      case DoTick(_) => TakeQuietly(l);
      case DoSuspend => TakeQuietly(l);
      case DoInvalidate => TakeQuietly(l);
      case DoCloseGate => TakeQuietly(l);
      case DoOwnership(_, _) => TakeQuietly(l);
      case DoWorld(_) => TakeQuietly(l);
    }

    /** A whole run. From a fresh start the object's calls are then spaced, its acknowledgement is one that some intent
        asked for, and a crash now finds on its disk every call whose resolution has not been stored, to be reported
        first. */
    method Follow(run: seq<Label>)
      modifies this, record
      ensures View() == At(old(View()), run, |run|)
      ensures old(Initial(View())) ==>
        Inv(View()) && Spaced(calls) && Genuine(record.acknowledged, submitted) && Remembered(old(View()), run, store.disk)
    {
      for k := 0 to |run|
        invariant View() == At(old(View()), run, k)
      {
        Take(run[k]);
      }
      if old(Initial(View())) {
        RunKeeps(old(View()), run, |run|);
        SpacingRun(old(View()), run, |run|);
        AcknowledgementsAreGenuine(old(View()), run, |run|);
        CallsAreRemembered(old(View()), run);
      }
    }
  }

  ghost predicate OpenSince(s: System, run: seq<Label>, i: nat, c: Command)
    requires i < |run|
  {
    Called(At(s, run, i), run[i]) == Some(c) && !ResolutionStored(s, run, i, |run|, c)
  }

  /** A snapshot that holds the command as sent, and whose recovery says so first. */
  ghost predicate Reports(disk: ControlState, target: string, c: Command) {
    && Holds(disk, target, Some(Stored(c, true)))
    && forall runId, configuration, strategy ::
         Recover(LoadedState(disk), runId, configuration, strategy).reasons[0] == UnresolvedCommand
  }

  /** Every call of the run that is still open is reported by this snapshot. */
  ghost predicate Remembered(s: System, run: seq<Label>, disk: ControlState) {
    forall i: nat, c :: i < |run| && OpenSince(s, run, i, c) ==> Reports(disk, s.target, c)
  }

  lemma CallIsReported(s: System, run: seq<Label>, i: nat, c: Command)
    requires Initial(s) && i < |run| && OpenSince(s, run, i, c)
    ensures Reports(At(s, run, |run|).store.disk, s.target, c)
  {
    forall runId, configuration, strategy
      ensures Holds(At(s, run, |run|).store.disk, s.target, Some(Stored(c, true)))
      ensures Recover(LoadedState(At(s, run, |run|).store.disk), runId, configuration, strategy).reasons[0]
              == UnresolvedCommand
    {
      CrashNeverForgetsACall(s, run, i, |run|, runId, configuration, strategy);
    }
    CrashNeverForgetsACall(s, run, i, |run|, "", "", "");
  }

  lemma CallsAreRemembered(s: System, run: seq<Label>)
    requires Initial(s)
    ensures Remembered(s, run, At(s, run, |run|).store.disk)
  {
    forall i: nat, c | i < |run| && OpenSince(s, run, i, c)
      ensures Reports(At(s, run, |run|).store.disk, s.target, c)
    {
      CallIsReported(s, run, i, c);
    }
  }
}
