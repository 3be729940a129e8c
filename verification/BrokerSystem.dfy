/** One target of a zone as a step system: the broker's memory of it, the one submit coroutine past the
    target lock, the shared journal behind its first-come lock, and the live world the preflight reads.
    Everything else may happen between any two steps: feedback, timeouts, resume, loss of the target,
    ownership events, gate closing, other writers of the journal, and a crash. */
module BrokerSystem {
  import opened Contracts
  import opened Ownership
  import opened Broker
  import opened Journal

  datatype Live = Live(
    ownership: OwnershipState, entryGeneration: int, inputGeneration: int, capabilityGeneration: int,
    lease: Option<string>, reachable: bool, observed: Option<Fingerprint>)

  /** Where the submit coroutine is suspended. Tickets name its place in the journal's queue. */
  datatype Flight =
    | Grounded
    | AwaitPersist(command: Command, now: Time, late: bool, ticket: nat)
    | AwaitMark(command: Command, now: Time, late: bool, ticket: nat)
    | AwaitResolve(ticket: nat)
    | InService(command: Command)

  /** queue[k] holds ticket served + k; the head holds the lock, and `saving` is the snapshot it is storing. */
  datatype Store = Store(
    memory: ControlState, disk: ControlState, queue: seq<Write>, served: nat, saving: Option<ControlState>)

  /** A service call: the time its submit was stamped with, the instant it really started, and whether a failed write
      was outstanding when it was submitted. */
  datatype Sent = Sent(command: Command, at: Time, began: Time, late: bool)

  /** A call whose resolution is not yet durable; `begun` once the journal has taken a resolve of it up. */
  datatype Open = Open(command: Command, begun: bool)

  /** `clock` is the time it is; submits carry stamps taken earlier. */
  datatype System = System(
    target: string, gate: bool, clock: Time, state: State, flight: Flight, store: Store, live: Live,
    issued: set<string>, submitted: set<Intent>, calls: seq<Sent>, open: Option<Open>)

  datatype Label =
    | DoTick(to: Time)
    | DoSubmit(intent: Intent, now: Time, id: string, contextId: string)
    | DoDrain(now: Time, id: string, contextId: string)
    | DoServiceReturn(ok: bool)
    | DoFeedback(feedback: Feedback, now: Time)
    | DoFeedbackTail(feedback: Feedback, now: Time)
    | DoTimeout(now: Time)
    | DoResume
    | DoSuspend
    | DoInvalidate
    | DoCloseGate
    | DoOwnership(event: Event, args: EventArgs)
    | DoWorld(live: Live)
    | JournalAsk(write: Write)
    | JournalBegin
    | JournalCommit
    | JournalFinish(ok: bool)

  function LivePreflight(s: System): Preflight {
    Preflight(s.target, s.live.entryGeneration, s.live.inputGeneration, s.live.capabilityGeneration,
              s.live.ownership.revision, s.live.ownership.ownership,
              s.live.ownership.target.AvailableSupported? && s.live.reachable,
              DataAllowsControl(s.live.ownership.data), s.live.lease, true, s.live.observed)
  }

  function Same(c: Command, d: Command): (r: bool) { c.(dispatched := true) == d.(dispatched := true) }

  predicate Resolves(w: Write, c: Command) { w.Resolve? && Same(w.command, c) }

  function Enqueue(s: System, w: Write): System { s.(store := s.store.(queue := s.store.queue + [w])) }

  function Ticket(s: System): nat { s.store.served + |s.store.queue| }

  function EnqueueResolve(s: System, c: Option<Command>): System {
    if c.Some? then Enqueue(s, Resolve(c.value)) else s
  }

  // ---- steps -------------------------------------------------------------------------------------

  /** Submits of one target are serialised: none goes on to dispatch while another is still under way. A submit is
      stamped with a time that has come, possibly well before: one stamp serves a whole round of targets. */
  predicate MayDispatch(s: System, i: Intent, now: Time, id: string) {
    && i.target == s.target && now <= s.clock
    && (Submit(s.gate, s.state, i, LivePreflight(s), now).Proceed? ==> s.flight.Grounded? && id !in s.issued)
  }

  function SubmitStep(s: System, i: Intent, now: Time, id: string, contextId: string): System {
    var known := s.(submitted := s.submitted + {i});
    match Submit(s.gate, s.state, i, LivePreflight(s), now)
    case Answered(state, _) => known.(state := state)
    case Proceed(state, late) =>
      var c := NewCommand(state, i, id, contextId, now);
      Enqueue(known.(state := Begin(state, c), flight := AwaitPersist(c, now, late, Ticket(s)),
                     issued := s.issued + {id}),
              Persist(c))
  }

  predicate HeadDone(s: System, ok: bool) {
    && s.store.queue != []
    && if s.store.saving.Some? then ok ==> s.store.disk == s.store.saving.value
       else !ok && Candidate(s.store.memory, s.store.queue[0]).None?
  }

  function Released(s: System, ok: bool): System
    requires HeadDone(s, ok)
  {
    var st := s.store;
    s.(store := st.(
      memory := if ok && st.queue[0].UpdateDemandStates? then st.saving.value else st.memory,
      queue := st.queue[1..], served := st.served + 1, saving := None))
  }

  /** The dispatching coroutine continues in the same breath as the lock is released. */
  function Continue(s: System, k: Continuation, now: Time, late: bool): System {
    match k
    case Stop(state, _) => s.(state := state, flight := Grounded)
    case Withdraw(state, c, _) => Enqueue(s.(state := state, flight := AwaitResolve(Ticket(s))), Resolve(c))
    case MarkNext(state, c) => Enqueue(s.(state := state, flight := AwaitMark(c, now, late, Ticket(s))), Mark(c))
    case CallService(state, c) =>
      s.(state := state, flight := InService(c), calls := s.calls + [Sent(c, now, s.clock, late)],
         open := Some(Open(c, false)))
  }

  predicate Served(s: System) {
    (s.flight.AwaitPersist? || s.flight.AwaitMark? || s.flight.AwaitResolve?) && s.flight.ticket == s.store.served
  }

  function Answer(s: System, ok: bool): Continuation
    requires s.flight.AwaitPersist? || s.flight.AwaitMark?
  {
    var f := s.flight;
    if f.AwaitPersist? then AfterPersist(s.gate, s.state, f.command, ok, LivePreflight(s), f.now)
    else AfterMark(s.gate, s.state, f.command, ok, LivePreflight(s), f.now)
  }

  function FinishStep(s: System, ok: bool): System
    requires HeadDone(s, ok)
  {
    var r := Released(s, ok);
    if !Served(s) then r
    else if s.flight.AwaitResolve? then r.(flight := Grounded)
    else Continue(r, Answer(s, ok), s.flight.now, s.flight.late)
  }

  function BeginStep(s: System): System
    requires s.store.queue != [] && Candidate(s.store.memory, s.store.queue[0]).Some?
  {
    var w := s.store.queue[0];
    var candidate := Candidate(s.store.memory, w).value;
    s.(store := s.store.(memory := Installed(s.store.memory, w, candidate), saving := Some(candidate)),
       open := if s.open.Some? && Resolves(w, s.open.value.command)
               then Some(s.open.value.(begun := true)) else s.open)
  }

  function CommitStep(s: System): System
    requires s.store.saving.Some?
  {
    s.(store := s.store.(disk := s.store.saving.value),
       open := if s.open.Some? && s.open.value.begun then None else s.open)
  }

  predicate Enabled(s: System, l: Label) {
    && |s.state.uncertain| <= MAX_WRITE_ATTEMPTS
    && match l
       case DoTick(to) => s.clock <= to
       case DoSubmit(i, now, id, _) => MayDispatch(s, i, now, id)
       case DoDrain(now, id, _) =>
         s.state.queued.Some? && s.state.pending.None?
         && MayDispatch(s.(state := s.state.(queued := None)), s.state.queued.value, now, id)
       case DoServiceReturn(_) => s.flight.InService?
       case DoFeedback(f, _) => f.target == s.target
       case DoFeedbackTail(f, _) => f.target == s.target
       case DoTimeout(now) => Overdue(s.state, now)
       case DoOwnership(e, a) => Accepts(e, a)
       case DoWorld(live) => live.ownership == s.live.ownership
       case JournalAsk(w) => !IsFor(w, s.target)
       case JournalBegin =>
         s.store.queue != [] && s.store.saving.None? && Candidate(s.store.memory, s.store.queue[0]).Some?
       case JournalCommit => s.store.saving.Some?
       case JournalFinish(ok) => HeadDone(s, ok)
       case _ => true
  }

  function Apply(s: System, l: Label): System
    requires Enabled(s, l)
  {
    match l
    case DoTick(to) => s.(clock := to)
    case DoSubmit(i, now, id, context) => SubmitStep(s, i, now, id, context)
    case DoDrain(now, id, context) =>
      SubmitStep(s.(state := s.state.(queued := None)), s.state.queued.value, now, id, context)
    case DoServiceReturn(ok) =>
      s.(state := ServiceReturned(s.state, s.flight.command, ok).0, flight := Grounded)
    case DoFeedback(f, now) =>
      var r := FeedbackHead(s.gate, s.state, f, LivePreflight(s), now).0;
      EnqueueResolve(s.(state := r.state), r.resolve)
    case DoFeedbackTail(f, now) =>
      s.(state := FeedbackBody(s.gate, s.state, None, f, LivePreflight(s), now).state)
    case DoTimeout(_) => EnqueueResolve(s.(state := TimeOut(s.state)), s.state.pending)
    case DoResume => EnqueueResolve(s.(state := ResumeTarget(s.state)), s.state.pending)
    case DoSuspend => s.(state := Suspend(s.state))
    case DoInvalidate => s.(state := s.state.(queued := None))
    case DoCloseGate => s.(gate := false, state := s.state.(queued := None))
    case DoOwnership(e, a) => s.(live := s.live.(ownership := Reduce(s.live.ownership, e, a)))
    case DoWorld(live) => s.(live := live)
    case JournalAsk(w) => Enqueue(s, w)
    case JournalBegin => BeginStep(s)
    case JournalCommit => CommitStep(s)
    case JournalFinish(ok) => FinishStep(s, ok)
  }

  /** A label that is not enabled changes nothing, so every sequence of labels is a run. */
  function Step(s: System, l: Label): System { if Enabled(s, l) then Apply(s, l) else s }

  function At(s: System, run: seq<Label>, k: nat): System
    requires k <= |run|
  {
    if k == 0 then s else Step(At(s, run, k - 1), run[k - 1])
  }

  /** What every step keeps, every run keeps. */
  lemma {:induction false} Throughout(good: System -> bool, s: System, run: seq<Label>, i: nat, j: nat)
    requires i <= j <= |run| && good(At(s, run, i)) && forall t, l :: good(t) ==> good(Step(t, l))
    ensures good(At(s, run, j))
    decreases j
  {
    if i < j { Throughout(good, s, run, i, j - 1); }
  }

  /** The command whose set_temperature call this step starts. */
  function Called(s: System, l: Label): Option<Command> {
    if Enabled(s, l) && l.JournalFinish? && Served(s) && s.flight.AwaitMark? && Answer(s, l.ok).CallService?
    then Some(s.flight.command) else None
  }

  predicate Initial(s: System) {
    && s.gate && s.state == FRESH && s.flight.Grounded?
    && s.store.queue == [] && s.store.saving.None? && s.target in s.store.memory.actuators
    && s.issued == {} && s.submitted == {} && s.calls == [] && s.open.None?
  }
}
