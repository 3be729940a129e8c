/** Whole-run guarantees of the command protocol. */
module DispatchSafety {
  import opened Contracts
  import opened Ownership
  import opened Broker
  import opened Journal
  import opened BrokerSystem
  import opened JournalSafety
  import opened OwnershipRuns
  import opened SubmitLaw

  /** What a step can do to the world and the gate. */
  lemma WorldFrame(s: System, l: Label)
    ensures var t := Step(s, l);
      && t.target == s.target
      && (t.gate ==> s.gate)
      && t.live.ownership == (if Enabled(s, l) && l.DoOwnership? then Reduce(s.live.ownership, l.event, l.args)
                              else s.live.ownership)
  {
    if Enabled(s, l) && l.JournalFinish? { FinishKeepsWorld(s, l.ok); }
  }

  lemma FinishKeepsWorld(s: System, ok: bool)
    requires HeadDone(s, ok)
    ensures var t := FinishStep(s, ok);
      t.target == s.target && t.gate == s.gate && t.live == s.live
  {
  }

  lemma FinishMakesCalls(s: System, ok: bool)
    requires HeadDone(s, ok) && |s.state.uncertain| <= MAX_WRITE_ATTEMPTS
    ensures var c := Called(s, JournalFinish(ok));
      FinishStep(s, ok).calls
      == s.calls + (if c.Some? then [Sent(c.value, s.flight.now, s.clock, s.flight.late)] else [])
  {
  }

  lemma SubmitMakesNoCall(s: System, i: Intent, now: Time, id: string, context: string)
    ensures var t := SubmitStep(s, i, now, id, context);
      t.calls == s.calls && t.clock == s.clock
  {
  }

  lemma OthersMakeNoCall(s: System, l: Label)
    requires Enabled(s, l) && !l.DoSubmit? && !l.DoDrain? && !l.JournalFinish?
    ensures Apply(s, l).calls == s.calls && s.clock <= Apply(s, l).clock
  {
  }

  /** What a step can do to the clock and the calls. */
  lemma CallsFrame(s: System, l: Label)
    ensures var t, c := Step(s, l), Called(s, l);
      && s.clock <= t.clock
      && t.calls == s.calls + (if c.Some? then [Sent(c.value, s.flight.now, s.clock, s.flight.late)] else [])
  {
    if Enabled(s, l) {
      if l.DoSubmit? { SubmitMakesNoCall(s, l.intent, l.now, l.id, l.contextId); }
      else if l.DoDrain? {
        SubmitMakesNoCall(s.(state := s.state.(queued := None)), s.state.queued.value, l.now, l.id, l.contextId);
      }
      else if l.JournalFinish? { FinishMakesCalls(s, l.ok); }
      else { OthersMakeNoCall(s, l); }
    }
  }

  /** What a step can do to the open call. */
  ghost predicate OpenMoves(s: System, l: Label, t: System) {
    t.open == (if Called(s, l).Some? then Some(Open(Called(s, l).value, false))
               else if !Enabled(s, l) || s.open.None? then s.open
               else if l.JournalBegin? && Resolves(s.store.queue[0], s.open.value.command)
               then Some(Open(s.open.value.command, true))
               else if l.JournalCommit? && s.open.value.begun then None
               else s.open)
  }

  lemma JournalMovesOpen(s: System, l: Label)
    requires Enabled(s, l) && (l.JournalBegin? || l.JournalCommit? || l.JournalFinish?)
    ensures OpenMoves(s, l, Apply(s, l))
  {
  }

  lemma OthersLeaveOpen(s: System, l: Label)
    requires Enabled(s, l) && !(l.JournalBegin? || l.JournalCommit? || l.JournalFinish?)
    ensures Apply(s, l).open == s.open
  {
    match l
    case DoSubmit(_, _, _, _) =>
    case DoDrain(_, _, _) =>
    case DoFeedback(_, _) =>
    case _ =>
  }

  lemma OpenFrame(s: System, l: Label)
    ensures OpenMoves(s, l, Step(s, l))
  {
    if Enabled(s, l) {
      if l.JournalBegin? || l.JournalCommit? || l.JournalFinish? { JournalMovesOpen(s, l); } else { OthersLeaveOpen(s, l); }
    }
  }

  /** What must be true of the world at the instant a set_temperature call starts. */
  ghost predicate SafeToCall(s: System, c: Command, submittedAt: Time) {
    && s.gate
    && s.live.ownership.ownership.Owned?
    && s.live.ownership.target.AvailableSupported? && s.live.reachable
    && (DataAllowsControl(s.live.ownership.data) || c.intent.safety)
    && s.live.entryGeneration == c.intent.entryGeneration
    && s.live.inputGeneration == c.intent.inputGeneration
    && s.live.capabilityGeneration == c.intent.capabilityGeneration
    && s.live.ownership.revision == c.intent.ownershipRevision
    && s.live.lease == Some(c.intent.lease)
    && c.intent.target == s.target
    && submittedAt < c.intent.expiresAt
    && !Foreign(s.state, c.intent, s.live.observed)
    && Holds(s.store.disk, s.target, Some(Stored(c, true)))
  }

  lemma SafeStep(s: System, l: Label)
    requires Inv(s) && Called(s, l).Some?
    ensures SafeToCall(s, Called(s, l).value, s.flight.now)
  {
    CallFacts(s, l);
    RecheckExactly(s.gate, s.state, s.flight.command, l.ok, LivePreflight(s), s.flight.now);
  }

  /** In every run, every call starts in a world that allows it, on a device that shows nothing, or what the broker
      expects, or is met for the first time, and with that command on disk as dispatched. */
  lemma EveryCallIsSafe(s: System, run: seq<Label>, k: nat)
    requires Initial(s) && k < |run| && Called(At(s, run, k), run[k]).Some?
    ensures var now := At(s, run, k);
      SafeToCall(now, Called(now, run[k]).value, now.flight.now)
  {
    RunKeeps(s, run, k);
    SafeStep(At(s, run, k), run[k]);
  }

  ghost function OwnershipAt(s: System, run: seq<Label>, k: nat): OwnershipState
    requires k <= |run|
  {
    At(s, run, k).live.ownership
  }

  ghost predicate Reached(s: System, run: seq<Label>, k: nat, revision: nat)
    requires k <= |run|
  {
    OwnershipAt(s, run, k).revision >= revision
  }

  lemma RevisionStep(t: System, l: Label)
    ensures Step(t, l).live.ownership.revision >= t.live.ownership.revision
  {
    WorldFrame(t, l);
    if Enabled(t, l) && l.DoOwnership? { OwnershipLaw(t.live.ownership, l.event, l.args); }
  }

  lemma RevisionsGrow(s: System, run: seq<Label>, i: nat, j: nat, revision: nat)
    requires i <= j <= |run| && Reached(s, run, i, revision)
    ensures Reached(s, run, j, revision)
  {
    var reached := (t: System) => t.live.ownership.revision >= revision;
    forall t, l | reached(t) ensures reached(Step(t, l)) { RevisionStep(t, l); }
    Throughout(reached, s, run, i, j);
  }

  ghost predicate Targets(s: System, run: seq<Label>, k: nat, target: string)
    requires k <= |run|
  {
    At(s, run, k).target == target
  }

  lemma TargetStays(s: System, run: seq<Label>, k: nat)
    requires k <= |run|
    ensures Targets(s, run, k, s.target)
  {
    var same := (t: System) => t.target == s.target;
    forall t, l | same(t) ensures same(Step(t, l)) { WorldFrame(t, l); }
    Throughout(same, s, run, 0, k);
  }

  ghost predicate Grants(s: System, run: seq<Label>, k: nat)
    requires k < |run|
  {
    && Enabled(At(s, run, k), run[k]) && run[k].DoOwnership?
    && GrantsOwnership(OwnershipAt(s, run, k), run[k].event, run[k].args)
  }

  ghost predicate OwnedAt(s: System, run: seq<Label>, k: nat)
    requires k <= |run|
  {
    OwnershipAt(s, run, k).ownership.Owned?
  }

  lemma OnlyGrantsOwn(s: System, run: seq<Label>, k: nat)
    requires k < |run| && !OwnedAt(s, run, k) && OwnedAt(s, run, k + 1)
    ensures Grants(s, run, k)
  {
    WorldFrame(At(s, run, k), run[k]);
    OwnershipLaw(OwnershipAt(s, run, k), run[k].event, run[k].args);
  }

  lemma OwnershipIsRegranted(s: System, run: seq<Label>, i: nat, j: nat) returns (k: nat)
    requires i <= j <= |run| && !OwnedAt(s, run, i) && OwnedAt(s, run, j)
    ensures i <= k < j && Grants(s, run, k)
  {
    k := Turns((k: nat) => k <= |run| && OwnedAt(s, run, k), i, j);
    OnlyGrantsOwn(s, run, k);
  }

  ghost predicate OverriddenAt(s: System, run: seq<Label>, k: nat)
    requires k < |run|
  {
    run[k].DoOwnership? && TakesOver(run[k].event, run[k].args) && Enabled(At(s, run, k), run[k])
  }

  lemma OverrideRevokes(s: System, run: seq<Label>, k: nat)
    requires k < |run| && OverriddenAt(s, run, k)
    ensures !OwnershipAt(s, run, k + 1).ownership.Owned?
    ensures OwnershipAt(s, run, k).revision < OwnershipAt(s, run, k + 1).revision
  {
    OwnershipLaw(OwnershipAt(s, run, k), run[k].event, run[k].args);
    WorldFrame(At(s, run, k), run[k]);
  }

  lemma RegrantedSince(s: System, run: seq<Label>, i: nat, j: nat)
    requires i < j < |run| && OverriddenAt(s, run, i) && OwnershipAt(s, run, j).ownership.Owned?
    ensures exists k :: i < k < j && Grants(s, run, k)
  {
    OverrideRevokes(s, run, i);
    var _ := OwnershipIsRegranted(s, run, i + 1, j);
  }

  lemma RevisionPassed(s: System, run: seq<Label>, i: nat, j: nat)
    requires i < j < |run| && OverriddenAt(s, run, i)
    ensures OwnershipAt(s, run, i).revision < OwnershipAt(s, run, j).revision
  {
    OverrideRevokes(s, run, i);
    RevisionsGrow(s, run, i + 1, j, OwnershipAt(s, run, i).revision + 1);
  }

  lemma CallNeedsOwner(s: System, run: seq<Label>, k: nat)
    requires Initial(s) && k < |run| && Called(At(s, run, k), run[k]).Some?
    ensures OwnershipAt(s, run, k).ownership.Owned? && At(s, run, k).gate
    ensures Called(At(s, run, k), run[k]).value.intent.ownershipRevision == OwnershipAt(s, run, k).revision
  {
    EveryCallIsSafe(s, run, k);
  }

  /** After somebody else sets the target, directly or through a preset that affects it, no call goes out until
      ownership has been reconciled again, and then only for an intent formed after the intervention. */
  lemma NoCallUnderOverride(s: System, run: seq<Label>, i: nat, j: nat)
    requires Initial(s) && i < j < |run| && OverriddenAt(s, run, i)
    requires Called(At(s, run, j), run[j]).Some?
    ensures exists k :: i < k < j && Grants(s, run, k)
    ensures Called(At(s, run, j), run[j]).value.intent.ownershipRevision > OwnershipAt(s, run, i).revision
  {
    CallNeedsOwner(s, run, j);
    RegrantedSince(s, run, i, j);
    RevisionPassed(s, run, i, j);
  }

  // ---- what each event reaches -------------------------------------------------------------------

  /** The journal is asked to resolve this command, behind everything it has been asked before. */
  predicate ResolveAsked(s: System, t: System, c: Command) { t.store == s.store.(queue := s.store.queue + [Resolve(c)]) }

  /** A deadline and a resume end the pending command and ask for its resolution; a resume forgets what is uncertain. */
  lemma EndingsExactly(s: System, l: Label)
    requires Enabled(s, l) && (l.DoTimeout? || l.DoResume?)
    ensures var t := Apply(s, l);
      && t.state.pending.None? && t.state.queued.None? && t.flight == s.flight && t.calls == s.calls
      && (s.state.pending.Some? ==> ResolveAsked(s, t, s.state.pending.value))
      && (s.state.pending.None? ==> t.store == s.store)
      && (l.DoResume? ==> t.state.uncertain == [] && t.state.lastError.None?)
      && (l.DoTimeout? ==> s.state.pending.Some? && s.state.pending.value in t.state.uncertain && t.state.lastError.Some?)
  {
  }

  /** Losing the target, an invalidation and a closing gate touch the record only; other events touch the world only. */
  lemma EventsExactly(s: System, l: Label)
    requires Enabled(s, l)
    ensures var t := Apply(s, l);
      && (l.DoSuspend? ==> t == s.(state := t.state) && t.state.acknowledged.None? && t.state.pending == s.state.pending)
      && (l.DoInvalidate? ==> t == s.(state := s.state.(queued := None)))
      && (l.DoCloseGate? ==> t == s.(gate := false, state := s.state.(queued := None)))
      && (l.DoWorld? ==> t == s.(live := l.live) && t.live.ownership == s.live.ownership)
      && (l.DoTick? ==> t == s.(clock := l.to) && s.clock <= t.clock)
      && (l.DoServiceReturn? ==> t == s.(state := t.state, flight := Grounded))
      && (l.JournalAsk? ==> t == s.(store := s.store.(queue := s.store.queue + [l.write])))
  {
  }

  /** A queued intent is offered again exactly as if it were submitted then, and is no longer queued for that. */
  lemma DrainIsSubmit(s: System, now: Time, id: string, context: string)
    requires Enabled(s, DoDrain(now, id, context))
    ensures var i := s.state.queued.value;
      var emptied := s.(state := s.state.(queued := None));
      Enabled(emptied, DoSubmit(i, now, id, context))
      && Apply(s, DoDrain(now, id, context)) == Apply(emptied, DoSubmit(i, now, id, context))
  {
  }

  /** A submit is remembered as made and changes the record even where it is only answered. */
  lemma SubmitExactly(s: System, i: Intent, now: Time, id: string, context: string)
    requires MayDispatch(s, i, now, id)
    ensures var r := Submit(s.gate, s.state, i, LivePreflight(s), now);
      var t := SubmitStep(s, i, now, id, context);
      && t.submitted == s.submitted + {i} && t.live == s.live && t.gate == s.gate
      && (r.Answered? ==> t == s.(state := r.state, submitted := t.submitted))
      && (r.Proceed? ==>
            && t.state.pending.Some? && t.state.pending.value.intent == i && t.state.pending.value.id == id
            && t.issued == s.issued + {id} && t.flight.AwaitPersist? && Some(t.flight.command) == t.state.pending
            && t.flight.now == now && t.flight.late == r.late
            && t.store == s.store.(queue := s.store.queue + [Persist(t.flight.command)]))
  {
  }

  // ---- disabled, replaced, gated -----------------------------------------------------------------

  ghost predicate ShutAt(s: System, run: seq<Label>, k: nat)
    requires k <= |run|
  {
    Shut(OwnershipAt(s, run, k))
  }

  /** The target is disabled or replaced, or a restart puts it behind the resume gate. */
  ghost predicate ShutsAt(s: System, run: seq<Label>, k: nat)
    requires k < |run|
  {
    run[k].DoOwnership? && Shuts(run[k].event) && Enabled(At(s, run, k), run[k])
  }

  ghost predicate LiftsAt(s: System, run: seq<Label>, k: nat)
    requires k < |run|
  {
    run[k].DoOwnership? && Lifts(run[k].event, run[k].args) && Enabled(At(s, run, k), run[k])
  }

  lemma ShutsTarget(s: System, run: seq<Label>, k: nat)
    requires k < |run| && ShutsAt(s, run, k)
    ensures ShutAt(s, run, k + 1)
  {
    WorldFrame(At(s, run, k), run[k]);
    ShutIsShut(OwnershipAt(s, run, k), run[k].event, run[k].args);
  }

  lemma OnlyLiftsOpen(s: System, run: seq<Label>, k: nat)
    requires k < |run| && ShutAt(s, run, k) && !ShutAt(s, run, k + 1)
    ensures LiftsAt(s, run, k) && !OwnedAt(s, run, k + 1)
  {
    WorldFrame(At(s, run, k), run[k]);
    if Enabled(At(s, run, k), run[k]) && run[k].DoOwnership? {
      ShutStep(OwnershipAt(s, run, k), run[k].event, run[k].args);
      OwnershipLaw(OwnershipAt(s, run, k), run[k].event, run[k].args);
    }
  }

  lemma CallerOwns(s: System, run: seq<Label>, k: nat)
    requires Initial(s) && k < |run| && Called(At(s, run, k), run[k]).Some?
    ensures OwnedAt(s, run, k)
  {
    CallNeedsOwner(s, run, k);
  }

  ghost function NotShut(s: System, run: seq<Label>): nat -> bool { (k: nat) => k <= |run| && !ShutAt(s, run, k) }

  lemma LiftedBetween(s: System, run: seq<Label>, i: nat, j: nat) returns (lift: nat)
    requires i <= j <= |run| && ShutAt(s, run, i) && OwnedAt(s, run, j)
    ensures i <= lift < j && LiftsAt(s, run, lift) && !OwnedAt(s, run, lift + 1)
  {
    lift := Turns(NotShut(s, run), i, j);
    OnlyLiftsOpen(s, run, lift);
  }

  lemma LiftedAndGranted(s: System, run: seq<Label>, i: nat, j: nat) returns (lift: nat, grant: nat)
    requires i < j <= |run| && ShutsAt(s, run, i) && OwnedAt(s, run, j)
    ensures i < lift < grant < j && LiftsAt(s, run, lift) && Grants(s, run, grant)
  {
    ShutsTarget(s, run, i);
    lift := LiftedBetween(s, run, i + 1, j);
    grant := OwnershipIsRegranted(s, run, lift + 1, j);
  }

  /** Once a target has been disabled, replaced or gated, no call goes out until somebody has enabled or resumed it, set
      it, or restarted cleanly, and it has been reconciled after that. */
  lemma NoCallWhileShut(s: System, run: seq<Label>, i: nat, j: nat) returns (lift: nat, grant: nat)
    requires Initial(s) && i < j < |run| && ShutsAt(s, run, i) && Called(At(s, run, j), run[j]).Some?
    ensures i < lift < grant < j && LiftsAt(s, run, lift) && Grants(s, run, grant)
  {
    CallerOwns(s, run, j);
    lift, grant := LiftedAndGranted(s, run, i, j);
  }

  /** A run that starts without ownership makes no call before a RECONCILED has granted it. */
  lemma FirstCallIsReconciled(s: System, run: seq<Label>, k: nat) returns (grant: nat)
    requires Initial(s) && !s.live.ownership.ownership.Owned?
    requires k < |run| && Called(At(s, run, k), run[k]).Some?
    ensures grant < k && Grants(s, run, grant)
  {
    CallerOwns(s, run, k);
    grant := OwnershipIsRegranted(s, run, 0, k);
  }

  ghost predicate GateAt(s: System, run: seq<Label>, k: nat)
    requires k <= |run|
  {
    At(s, run, k).gate
  }

  lemma GateCloses(s: System, run: seq<Label>, k: nat)
    requires Initial(s) && k < |run| && run[k].DoCloseGate?
    ensures !GateAt(s, run, k + 1)
  {
    RunKeeps(s, run, k);
  }

  lemma GateStaysClosed(s: System, run: seq<Label>, i: nat, j: nat)
    requires i <= j <= |run| && !GateAt(s, run, i)
    ensures !GateAt(s, run, j)
  {
    var closed := (t: System) => !t.gate;
    forall t, l | closed(t) ensures closed(Step(t, l)) { WorldFrame(t, l); }
    Throughout(closed, s, run, i, j);
  }

  /** Nothing is sent once the gate is closed, whatever was already on its way. */
  lemma NoCallAfterCloseGate(s: System, run: seq<Label>, i: nat, j: nat)
    requires Initial(s) && i < j < |run| && run[i].DoCloseGate?
    ensures Called(At(s, run, j), run[j]).None?
  {
    GateCloses(s, run, i);
    GateStaysClosed(s, run, i + 1, j);
    if Called(At(s, run, j), run[j]).Some? { CallNeedsOwner(s, run, j); }
  }

  // ---- crashes -----------------------------------------------------------------------------------

  /** The journal starts writing the resolution of c. */
  ghost predicate BeginsResolve(s: System, l: Label, c: Command) {
    Enabled(s, l) && l.JournalBegin? && Resolves(s.store.queue[0], c)
  }

  ghost predicate BeginsAt(s: System, run: seq<Label>, k: nat, c: Command)
    requires k < |run|
  {
    BeginsResolve(At(s, run, k), run[k], c)
  }

  ghost predicate CommitsAt(s: System, run: seq<Label>, k: nat)
    requires k < |run|
  {
    run[k].JournalCommit? && Enabled(At(s, run, k), run[k])
  }

  /** Some snapshot was stored after the journal took up the resolution of c, both between steps i and j. */
  ghost predicate ResolutionStored(s: System, run: seq<Label>, i: nat, j: nat, c: Command)
    requires i <= j <= |run|
  {
    exists a, b :: i <= a < b < j && BeginsAt(s, run, a, c) && CommitsAt(s, run, b)
  }

  lemma StillOpen(s: System, l: Label, c: Command)
    requires Inv(s) && s.open.Some? && s.open.value.command == c
    requires !(s.open.value.begun && Enabled(s, l) && l.JournalCommit?)
    ensures var t := Step(s, l);
      t.open.Some? && t.open.value.command == c
      && (t.open.value.begun ==> s.open.value.begun || BeginsResolve(s, l, c))
  {
    OpenFrame(s, l);
    if Called(s, l).Some? { CallFacts(s, l); }
  }

  ghost predicate CallsAt(s: System, run: seq<Label>, k: nat, c: Command)
    requires k < |run|
  {
    Called(At(s, run, k), run[k]) == Some(c)
  }

  ghost predicate OpenAt(s: System, run: seq<Label>, k: nat, c: Command, begun: bool)
    requires k <= |run|
  {
    At(s, run, k).open == Some(Open(c, begun))
  }

  lemma CallOpens(s: System, run: seq<Label>, k: nat, c: Command)
    requires k < |run| && CallsAt(s, run, k, c)
    ensures OpenAt(s, run, k + 1, c, false)
  {
    OpenFrame(At(s, run, k), run[k]);
  }

  lemma StillOpenAt(s: System, run: seq<Label>, k: nat, c: Command, begun: bool)
    requires Initial(s) && k < |run| && OpenAt(s, run, k, c, begun)
    requires begun ==> !CommitsAt(s, run, k)
    ensures OpenAt(s, run, k + 1, c, false) || OpenAt(s, run, k + 1, c, true)
    ensures OpenAt(s, run, k + 1, c, true) ==> begun || BeginsAt(s, run, k, c)
  {
    RunKeeps(s, run, k);
    StillOpen(At(s, run, k), run[k], c);
  }

  /** Still open, and if the journal has taken the resolution up, it did so since step i. */
  ghost predicate StaysOpen(s: System, run: seq<Label>, i: nat, k: nat, c: Command)
    requires k <= |run|
  {
    OpenAt(s, run, k, c, false) || (OpenAt(s, run, k, c, true) && exists a :: i <= a < k && BeginsAt(s, run, a, c))
  }

  lemma StaysOpenStep(s: System, run: seq<Label>, i: nat, k: nat, j: nat, c: Command)
    requires Initial(s) && i <= k < j <= |run| && StaysOpen(s, run, i, k, c) && !ResolutionStored(s, run, i, j, c)
    ensures StaysOpen(s, run, i, k + 1, c)
  {
    if OpenAt(s, run, k, c, false) {
      StillOpenAt(s, run, k, c, false);
    } else {
      var a :| i <= a < k && BeginsAt(s, run, a, c);
      assert !CommitsAt(s, run, k);
      StillOpenAt(s, run, k, c, true);
    }
  }

  ghost function StayingOpen(s: System, run: seq<Label>, i: nat, c: Command): nat -> bool {
    (k: nat) => k <= |run| && StaysOpen(s, run, i, k, c)
  }

  lemma StayingOpenNext(s: System, run: seq<Label>, i: nat, k: nat, j: nat, c: Command)
    requires Initial(s) && i <= k < j <= |run| && StayingOpen(s, run, i, c)(k) && !ResolutionStored(s, run, i, j, c)
    ensures StayingOpen(s, run, i, c)(k + 1)
  {
    StaysOpenStep(s, run, i, k, j, c);
  }

  lemma CallStaysOpen(s: System, run: seq<Label>, i: nat, j: nat, c: Command)
    requires Initial(s) && i < j <= |run| && CallsAt(s, run, i, c)
    requires !ResolutionStored(s, run, i, j, c)
    ensures OpenAt(s, run, j, c, false) || OpenAt(s, run, j, c, true)
  {
    CallOpens(s, run, i, c);
    var good := StayingOpen(s, run, i, c);
    forall k: nat | i + 1 <= k < j && good(k) ensures good(k + 1) { StayingOpenNext(s, run, i, k, j, c); }
    Chain(good, (k: nat) => 0, i + 1, j);
  }

  /** A crash at any moment from a call until its resolution is stored finds the command in the snapshot, pending
      and dispatched; the restart says so first, keeps no command to replay, and leaves overrides alone. */
  lemma CrashNeverForgetsACall(s: System, run: seq<Label>, i: nat, j: nat, runId: string, configuration: string,
      strategy: string)
    requires Initial(s) && i < j <= |run| && Called(At(s, run, i), run[i]).Some?
    requires !ResolutionStored(s, run, i, j, Called(At(s, run, i), run[i]).value)
    ensures var c := Called(At(s, run, i), run[i]).value;
      var left := At(s, run, j).store.disk;
      var r := Recover(LoadedState(left), runId, configuration, strategy);
      && Holds(left, s.target, Some(Stored(c, true)))
      && r.reasons[0] == UnresolvedCommand
      && (forall t :: t in left.actuators ==>
            && t in r.state.actuators && r.state.actuators[t].pending.None?
            && (left.actuators[t].ownership.ManualOverride? ==>
                  && r.state.actuators[t].ownership.ManualOverride?
                  && r.state.actuators[t].overrideExpiry == left.actuators[t].overrideExpiry))
  {
    var c := Called(At(s, run, i), run[i]).value;
    CallStaysOpen(s, run, i, j, c);
    RunKeeps(s, run, j);
    TargetStays(s, run, j);
    RecoveryLaw(At(s, run, j).store.disk, runId, configuration, strategy);
  }
}
