/** The verified command journal: what one locked write does to memory and to storage, and what a
    restart makes of whatever storage it finds. */
module Journal {
  import opened Contracts
  import opened Ownership
  import Broker

  /** The payload digest is represented by the payload it identifies. */
  datatype StoredCommand = StoredCommand(
    id: string, target: string, payload: Fingerprint, contextId: string,
    entryGeneration: int, inputGeneration: int, capabilityGeneration: int, ownershipRevision: int,
    createdAt: Time, expiresAt: Time, dispatched: bool)

  datatype StoredActuator = StoredActuator(
    ownership: Owner, ownershipRevision: nat, externalRevision: nat,
    overrideReason: Option<OverrideReason>, overrideExpiry: Option<Time>, resumeRequired: bool,
    lastCommandId: Option<string>, lastPayload: Option<Fingerprint>, lastContextId: Option<string>,
    pending: Option<StoredCommand>)

  /** One stored snapshot; actuator identities are unique, so the actuators form a map. */
  datatype ControlState = ControlState(
    generation: nat, runId: string, clean: bool, configuration: string, strategy: string,
    actuators: map<string, StoredActuator>, controlEnabled: bool, boostMode: string,
    lastValid: Option<(string, Time)>, heatGuards: Option<string>, demandStates: Option<string>,
    manualFallbackPending: bool)

  function Stored(c: Broker.Command, dispatched: bool): StoredCommand {
    StoredCommand(c.id, c.intent.target, c.requested, c.contextId, c.intent.entryGeneration,
                  c.intent.inputGeneration, c.intent.capabilityGeneration, c.intent.ownershipRevision,
                  c.registeredAt, c.intent.expiresAt, dispatched)
  }

  /** The journal's writers. A command is persisted, then marked dispatched, then resolved. */
  datatype Write =
    | Persist(command: Broker.Command)
    | Mark(command: Broker.Command)
    | Resolve(command: Broker.Command)
    | UpdateRuntime(controlEnabled: bool, boostMode: string, configuration: string, strategy: string)
    | UpdateLastValid(values: string, at: Time)
    | UpdateHeatGuards(guards: string)
    | UpdateDemandStates(states: string)
    | UpdateManualFallback(pending: bool)
    | UpdateActuator(identity: string, ownership: Owner, ownershipRevision: nat, externalRevision: nat,
                     overrideReason: Option<OverrideReason>, overrideExpiry: Option<Time>, resumeRequired: bool)
    | MarkClean

  predicate IsCommandWrite(w: Write) { w.Persist? || w.Mark? || w.Resolve? }

  predicate IsFor(w: Write, target: string) { IsCommandWrite(w) && w.command.intent.target == target }

  /** The snapshot a write would store; None when it returns without writing. */
  function Candidate(m: ControlState, w: Write): Option<ControlState> {
    var next := m.(generation := m.generation + 1);
    match w
    case Persist(c) => WriteCommand(m, c, Some(Stored(c, false)))
    case Mark(c) => WriteCommand(m, c, Some(Stored(c, true)))
    case Resolve(c) => WriteCommand(m, c, None)
    case UpdateRuntime(enabled, boost, configuration, strategy) =>
      Some(next.(controlEnabled := enabled, boostMode := boost, configuration := configuration, strategy := strategy))
    case UpdateLastValid(values, at) =>
      if m.lastValid.Some? && at < m.lastValid.value.1 then None else Some(next.(lastValid := Some((values, at))))
    case UpdateHeatGuards(guards) => Some(next.(heatGuards := Some(guards)))
    case UpdateDemandStates(states) => Some(next.(demandStates := Some(states)))
    case UpdateManualFallback(pending) => Some(next.(manualFallbackPending := pending))
    case UpdateActuator(identity, owner, revision, external, reason, expiry, resume) =>
      if identity !in m.actuators then None
      else Some(next.(actuators := m.actuators[identity := m.actuators[identity].(
             ownership := owner, ownershipRevision := revision, externalRevision := external,
             overrideReason := reason, overrideExpiry := expiry, resumeRequired := resume)]))
    case MarkClean =>
      if exists t | t in m.actuators :: m.actuators[t].pending.Some? then None else Some(next.(clean := true))
  }

  function WriteCommand(m: ControlState, c: Broker.Command, pending: Option<StoredCommand>): Option<ControlState> {
    if c.intent.target !in m.actuators then None
    else
      var updated := m.actuators[c.intent.target].(
        lastCommandId := Some(c.id), lastPayload := Some(c.requested), lastContextId := Some(c.contextId),
        pending := pending);
      Some(m.(generation := m.generation + 1, actuators := m.actuators[c.intent.target := updated]))
  }

  /** Memory as soon as the writer holds the lock: every writer installs its candidate at once, except
      the demand latch, which waits for verification. */
  function Installed(m: ControlState, w: Write, candidate: ControlState): ControlState {
    if w.UpdateDemandStates? then m else candidate
  }

  predicate Holds(m: ControlState, target: string, p: Option<StoredCommand>) {
    target in m.actuators && m.actuators[target].pending == p
  }

  lemma CommandFrame(m: ControlState, w: Write, target: string)
    requires target in m.actuators && IsCommandWrite(w) && Candidate(m, w).Some?
    ensures var n := Candidate(m, w).value;
      && n.actuators.Keys == m.actuators.Keys && n.generation == m.generation + 1
      && (!IsFor(w, target) ==> Holds(n, target, m.actuators[target].pending))
      && (IsFor(w, target) ==> Holds(n, target, if w.Resolve? then None else Some(Stored(w.command, w.Mark?))))
  {
  }

  lemma OtherFrame(m: ControlState, w: Write, target: string)
    requires target in m.actuators && !IsCommandWrite(w) && Candidate(m, w).Some?
    ensures var n := Candidate(m, w).value;
      && n.actuators.Keys == m.actuators.Keys && n.generation == m.generation + 1
      && Holds(n, target, m.actuators[target].pending)
  {
  }

  /** A write touches the pending command of one target only, and only if it is that target's command write. */
  lemma WriteFrame(m: ControlState, w: Write, target: string)
    requires target in m.actuators && Candidate(m, w).Some?
    ensures var n := Candidate(m, w).value;
      && n.actuators.Keys == m.actuators.Keys && n.generation == m.generation + 1
      && (!IsFor(w, target) ==> Holds(n, target, m.actuators[target].pending))
      && (IsFor(w, target) ==> Holds(n, target, if w.Resolve? then None else Some(Stored(w.command, w.Mark?))))
  {
    if IsCommandWrite(w) { CommandFrame(m, w, target); } else { OtherFrame(m, w, target); }
  }

  /** A command write records the command's identity, setpoint and context for its own target, with the command itself
      while it is pending; it is refused only for a target the record does not hold. */
  lemma CommandWriteExactly(m: ControlState, w: Write)
    requires IsCommandWrite(w)
    ensures var c := w.command;
      var t := c.intent.target;
      && (Candidate(m, w).None? <==> t !in m.actuators)
      && (Candidate(m, w).Some? ==>
            var n := Candidate(m, w).value;
            && n == m.(generation := n.generation, actuators := n.actuators)
            && (forall u :: u in m.actuators && u != t ==> n.actuators[u] == m.actuators[u])
            && n.actuators[t] == m.actuators[t].(pending := n.actuators[t].pending, lastCommandId := Some(c.id),
                                                 lastPayload := Some(c.requested), lastContextId := Some(c.contextId))
            && n.actuators[t].pending == if w.Resolve? then None else Some(Stored(c, w.Mark?)))
  {
  }

  /** Every other writer changes its own part and nothing else. Values are only replaced by ones no older, a target
      only if the record holds it, and a shutdown is clean only when no command is pending. */
  lemma OtherWriteExactly(m: ControlState, w: Write)
    requires !IsCommandWrite(w)
    ensures Candidate(m, w).None? <==>
      || (w.UpdateLastValid? && m.lastValid.Some? && w.at < m.lastValid.value.1)
      || (w.UpdateActuator? && w.identity !in m.actuators)
      || (w.MarkClean? && exists t :: t in m.actuators && m.actuators[t].pending.Some?)
    ensures Candidate(m, w).Some? ==>
      var n := Candidate(m, w).value;
      && n.generation == m.generation + 1 && n.runId == m.runId
      && (n.controlEnabled, n.boostMode, n.configuration, n.strategy)
         == (if w.UpdateRuntime? then (w.controlEnabled, w.boostMode, w.configuration, w.strategy)
             else (m.controlEnabled, m.boostMode, m.configuration, m.strategy))
      && n.lastValid == (if w.UpdateLastValid? then Some((w.values, w.at)) else m.lastValid)
      && n.heatGuards == (if w.UpdateHeatGuards? then Some(w.guards) else m.heatGuards)
      && n.demandStates == (if w.UpdateDemandStates? then Some(w.states) else m.demandStates)
      && n.manualFallbackPending == (if w.UpdateManualFallback? then w.pending else m.manualFallbackPending)
      && n.clean == (w.MarkClean? || m.clean)
      && n.actuators.Keys == m.actuators.Keys
      && forall t :: t in m.actuators ==>
           n.actuators[t] == if w.UpdateActuator? && w.identity == t
                             then m.actuators[t].(ownership := w.ownership, ownershipRevision := w.ownershipRevision,
                                                  externalRevision := w.externalRevision,
                                                  overrideReason := w.overrideReason, overrideExpiry := w.overrideExpiry,
                                                  resumeRequired := w.resumeRequired)
                             else m.actuators[t]
  {
  }

  /** Memory takes every write at once but the demand latch, whose old value it keeps until the new one is verified. */
  lemma LatchWaits(m: ControlState, w: Write)
    requires Candidate(m, w).Some?
    ensures var n := Candidate(m, w).value;
      Installed(m, w, n) == if w.UpdateDemandStates? then m else n
  {
  }

  // ---- restart -----------------------------------------------------------------------------------

  datatype Loaded = LoadedState(state: ControlState) | Missing | Corrupt | UnsupportedVersion

  datatype RecoveryReason =
    | UnresolvedCommand | CommandFaultStored | StoredResumeRequired | WriteFaultCleared
    | LegacyGateCleared | ConfigurationChanged | StrategyChanged | UncleanShutdown | CleanShutdown
    | NewStore | CorruptStore | UnsupportedStore

  datatype Recovery = Recovery(state: ControlState, requiresResume: bool, reasons: seq<RecoveryReason>)

  predicate LegacyGate(a: StoredActuator) {
    a.resumeRequired && a.overrideReason == Some(UncleanRestart) && a.pending.None? && !a.ownership.CommandFault?
  }

  predicate OrdinaryFault(a: StoredActuator) {
    a.ownership.CommandFault? && (a.overrideReason == Some(OutcomeUnknownFault) || a.overrideReason == Some(CoercedFault))
  }

  predicate HardGate(a: StoredActuator) {
    a.resumeRequired && !a.ownership.ManualOverride? && !LegacyGate(a) && !OrdinaryFault(a)
  }

  function When(b: bool, reason: RecoveryReason): (r: seq<RecoveryReason>)
    ensures forall x :: x in r <==> b && x == reason
  {
    if b then [reason] else []
  }

  function Recovered(a: StoredActuator, requiresResume: bool): StoredActuator {
    a.(ownership := if a.ownership.ManualOverride? then ManualOverride else Reconciling,
       resumeRequired := requiresResume && !a.ownership.ManualOverride?,
       overrideReason := if (LegacyGate(a) || OrdinaryFault(a)) && !requiresResume then None else a.overrideReason,
       pending := None)
  }

  /** Everything a start can find in a readable snapshot. */
  datatype Findings = Findings(
    unresolved: bool, fault: bool, resume: bool, ordinary: bool, legacy: bool, changed: bool, restrategized: bool,
    clean: bool)

  predicate Given(x: RecoveryReason, f: Findings) {
    match x
    case UnresolvedCommand => f.unresolved
    case CommandFaultStored => f.fault
    case StoredResumeRequired => f.resume
    case WriteFaultCleared => f.ordinary
    case LegacyGateCleared => f.legacy
    case ConfigurationChanged => f.changed
    case StrategyChanged => f.restrategized
    case UncleanShutdown => !f.clean
    case CleanShutdown => f.clean
    case _ => false
  }

  function LaterReasons(f: Findings): (r: seq<RecoveryReason>)
    ensures forall x :: x in r <==> !x.UnresolvedCommand? && Given(x, f)
  {
    When(f.fault, CommandFaultStored) + When(f.resume, StoredResumeRequired) + When(f.ordinary, WriteFaultCleared)
    + When(f.legacy, LegacyGateCleared) + When(f.changed, ConfigurationChanged)
    + When(f.restrategized, StrategyChanged) + When(!f.clean, UncleanShutdown) + When(f.clean, CleanShutdown)
  }

  /** The reasons in the order they are reported: an open command first. */
  function ReasonsFor(f: Findings): (r: seq<RecoveryReason>)
    ensures (forall x :: x in r <==> Given(x, f)) && r != [] && (r[0] == UnresolvedCommand <==> f.unresolved)
  {
    assert (if f.clean then CleanShutdown else UncleanShutdown) in LaterReasons(f);
    When(f.unresolved, UnresolvedCommand) + LaterReasons(f)
  }

  function Found(p: ControlState, configuration: string, strategy: string): Findings {
    var resume := exists t | t in p.actuators :: HardGate(p.actuators[t]);
    var fault := exists t | t in p.actuators ::
      p.actuators[t].resumeRequired && p.actuators[t].ownership.CommandFault? && !OrdinaryFault(p.actuators[t]);
    Findings(exists t | t in p.actuators :: p.actuators[t].pending.Some?,
             fault, resume && !fault,
             exists t | t in p.actuators :: OrdinaryFault(p.actuators[t]),
             exists t | t in p.actuators :: LegacyGate(p.actuators[t]),
             p.configuration != configuration, p.strategy != strategy, p.clean)
  }

  function Recover(l: Loaded, runId: string, configuration: string, strategy: string): Recovery {
    if !l.LoadedState? then
      Recovery(ControlState(1, runId, false, configuration, strategy, map[], false, "off", None, None, None, false),
               l.Corrupt?, [if l.Corrupt? then CorruptStore else if l.Missing? then NewStore else UnsupportedStore])
    else
      var p := l.state;
      var f := Found(p, configuration, strategy);
      var required := exists t | t in p.actuators :: HardGate(p.actuators[t]);
      var stale := f.changed || f.restrategized;
      Recovery(ControlState(p.generation + 1, runId, false, configuration, strategy,
                            map t | t in p.actuators :: Recovered(p.actuators[t], required),
                            p.controlEnabled, p.boostMode, if stale then None else p.lastValid, p.heatGuards,
                            if stale then None else p.demandStates, p.manualFallbackPending),
               required, ReasonsFor(f))
  }

  lemma RecoveryReportsFirst(p: ControlState, runId: string, configuration: string, strategy: string)
    ensures Recover(LoadedState(p), runId, configuration, strategy).reasons[0] == UnresolvedCommand
        <==> exists t :: t in p.actuators && p.actuators[t].pending.Some?
  {
    var r := Recover(LoadedState(p), runId, configuration, strategy);
    if r.reasons[0] == UnresolvedCommand { assert UnresolvedCommand in r.reasons; }
  }

  /** What a restart makes of one actuator: an override or a target to be reconciled, never an owned one. */
  ghost predicate Carried(before: StoredActuator, after: StoredActuator, requiresResume: bool) {
    && after.pending.None?
    && (after.ownership.ManualOverride? || after.ownership.Reconciling?)
    && after.lastCommandId == before.lastCommandId && after.lastPayload == before.lastPayload
    && after.lastContextId == before.lastContextId
    && after.ownershipRevision == before.ownershipRevision && after.externalRevision == before.externalRevision
    && (after.ownership.ManualOverride? <==> before.ownership.ManualOverride?)
    && after.overrideExpiry == before.overrideExpiry
    && (after.overrideReason.Some? ==> after.overrideReason == before.overrideReason)
    && (after.overrideReason.None? && before.overrideReason.Some? <==>
          !requiresResume
          && if before.ownership.CommandFault? then before.overrideReason in {Some(OutcomeUnknownFault), Some(CoercedFault)}
             else before.resumeRequired && before.overrideReason == Some(UncleanRestart) && before.pending.None?)
    && (after.resumeRequired <==> requiresResume && !before.ownership.ManualOverride?)
  }

  lemma RecoveredIsCarried(a: StoredActuator, requiresResume: bool)
    ensures Carried(a, Recovered(a, requiresResume), requiresResume)
  {
  }

  /** The zone's own settings outlive a restart; what was calculated under another configuration or strategy does not. */
  ghost predicate ZoneCarried(p: ControlState, q: ControlState) {
    && q.controlEnabled == p.controlEnabled && q.boostMode == p.boostMode && q.heatGuards == p.heatGuards
    && q.manualFallbackPending == p.manualFallbackPending
    && (p.configuration == q.configuration && p.strategy == q.strategy ==>
          q.lastValid == p.lastValid && q.demandStates == p.demandStates)
    && (p.configuration != q.configuration || p.strategy != q.strategy ==> q.lastValid.None? && q.demandStates.None?)
  }

  /** A stored gate asks for a resume unless it is an old restart's own mark, with nothing left pending, or belongs to
      an ordinary write fault, or to an overridden target. */
  ghost predicate AsksForResume(a: StoredActuator) {
    && a.resumeRequired && !a.ownership.ManualOverride?
    && if a.ownership.CommandFault? then a.overrideReason !in {Some(OutcomeUnknownFault), Some(CoercedFault)}
       else a.overrideReason == Some(UncleanRestart) ==> a.pending.Some?
  }

  /** What a restart promises of any readable snapshot: it says first whether a command was left open, keeps no
      command to replay and nothing owned, keeps every manual override with its expiry and revisions, asks for a
      resume exactly when some stored gate does, and then only of targets that are not manually overridden. */
  lemma RecoveryLaw(p: ControlState, runId: string, configuration: string, strategy: string)
    ensures var r := Recover(LoadedState(p), runId, configuration, strategy);
      && (r.reasons[0] == UnresolvedCommand <==> exists t :: t in p.actuators && p.actuators[t].pending.Some?)
      && r.state.actuators.Keys == p.actuators.Keys
      && !r.state.clean && r.state.runId == runId && r.state.generation > p.generation
      && r.state.configuration == configuration && r.state.strategy == strategy && ZoneCarried(p, r.state)
      && (r.requiresResume <==> exists t :: t in p.actuators && AsksForResume(p.actuators[t]))
      && forall t :: t in p.actuators ==> Carried(p.actuators[t], r.state.actuators[t], r.requiresResume)
  {
    RecoveryReportsFirst(p, runId, configuration, strategy);
    GatesAsk(p, runId, configuration, strategy);
    forall t | t in p.actuators
      ensures Carried(p.actuators[t], Recover(LoadedState(p), runId, configuration, strategy).state.actuators[t],
                      Recover(LoadedState(p), runId, configuration, strategy).requiresResume)
    {
      RecoveredIsCarried(p.actuators[t], Recover(LoadedState(p), runId, configuration, strategy).requiresResume);
    }
  }

  lemma GatesAsk(p: ControlState, runId: string, configuration: string, strategy: string)
    ensures Recover(LoadedState(p), runId, configuration, strategy).requiresResume
        <==> exists t :: t in p.actuators && AsksForResume(p.actuators[t])
  {
    if t :| t in p.actuators && AsksForResume(p.actuators[t]) { assert HardGate(p.actuators[t]); }
    if t :| t in p.actuators && HardGate(p.actuators[t]) { assert AsksForResume(p.actuators[t]); }
  }

  predicate StoredWriteFault(a: StoredActuator) {
    a.ownership.CommandFault? && a.overrideReason in {Some(OutcomeUnknownFault), Some(CoercedFault)}
  }

  predicate OldRestartGate(a: StoredActuator) {
    a.resumeRequired && a.overrideReason == Some(UncleanRestart) && a.pending.None? && !a.ownership.CommandFault?
  }

  ghost predicate SomeGate(p: ControlState, fault: bool) {
    exists t :: t in p.actuators && AsksForResume(p.actuators[t]) && (fault ==> p.actuators[t].ownership.CommandFault?)
  }

  ghost predicate SomeWriteFault(p: ControlState) { exists t :: t in p.actuators && StoredWriteFault(p.actuators[t]) }

  ghost predicate SomeOldGate(p: ControlState) { exists t :: t in p.actuators && OldRestartGate(p.actuators[t]) }

  lemma ReasonsAreFound(p: ControlState, runId: string, configuration: string, strategy: string)
    ensures Recover(LoadedState(p), runId, configuration, strategy).reasons == ReasonsFor(Found(p, configuration, strategy))
  {
  }

  lemma GivenReasons(f: Findings)
    ensures var r := ReasonsFor(f);
      && (CommandFaultStored in r <==> f.fault) && (StoredResumeRequired in r <==> f.resume)
      && (WriteFaultCleared in r <==> f.ordinary) && (LegacyGateCleared in r <==> f.legacy)
      && (ConfigurationChanged in r <==> f.changed) && (StrategyChanged in r <==> f.restrategized)
      && (CleanShutdown in r <==> f.clean) && (UncleanShutdown in r <==> !f.clean)
  {
  }

  lemma FaultsFound(p: ControlState, configuration: string, strategy: string)
    ensures Found(p, configuration, strategy).fault <==> SomeGate(p, true)
    ensures Found(p, configuration, strategy).resume <==> SomeGate(p, false) && !SomeGate(p, true)
  {
    forall t | t in p.actuators
      ensures AsksForResume(p.actuators[t]) <==> HardGate(p.actuators[t])
    {
    }
  }

  lemma ClearedFound(p: ControlState, configuration: string, strategy: string)
    ensures Found(p, configuration, strategy).ordinary <==> SomeWriteFault(p)
    ensures Found(p, configuration, strategy).legacy <==> SomeOldGate(p)
  {
    forall t | t in p.actuators
      ensures StoredWriteFault(p.actuators[t]) <==> OrdinaryFault(p.actuators[t])
      ensures OldRestartGate(p.actuators[t]) <==> LegacyGate(p.actuators[t])
    {
    }
  }

  /** Every other reason is given exactly when there is one, and the list says whether the last shutdown was clean. */
  lemma RecoveryReasons(p: ControlState, runId: string, configuration: string, strategy: string)
    ensures var r := Recover(LoadedState(p), runId, configuration, strategy).reasons;
      && (CommandFaultStored in r <==> SomeGate(p, true))
      && (StoredResumeRequired in r <==> SomeGate(p, false) && !SomeGate(p, true))
      && (WriteFaultCleared in r <==> SomeWriteFault(p))
      && (LegacyGateCleared in r <==> SomeOldGate(p))
      && (ConfigurationChanged in r <==> p.configuration != configuration)
      && (StrategyChanged in r <==> p.strategy != strategy)
      && (CleanShutdown in r <==> p.clean) && (UncleanShutdown in r <==> !p.clean)
  {
    ReasonsAreFound(p, runId, configuration, strategy);
    GivenReasons(Found(p, configuration, strategy));
    FaultsFound(p, configuration, strategy);
    ClearedFound(p, configuration, strategy);
  }

  /** Without a readable snapshot a start is empty and disabled, and asks for a resume exactly when the store is
      corrupt. */
  lemma UnreadableIsEmpty(l: Loaded, runId: string, configuration: string, strategy: string)
    requires !l.LoadedState?
    ensures var r := Recover(l, runId, configuration, strategy);
      && r.state == ControlState(1, runId, false, configuration, strategy, map[], false, "off", None, None, None, false)
      && (r.requiresResume <==> l.Corrupt?) && |r.reasons| == 1
      && (r.reasons[0] == CorruptStore <==> l.Corrupt?) && (r.reasons[0] == NewStore <==> l.Missing?)
  {
  }

  /** Recovery applied to its own record, with nothing written in between: the resume gate survives exactly when some
      target that is not overridden carries a reason other than the legacy restart marker. When every gated target
      carries that marker, the second recovery mistakes the gate for the legacy one and opens it. */
  lemma SecondRestart(p: ControlState, runId: string, again: string, configuration: string, strategy: string)
    requires Recover(LoadedState(p), runId, configuration, strategy).requiresResume
    ensures var first := Recover(LoadedState(p), runId, configuration, strategy);
      Recover(LoadedState(first.state), again, configuration, strategy).requiresResume
      <==> exists t :: t in p.actuators && !p.actuators[t].ownership.ManualOverride?
                       && p.actuators[t].overrideReason != Some(UncleanRestart)
  {
    var q := Recover(LoadedState(p), runId, configuration, strategy).state;
    forall t | t in p.actuators
      ensures HardGate(q.actuators[t]) <==>
        !p.actuators[t].ownership.ManualOverride? && p.actuators[t].overrideReason != Some(UncleanRestart)
    {
      assert q.actuators[t] == Recovered(p.actuators[t], true);
    }
    if t :| t in p.actuators && !p.actuators[t].ownership.ManualOverride?
            && p.actuators[t].overrideReason != Some(UncleanRestart) {
      assert HardGate(q.actuators[t]);
    }
  }

  /** The gate can indeed be lost: a target whose command was open when an unclean restart gate was stored. */
  lemma SecondRestartCanLoseTheGate(c: StoredCommand, p: ControlState)
    requires c.target == "t"
    requires p.actuators == map["t" := StoredActuator(Reconciling, 0, 0, Some(UncleanRestart), None, true,
                                                      None, None, None, Some(c))]
    ensures var first := Recover(LoadedState(p), "a", p.configuration, p.strategy);
      first.requiresResume
      && !Recover(LoadedState(first.state), "b", p.configuration, p.strategy).requiresResume
  {
    assert "t" in p.actuators && HardGate(p.actuators["t"]);
    SecondRestart(p, "a", "b", p.configuration, p.strategy);
  }
}
