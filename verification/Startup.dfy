/** What a start announces after its record is written, and what a second start finds when the first was cut short.
    The announcements are ownership events, persisted one after another behind the journal's lock. */
module Startup {
  import opened Contracts
  import opened Ownership
  import opened Journal
  import opened CommandPersistence
  import BrokerSystem
  import DispatchSafety

  const UNKNOWN := OwnershipState(Disabled, DataInvalid, Unavailable, 0, 0, None, None, false)

  function At(now: Time, reason: Option<OverrideReason>): EventArgs {
    EventArgs(now, None, None, false, None, None, reason)
  }

  /** A stored override is put back, then asked whether it has expired. */
  function Restored(enabled: OwnershipState, a: StoredActuator): OwnershipState {
    enabled.(ownership := ManualOverride, revision := a.ownershipRevision, externalRevision := a.externalRevision,
             overrideReason := a.overrideReason, overrideExpiry := a.overrideExpiry, resumeRequired := false)
  }

  function Settled(a: StoredActuator, now: Time): seq<OwnershipState> {
    var enabled := Reduce(UNKNOWN, Enable, At(now, None));
    if a.ownership.ManualOverride? then
      [enabled, Reduce(Restored(enabled, a), OverrideExpired, At(now, None))]
    else
      [enabled]
  }

  /** The states one target is persisted with, in order: enabled, its override, and the gate last. A zone whose
      control is off announces nothing. */
  function Announced(a: StoredActuator, controlEnabled: bool, requiresResume: bool, now: Time): seq<OwnershipState> {
    if !controlEnabled then []
    else
      var settled := Settled(a, now);
      var last := settled[|settled| - 1];
      if requiresResume && !last.ownership.ManualOverride?
      then settled + [Reduce(last, UncleanRestartEvent, At(now, Some(StartupReported)))]
      else settled
  }

  predicate StillOverridden(a: StoredActuator, now: Time) {
    a.ownership.ManualOverride? && (a.overrideExpiry.None? || now < a.overrideExpiry.value)
  }

  /** What a start announces of a target: enabled and to be reconciled; then its override as it was stored, or that it
      has expired; and last the gate, for the start's own reason, unless it is still overridden. Nothing at all for a
      zone whose control is off. */
  lemma AnnouncesExactly(a: StoredActuator, controlEnabled: bool, requiresResume: bool, now: Time)
    ensures var hs := Announced(a, controlEnabled, requiresResume, now);
      && |hs| == (if !controlEnabled then 0
                  else 1 + (if a.ownership.ManualOverride? then 1 else 0)
                       + (if requiresResume && !StillOverridden(a, now) then 1 else 0))
      && (controlEnabled ==> hs[0].ownership.Reconciling? && hs[0].overrideReason.None? && !hs[0].resumeRequired)
      && (controlEnabled && a.ownership.ManualOverride? ==>
            && hs[1].externalRevision == a.externalRevision && !hs[1].resumeRequired
            && if StillOverridden(a, now) then
                 && hs[1].ownership.ManualOverride? && hs[1].overrideReason == a.overrideReason
                 && hs[1].overrideExpiry == a.overrideExpiry && hs[1].revision == a.ownershipRevision
               else
                 hs[1].ownership.Reconciling? && hs[1].overrideReason.None? && hs[1].revision == a.ownershipRevision + 1)
      && (controlEnabled && requiresResume && !StillOverridden(a, now) ==>
            var gate := hs[|hs| - 1];
            gate.ownership.Reconciling? && gate.resumeRequired && gate.overrideReason == Some(StartupReported))
  {
  }

  function Persisted(target: string, o: OwnershipState): Write {
    UpdateActuator(
      target, o.ownership, o.revision, o.externalRevision, o.overrideReason, o.overrideExpiry, o.resumeRequired)
  }

  function Updated(a: StoredActuator, o: OwnershipState): StoredActuator {
    a.(ownership := o.ownership, ownershipRevision := o.revision, externalRevision := o.externalRevision,
       overrideReason := o.overrideReason, overrideExpiry := o.overrideExpiry, resumeRequired := o.resumeRequired)
  }

  /** One start: what it found, its configuration, and when it ran. */
  datatype Run = Run(
    found: Loaded, runId: string, configuration: string, strategy: string, targets: set<string>, controlEnabled: bool,
    boostMode: string, now: Time)

  function Recovers(r: Run): Recovery { Recover(r.found, r.runId, r.configuration, r.strategy) }

  function Record(r: Run): ControlState {
    Started(r.found, r.runId, r.configuration, r.strategy, r.targets, r.controlEnabled, r.boostMode)
  }

  function Announcements(r: Run, t: string): seq<OwnershipState> {
    Announced(EntryOf(Recovers(r), t), r.controlEnabled, Recovers(r).requiresResume, r.now)
  }

  /** How many announcements of each target had reached storage when the run was cut short. */
  ghost predicate Landed(r: Run, landed: map<string, nat>) {
    landed.Keys == r.targets && forall t :: t in r.targets ==> landed[t] <= |Announcements(r, t)|
  }

  /** A target's entry once its first n announcements have landed. */
  function Reached(r: Run, t: string, n: nat): StoredActuator {
    if 0 < n <= |Announcements(r, t)| then Updated(EntryOf(Recovers(r), t), Announcements(r, t)[n - 1])
    else EntryOf(Recovers(r), t)
  }

  function Reaching(r: Run): (string, nat) -> StoredActuator { (t: string, n: nat) => Reached(r, t, n) }

  ghost predicate AllReached(
    m: map<string, StoredActuator>, reached: (string, nat) -> StoredActuator, landed: map<string, nat>)
  {
    m.Keys == landed.Keys && forall t :: t in landed ==> m[t] == reached(t, landed[t])
  }

  ghost predicate IsLeft(m: ControlState, r: Run, landed: map<string, nat>) {
    AllReached(m.actuators, Reaching(r), landed)
  }

  /** The start's own record is what is left before any announcement lands. */
  lemma RecordIsLeft(r: Run)
    ensures var none := map t | t in r.targets :: 0;
      Landed(r, none) && IsLeft(Record(r), r, none)
  {
  }

  lemma UpdateLands(m: ControlState, t: string, o: OwnershipState)
    requires t in m.actuators
    ensures Candidate(m, Persisted(t, o)).Some?
    ensures Candidate(m, Persisted(t, o)).value.actuators == m.actuators[t := Updated(m.actuators[t], o)]
  {
  }

  lemma NextIsReached(r: Run, t: string, n: nat)
    requires n < |Announcements(r, t)|
    ensures Updated(Reached(r, t, n), Announcements(r, t)[n]) == Reached(r, t, n + 1)
  {
  }

  lemma OneMoreLands(r: Run, landed: map<string, nat>, t: string)
    requires Landed(r, landed) && t in r.targets && landed[t] < |Announcements(r, t)|
    ensures Landed(r, landed[t := landed[t] + 1])
  {
  }

  lemma OneFurther(
      m: map<string, StoredActuator>, reached: (string, nat) -> StoredActuator, landed: map<string, nat>, t: string)
    requires AllReached(m, reached, landed) && t in landed
    ensures AllReached(m[t := reached(t, landed[t] + 1)], reached, landed[t := landed[t] + 1])
  {
  }

  /** Persisting a target's next announcement takes the journal from one such snapshot to the next. */
  lemma NextLands(r: Run, landed: map<string, nat>, m: ControlState, t: string)
    requires Landed(r, landed) && IsLeft(m, r, landed) && t in r.targets && landed[t] < |Announcements(r, t)|
    ensures var w := Persisted(t, Announcements(r, t)[landed[t]]);
      && Candidate(m, w).Some? && Landed(r, landed[t := landed[t] + 1])
      && IsLeft(Candidate(m, w).value, r, landed[t := landed[t] + 1])
  {
    var o := Announcements(r, t)[landed[t]];
    UpdateLands(m, t, o);
    NextIsReached(r, t, landed[t]);
    OneMoreLands(r, landed, t);
    OneFurther(m.actuators, Reaching(r), landed, t);
  }

  /** No start announces a target as owned: whatever was stored, the first RECONCILED decides. */
  lemma NothingIsAnnouncedOwned(r: Run, t: string, n: nat)
    requires n < |Announcements(r, t)|
    ensures !UNKNOWN.ownership.Owned? && !Announcements(r, t)[n].ownership.Owned?
    ensures !EntryOf(Recovers(r), t).ownership.Owned?
  {
    EntryIsNotOwned(r, t);
    AnnouncedIsNotOwned(EntryOf(Recovers(r), t), r.controlEnabled, Recovers(r).requiresResume, r.now, n);
  }

  lemma EntryIsNotOwned(r: Run, t: string)
    ensures !EntryOf(Recovers(r), t).ownership.Owned?
  {
  }

  lemma AnnouncedIsNotOwned(a: StoredActuator, controlEnabled: bool, requiresResume: bool, now: Time, n: nat)
    requires n < |Announced(a, controlEnabled, requiresResume, now)|
    ensures !Announced(a, controlEnabled, requiresResume, now)[n].ownership.Owned?
  {
  }

  /** So between any restart and its first call lies a granting RECONCILED, wherever in its start the run begins. */
  lemma RestartIsReconciled(r: Run, t: string, n: nat, s: BrokerSystem.System, run: seq<BrokerSystem.Label>, k: nat)
      returns (grant: nat)
    requires n < |Announcements(r, t)| && BrokerSystem.Initial(s) && s.live.ownership == Announcements(r, t)[n]
    requires k < |run| && BrokerSystem.Called(BrokerSystem.At(s, run, k), run[k]).Some?
    ensures grant < k && DispatchSafety.Grants(s, run, grant)
  {
    NothingIsAnnouncedOwned(r, t, n);
    grant := DispatchSafety.FirstCallIsReconciled(s, run, k);
  }

  /** The target still holds the gate: nothing of this run has touched it and it does not carry the legacy marker, or
      its last announcement, the gate itself, has landed. */
  predicate Holds(r: Run, t: string, n: nat)
    requires n <= |Announcements(r, t)|
  {
    var entry := EntryOf(Recovers(r), t);
    if n == 0 then !entry.ownership.ManualOverride? && entry.overrideReason != Some(UncleanRestart)
    else n == |Announcements(r, t)| && !Announcements(r, t)[n - 1].ownership.ManualOverride?
  }

  /** A recovered or fresh entry, of a start that asks for a resume. */
  predicate Gated(a: StoredActuator) {
    && (a.ownership.ManualOverride? || a.ownership.Reconciling?) && a.pending.None?
    && (a.resumeRequired <==> !a.ownership.ManualOverride?)
  }

  lemma EntryIsGated(r: Run, t: string)
    requires Recovers(r).requiresResume
    ensures Gated(EntryOf(Recovers(r), t))
  {
  }

  lemma AnnouncedIsHardGate(a: StoredActuator, controlEnabled: bool, now: Time, n: nat)
    requires Gated(a) && n < |Announced(a, controlEnabled, true, now)|
    ensures var hs := Announced(a, controlEnabled, true, now);
      HardGate(Updated(a, hs[n])) <==> n == |hs| - 1 && !hs[n].ownership.ManualOverride?
  {
  }

  lemma HoldsIsHardGate(r: Run, t: string, n: nat)
    requires Recovers(r).requiresResume && n <= |Announcements(r, t)|
    ensures HardGate(Reached(r, t, n)) <==> Holds(r, t, n)
  {
    EntryIsGated(r, t);
    if n > 0 { AnnouncedIsHardGate(EntryOf(Recovers(r), t), r.controlEnabled, r.now, n - 1); }
  }

  /** Main result. A start that asked for a resume is cut short: the next start asks for one again exactly when some
      configured target still holds the gate. Between a target's first announcement and its last nothing holds it. */
  lemma GateSurvivesExactly(r: Run, landed: map<string, nat>, left: ControlState, runId: string)
    requires Recovers(r).requiresResume && Landed(r, landed) && IsLeft(left, r, landed)
    ensures Recover(LoadedState(left), runId, r.configuration, r.strategy).requiresResume
        <==> exists t :: t in r.targets && Holds(r, t, landed[t])
  {
    forall t | t in r.targets ensures HardGate(left.actuators[t]) <==> Holds(r, t, landed[t]) {
      HoldsIsHardGate(r, t, landed[t]);
    }
    if t :| t in r.targets && Holds(r, t, landed[t]) { assert HardGate(left.actuators[t]); }
  }

  lemma LastIsTheGate(r: Run, t: string)
    requires Recovers(r).requiresResume && r.controlEnabled && !EntryOf(Recovers(r), t).ownership.ManualOverride?
    ensures |Announcements(r, t)| == 2 && Holds(r, t, 2)
  {
  }

  /** Once everything announced has landed, the gate survives as long as one target is not overridden. */
  lemma SettledGateSurvives(r: Run, landed: map<string, nat>, left: ControlState, runId: string, t: string)
    requires Recovers(r).requiresResume && Landed(r, landed) && IsLeft(left, r, landed) && r.controlEnabled
    requires t in r.targets && landed[t] == |Announcements(r, t)| && !EntryOf(Recovers(r), t).ownership.ManualOverride?
    ensures Recover(LoadedState(left), runId, r.configuration, r.strategy).requiresResume
  {
    GateSurvivesExactly(r, landed, left, runId);
    LastIsTheGate(r, t);
  }

  /** A start on a corrupt store, with one target. */
  predicate StartsCorrupt(r: Run) { r.found.Corrupt? && r.targets == {"t"} && r.controlEnabled }

  lemma CorruptIsGated(r: Run)
    requires StartsCorrupt(r)
    ensures Recovers(r).requiresResume && |Announcements(r, "t")| == 2 && HardGate(Record(r).actuators["t"])
  {
  }

  lemma FirstWriteLands(r: Run) returns (left: ControlState)
    requires StartsCorrupt(r) && |Announcements(r, "t")| == 2
    ensures Candidate(Record(r), Persisted("t", Announcements(r, "t")[0])) == Some(left)
    ensures Landed(r, map["t" := 1]) && IsLeft(left, r, map["t" := 1])
  {
    var none := map["t" := 0];
    assert none == map t | t in r.targets :: 0;
    RecordIsLeft(r);
    NextLands(r, none, Record(r), "t");
    assert none["t" := 1] == map["t" := 1];
    left := Candidate(Record(r), Persisted("t", Announcements(r, "t")[0])).value;
  }

  /** The loss needs no legacy entry: a start on a corrupt store gates its one fresh target, and what its first write
      leaves no longer does. */
  lemma GateIsLostInBetween(r: Run, runId: string) returns (left: ControlState)
    requires StartsCorrupt(r)
    ensures Recovers(r).requiresResume && |Announcements(r, "t")| == 2 && HardGate(Record(r).actuators["t"])
    ensures Candidate(Record(r), Persisted("t", Announcements(r, "t")[0])) == Some(left)
    ensures !Recover(LoadedState(left), runId, r.configuration, r.strategy).requiresResume
  {
    CorruptIsGated(r);
    left := FirstWriteLands(r);
    GateSurvivesExactly(r, map["t" := 1], left, runId);
  }

  lemma AnnouncedOverride(a: StoredActuator, controlEnabled: bool, requiresResume: bool, now: Time, n: nat)
    requires a.ownership.ManualOverride? && n < |Announced(a, controlEnabled, requiresResume, now)|
    ensures var o := Announced(a, controlEnabled, requiresResume, now)[n];
      && (o.ownership.ManualOverride? <==> n >= 1 && StillOverridden(a, now))
      && (o.ownership.ManualOverride? ==> o.overrideExpiry == a.overrideExpiry)
  {
  }

  lemma ReachedOverride(r: Run, t: string, n: nat)
    requires n <= |Announcements(r, t)| && EntryOf(Recovers(r), t).ownership.ManualOverride?
    ensures var entry := EntryOf(Recovers(r), t);
      var kept := n == 0 || (n >= 2 && (entry.overrideExpiry.None? || r.now < entry.overrideExpiry.value));
      && (Reached(r, t, n).ownership.ManualOverride? <==> kept)
      && (kept ==> Reached(r, t, n).overrideExpiry == entry.overrideExpiry)
  {
    if n > 0 {
      AnnouncedOverride(EntryOf(Recovers(r), t), r.controlEnabled, Recovers(r).requiresResume, r.now, n - 1);
    }
  }

  /** An override meets the same window: a start that was cut short leaves the next one an override of the same expiry
      exactly when nothing of it had been announced, or it was announced itself and had not expired. */
  lemma OverrideSurvivesExactly(r: Run, landed: map<string, nat>, left: ControlState, runId: string, t: string)
    requires Landed(r, landed) && IsLeft(left, r, landed) && t in r.targets
    requires EntryOf(Recovers(r), t).ownership.ManualOverride?
    ensures var entry := EntryOf(Recovers(r), t);
      var next := Recover(LoadedState(left), runId, r.configuration, r.strategy).state.actuators;
      && t in next
      && (next[t].ownership.ManualOverride? && next[t].overrideExpiry == entry.overrideExpiry
          <==> landed[t] == 0
               || (landed[t] >= 2 && (entry.overrideExpiry.None? || r.now < entry.overrideExpiry.value)))
  {
    ReachedOverride(r, t, landed[t]);
    RecoveryLaw(left, runId, r.configuration, r.strategy);
    assert left.actuators[t] == Reached(r, t, landed[t]);
  }
}
