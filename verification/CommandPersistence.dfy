/** The verified store and the zone's command journal, updating their state in place. The backend decides
    whether a save reaches storage and whether saving or reading back fails; it never tears a write. */
module CommandPersistence {
  import opened Contracts
  import opened Ownership
  import opened Journal

  /** What the backend does with one write. */
  datatype Fate = Fate(stored: bool, saveFails: bool, readFails: bool)

  class VerifiedStore {
    var disk: Loaded

    constructor (found: Loaded)
      ensures disk == found
    {
      disk := found;
    }

    /** Verified exactly when both operations succeed and storage then holds the very snapshot. */
    method WriteCritical(state: ControlState, fate: Fate) returns (verified: bool)
      modifies this
      ensures disk == if fate.stored then LoadedState(state) else old(disk)
      ensures verified <==> !fate.saveFails && !fate.readFails && disk == LoadedState(state)
    {
      if fate.stored { disk := LoadedState(state); }
      if fate.saveFails || fate.readFails { return false; }
      var actual := disk;
      if !actual.LoadedState? || actual.state.generation != state.generation { return false; }
      verified := actual.state == state;
    }
  }

  /** A configured target's entry after a start: what was recovered, or a new one awaiting reconciliation. */
  function EntryOf(r: Recovery, t: string): StoredActuator {
    if t in r.state.actuators then r.state.actuators[t]
    else StoredActuator(Reconciling, 0, 0, None, None, r.requiresResume, None, None, None, None)
  }

  /** The unclean record a start writes: every configured target and no other, nothing pending. */
  function Started(found: Loaded, runId: string, configuration: string, strategy: string, targets: set<string>,
                   controlEnabled: bool, boostMode: string): ControlState
  {
    var r := Recover(found, runId, configuration, strategy);
    r.state.(actuators := map t | t in targets :: EntryOf(r, t), controlEnabled := controlEnabled, boostMode := boostMode)
  }

  /** The record a start writes holds exactly the configured targets: nothing owned, nothing pending, an override
      exactly where one was stored, and a gate on every other one exactly when the recovery asks for a resume. */
  lemma StartedLaw(found: Loaded, runId: string, configuration: string, strategy: string, targets: set<string>,
                   controlEnabled: bool, boostMode: string)
    ensures var m := Started(found, runId, configuration, strategy, targets, controlEnabled, boostMode);
      var resume := Recover(found, runId, configuration, strategy).requiresResume;
      && m.actuators.Keys == targets && m.controlEnabled == controlEnabled && m.boostMode == boostMode
      && !m.clean && m.runId == runId && m.configuration == configuration && m.strategy == strategy
      && forall t :: t in targets ==> (
           var a := m.actuators[t];
           var stored := found.LoadedState? && t in found.state.actuators;
           && a.pending.None? && (a.ownership.Reconciling? || a.ownership.ManualOverride?)
           && (a.ownership.ManualOverride? <==> stored && found.state.actuators[t].ownership.ManualOverride?)
           && (a.resumeRequired <==> resume && !a.ownership.ManualOverride?)
           && (stored ==> a.ownershipRevision == found.state.actuators[t].ownershipRevision
                          && a.externalRevision == found.state.actuators[t].externalRevision
                          && a.overrideExpiry == found.state.actuators[t].overrideExpiry))
  {
    if found.LoadedState? { RecoveryLaw(found.state, runId, configuration, strategy); }
  }

  class ZoneJournal {
    const store: VerifiedStore
    var state: Option<ControlState>
    var requiresResume: bool

    constructor (store: VerifiedStore)
      ensures this.store == store && state.None? && !requiresResume
    {
      this.store := store;
      state := None;
      requiresResume := false;
    }

    /** One locked write: memory takes the candidate at once, the demand latch only when it is verified. */
    method Perform(w: Write, fate: Fate) returns (verified: bool)
      modifies this`state, store
      ensures old(state).None? ==> !verified && state.None? && store.disk == old(store.disk)
      ensures old(state).Some? && Candidate(old(state).value, w).None? ==>
        state == old(state) && store.disk == old(store.disk) && (verified <==> w.UpdateLastValid?)
      ensures old(state).Some? && Candidate(old(state).value, w).Some? ==>
        var candidate := Candidate(old(state).value, w).value;
        && store.disk == (if fate.stored then LoadedState(candidate) else old(store.disk))
        && (verified <==> !fate.saveFails && !fate.readFails && store.disk == LoadedState(candidate))
        && state == Some(if verified then candidate else Installed(old(state).value, w, candidate))
    {
      if state.None? { return false; }
      var candidate := Candidate(state.value, w);
      if candidate.None? { return w.UpdateLastValid?; }
      if w.UpdateDemandStates? {
        verified := store.WriteCritical(candidate.value, fate);
        if verified { state := candidate; }
      } else {
        state := candidate;
        verified := store.WriteCritical(candidate.value, fate);
      }
    }

    /** A start never replays: it recovers what storage holds, gives every configured target an entry, and
        writes the unclean record of this run. */
    method Start(runId: string, configuration: string, strategy: string, targets: set<string>,
                 controlEnabled: bool, boostMode: string, fate: Fate) returns (verified: bool)
      modifies this, store
      ensures var r := Recover(old(store.disk), runId, configuration, strategy);
        && requiresResume == r.requiresResume
        && state == Some(Started(old(store.disk), runId, configuration, strategy, targets, controlEnabled, boostMode))
        && state.value.actuators.Keys == targets && !state.value.clean
      ensures forall t :: t in targets ==> state.value.actuators[t].pending.None?
      ensures verified ==> store.disk == LoadedState(state.value)
    {
      var r := Recover(store.disk, runId, configuration, strategy);
      var entries := map t | t in targets :: EntryOf(r, t);
      state := Some(r.state.(actuators := entries, controlEnabled := controlEnabled, boostMode := boostMode));
      requiresResume := r.requiresResume;
      verified := store.WriteCritical(state.value, fate);
    }
  }
}
