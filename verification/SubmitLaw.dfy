/** What a submit is answered, said of the intent, the record and the device rather than of the order the checks come
    in. */
module SubmitLaw {
  import opened Contracts
  import opened Ownership
  import opened Broker

  // ---- what the broker expects to see --------------------------------------------------------------

  /** A setpoint the broker would not be surprised to see: its baseline, the acknowledged one, or one of an uncertain
      command from the same ownership, external revision and capability. */
  ghost predicate Expects(s: State, i: Intent, f: Fingerprint) {
    || s.baseline == Some(f)
    || (s.acknowledged.Some? && s.acknowledged.value.fingerprint == f)
    || exists c :: c in s.uncertain && c.requested == f && c.intent.ownershipRevision == i.ownershipRevision
                   && c.intent.externalRevision == i.externalRevision
                   && c.intent.capabilityGeneration == i.capabilityGeneration
  }

  ghost predicate Surprised(s: State, i: Intent, f: Fingerprint) {
    && (exists g :: Expects(s, i, g))
    && forall g :: Expects(s, i, g) ==> !TargetMatches(g, f, Min(i.step / 4.0, i.resolution))
  }

  /** The device shows what nobody here asked for. */
  ghost predicate Foreign(s: State, i: Intent, observed: Option<Fingerprint>) {
    observed.Some? && Surprised(s, i, observed.value)
  }

  lemma ExplainedExpects(s: State, i: Intent, f: Fingerprint)
    ensures Explained(s, i, f)
        <==> exists g :: Expects(s, i, g) && TargetMatches(g, f, Min(i.step / 4.0, i.resolution))
  {
    var t := Min(i.step / 4.0, i.resolution);
    if Explained(s, i, f) {
      if s.baseline.Some? && TargetMatches(s.baseline.value, f, t) { assert Expects(s, i, s.baseline.value); }
      else if s.acknowledged.Some? && TargetMatches(s.acknowledged.value.fingerprint, f, t) {
        assert Expects(s, i, s.acknowledged.value.fingerprint);
      } else {
        var k :| 0 <= k < |s.uncertain| && SameEra(s.uncertain[k], i) && TargetMatches(s.uncertain[k].requested, f, t);
        assert Expects(s, i, s.uncertain[k].requested);
      }
    }
  }

  lemma SomethingExpected(s: State, i: Intent)
    ensures (s.baseline.Some? || s.acknowledged.Some? || exists k | 0 <= k < |s.uncertain| :: SameEra(s.uncertain[k], i))
        <==> exists g :: Expects(s, i, g)
  {
    if s.baseline.Some? { assert Expects(s, i, s.baseline.value); }
    if s.acknowledged.Some? { assert Expects(s, i, s.acknowledged.value.fingerprint); }
    if k :| 0 <= k < |s.uncertain| && SameEra(s.uncertain[k], i) { assert Expects(s, i, s.uncertain[k].requested); }
  }

  lemma ForeignIsForeign(s: State, i: Intent, p: Preflight)
    ensures LiveTargetForeign(s, p, i) <==> Foreign(s, i, p.observed)
  {
    SomethingExpected(s, i);
    if p.observed.Some? { ExplainedExpects(s, i, p.observed.value); }
  }

  // ---- the submit ----------------------------------------------------------------------------------

  /** The world the intent was formed for is still there. */
  predicate Permitted(i: Intent, p: Preflight, now: Time) {
    && p.gateOpen && now < i.expiresAt && p.target == i.target
    && p.entryGeneration == i.entryGeneration && p.inputGeneration == i.inputGeneration
    && p.capabilityGeneration == i.capabilityGeneration && p.ownershipRevision == i.ownershipRevision
    && p.ownership.Owned? && p.targetReady && (p.dataReady || i.safety) && p.lease == Some(i.lease)
  }

  /** Recovery finds the device where the intent wants it, within what it can report. */
  predicate AlreadyThere(i: Intent, p: Preflight) {
    i.recovery && p.observed.Some? && TargetMatches(Requested(i), p.observed.value, i.resolution)
  }

  /** What the broker knows when it looks at the device: recovery forgets what was acknowledged and takes the device
      as it is, and so does the first contact. */
  function Looking(s: State, i: Intent, p: Preflight): State {
    s.(acknowledged := if i.recovery then None else s.acknowledged,
       baseline := if i.recovery || (s.baseline.None? && s.acknowledged.None?) then p.observed else s.baseline)
  }

  /** Failed attempts at this very setpoint. */
  function Failures(s: State, i: Intent): nat { if s.goal == Some(Requested(i)) then s.attempts else 0 }

  /** A minute after every call; ten seconds are enough for an explicit transition with no failed write outstanding. */
  predicate TooSoon(s: State, i: Intent, now: Time) {
    && s.lastDispatchAt.Some?
    && now - s.lastDispatchAt.value < if i.explicit && s.lastError.None? then 10 * SECOND else 60 * SECOND
  }

  predicate Far(a: Option<real>, b: Option<real>, delta: real) {
    a.Some? && b.Some? ==> Abs(a.value - b.value) + CHANGE_TOLERANCE >= delta
  }

  predicate Present(f: Fingerprint) {
    if f.shape.Scalar? then f.temperature.Some? else f.low.Some? && f.high.Some?
  }

  /** The intent asks for something else than what is acknowledged: by the meaningful difference in one end at least,
      unless the two cannot be compared. */
  predicate Moves(i: Intent, f: Fingerprint) {
    var r := Requested(i);
    && r != f
    && (r.shape == f.shape && Present(r) && Present(f) ==>
          if r.shape.Scalar? then Far(r.temperature, f.temperature, i.meaningfulDelta)
          else Far(r.low, f.low, i.meaningfulDelta) || Far(r.high, f.high, i.meaningfulDelta))
  }

  /** Worth sending, compared with what is acknowledged; after a failed write, and for recovery, nothing is. */
  predicate Worthwhile(s: State, i: Intent) {
    s.lastError.Some? || i.recovery || s.acknowledged.None?
    || (Moves(i, s.acknowledged.value.fingerprint) && !ReleaseBlocks(i, s.acknowledged.value))
  }

  /** Nothing keeps this intent from the journal. */
  ghost predicate Goes(gate: bool, s: State, i: Intent, p: Preflight, now: Time) {
    && gate && Permitted(i, p, now) && s.pending.None? && !AlreadyThere(i, p)
    && !Foreign(Looking(s, i, p), i, p.observed)
    && !(s.lastError.Some? && Failures(s, i) >= MAX_WRITE_ATTEMPTS)
    && !TooSoon(s, i, now) && Worthwhile(s, i)
  }

  lemma PermittedPasses(i: Intent, p: Preflight, now: Time)
    ensures PreflightReason(i, p, now).None? <==> Permitted(i, p, now)
  {
  }

  lemma MovesIsChange(i: Intent, f: Fingerprint)
    ensures Moves(i, f) <==>
      && Requested(i) != f
      && (MaximumChange(Requested(i), f).Some? ==>
            MaximumChange(Requested(i), f).value + CHANGE_TOLERANCE >= i.meaningfulDelta)
  {
  }

  /** What submit looks at once the intent is permitted and nothing is pending. */
  function Aimed(s: State, i: Intent): State {
    s.(goal := Some(Requested(i)), attempts := Failures(s, i),
       writeStatus := if s.goal == Some(Requested(i)) then s.writeStatus else Idle)
  }

  lemma ForeignLooks(s: State, i: Intent, p: Preflight)
    ensures LiveTargetForeign(Rebase(Aimed(s, i), i, p), p, i) <==> Foreign(Looking(s, i, p), i, p.observed)
  {
    ForeignIsForeign(Rebase(Aimed(s, i), i, p), i, p);
    assert forall f :: Expects(Rebase(Aimed(s, i), i, p), i, f) <==> Expects(Looking(s, i, p), i, f);
  }

  lemma AntiChatterLaw(s: State, i: Intent, now: Time)
    ensures AntiChatter(i, if s.lastError.None? then s.acknowledged else None, s.lastDispatchAt, now).None?
        <==> Worthwhile(s, i) && !(s.lastDispatchAt.Some? && now - s.lastDispatchAt.value < MinimumInterval(i))
  {
    if s.acknowledged.Some? { MovesIsChange(i, s.acknowledged.value.fingerprint); }
  }

  lemma KnownGoes(s: State, i: Intent, p: Preflight, now: Time)
    ensures SubmitKnown(s, i, p, now).Proceed? <==>
      && !LiveTargetForeign(s, p, i) && !(s.lastError.Some? && s.attempts >= MAX_WRITE_ATTEMPTS)
      && !TooSoon(s, i, now) && Worthwhile(s, i)
    ensures SubmitKnown(s, i, p, now).Proceed? ==>
      SubmitKnown(s, i, p, now).state == s && (SubmitKnown(s, i, p, now).late <==> s.lastError.Some?)
  {
    AntiChatterLaw(s, i, now);
  }

  lemma SubmitAims(gate: bool, s: State, i: Intent, p: Preflight, now: Time)
    requires gate && PreflightReason(i, p, now).None? && s.pending.None? && !AlreadyThere(i, p)
    ensures Submit(gate, s, i, p, now) == SubmitKnown(Rebase(Aimed(s, i), i, p), i, p, now)
  {
  }

  /** Main result on submits: an intent goes on to the journal if and only if nothing keeps it, and then the broker
      aims at it and knows whether a failed write is outstanding. */
  lemma SubmitGoesExactly(gate: bool, s: State, i: Intent, p: Preflight, now: Time)
    ensures Submit(gate, s, i, p, now).Proceed? <==> Goes(gate, s, i, p, now)
    ensures Goes(gate, s, i, p, now) ==>
      var r := Submit(gate, s, i, p, now);
      && r.state == Looking(Aimed(s, i), i, p) && (r.late <==> s.lastError.Some?)
  {
    PermittedPasses(i, p, now);
    if gate && Permitted(i, p, now) && s.pending.None? && !AlreadyThere(i, p) {
      SubmitAims(gate, s, i, p, now);
      KnownGoes(Rebase(Aimed(s, i), i, p), i, p, now);
      ForeignLooks(s, i, p);
    }
  }

  /** The live-target check: a permitted submit with nothing pending is refused as foreign, and nothing stays queued,
      if and only if the device shows a setpoint, some setpoint is expected, and it matches none of those. */
  lemma ForeignIsRefused(gate: bool, s: State, i: Intent, p: Preflight, now: Time)
    requires gate && Permitted(i, p, now) && s.pending.None? && !AlreadyThere(i, p)
    ensures var r := Submit(gate, s, i, p, now);
      && (r.Answered? && r.outcome.reason.ExternalTarget? <==> Foreign(Looking(s, i, p), i, p.observed))
      && (r.Answered? && r.outcome.reason.ExternalTarget? ==> r.state.queued.None?)
  {
    PermittedPasses(i, p, now);
    SubmitAims(gate, s, i, p, now);
    ForeignLooks(s, i, p);
  }

  /** A device that is met for the first time, or after recovery, may show any whole setpoint: it is taken as it is. */
  lemma FirstContactIsTrusted(s: State, i: Intent, p: Preflight)
    requires i.recovery || (s.baseline.None? && s.acknowledged.None?)
    requires p.observed.Some? ==> Present(p.observed.value) && i.step >= 0.0 && i.resolution >= 0.0
    ensures !Foreign(Looking(s, i, p), i, p.observed)
  {
    if p.observed.Some? {
      assert Expects(Looking(s, i, p), i, p.observed.value);
      assert TargetMatches(p.observed.value, p.observed.value, Min(i.step / 4.0, i.resolution));
    }
  }

  /** What an answered submit leaves queued: the intent itself while a command is pending or the interval runs,
      nothing after a refusal or a hit, and otherwise what was queued before. */
  lemma AnswersQueue(gate: bool, s: State, i: Intent, p: Preflight, now: Time)
    requires Submit(gate, s, i, p, now).Answered?
    ensures var r := Submit(gate, s, i, p, now);
      var because := r.outcome.reason;
      && r.outcome.dispatch.NotDispatched? && r.outcome.id.None?
      && (because.CommandIsPending? <==> gate && Permitted(i, p, now) && s.pending.Some?)
      && (because.CommandIsPending? || because.CommandInterval? ==> r.state.queued == Some(i))
      && (gate && !Permitted(i, p, now) ==> r.state == s.(queued := None))
      && (because.ExternalTarget? || because.TargetCurrent? ==> r.state.queued.None?)
      && (Permitted(i, p, now) && because in {WriteFailed, TargetUnchanged, BelowMinimumChange, QuantizationHysteresis} ==>
            r.state.queued == s.queued)
      && (!gate ==> r.state == s && because.GateClosed?)
      && (because.CommandInterval? && s.lastError.Some? ==> r.state.writeStatus.RetryPending?)
  {
    PermittedPasses(i, p, now);
  }

  /** How much of a step below the acknowledged setpoint the heating requests begin that were rounded to it: a whole
      one when they are rounded up, none when down, half of it to the nearest. Cooling requests end that much above. */
  function CellPart(rounding: Option<RoundingMode>, up: bool): real {
    match rounding
    case Some(Ceiling) => if up then 1.0 else 0.0
    case Some(Floor) => if up then 0.0 else 1.0
    case Some(Mathematical) => 0.5
    case None => 1.0
  }

  /** The wish is not yet a tenth of a degree beyond the acknowledged cell, or unknown. */
  predicate Close(i: Intent, wish: Option<real>, acknowledged: real, heating: bool) {
    var cell := if i.stepRoom.Some? then CellPart(i.rounding, heating) * i.stepRoom.value else 0.0;
    wish.None?
    || if heating then acknowledged - wish.value < cell + 0.1 - RELEASE_TOLERANCE_C
       else wish.value - acknowledged < cell + 0.1 - RELEASE_TOLERANCE_C
  }

  /** The release hysteresis: an ordinary intent is held exactly when it would lower an acknowledged heating end or
      raise a cooling end without being far enough beyond its cell. What cannot be compared is not held. */
  lemma HeldExactly(i: Intent, a: AckTarget)
    ensures ReleaseBlocks(i, a) <==>
      && !i.explicit
      && if i.shape.Scalar? then
           && i.room.Some? && a.room.Some?
           && ((i.direction.HeatingOnly? && i.room.value < a.room.value && Close(i, i.continuous, a.room.value, true))
               || (i.direction.CoolingOnly? && i.room.value > a.room.value && Close(i, i.continuous, a.room.value, false)))
         else
           && i.roomLow.Some? && i.roomHigh.Some? && a.low.Some? && a.high.Some?
           && ((i.roomLow.value < a.low.value && Close(i, i.continuousLow, a.low.value, true))
               || (i.roomHigh.value > a.high.value && Close(i, i.continuousHigh, a.high.value, false)))
  {
  }

  /** Recovery that finds the device already there acknowledges what it shows, with the intent's room values, and
      clears the failure. */
  lemma RecoveryFinds(gate: bool, s: State, i: Intent, p: Preflight, now: Time)
    requires gate && Permitted(i, p, now) && s.pending.None? && AlreadyThere(i, p)
    ensures var r := Submit(gate, s, i, p, now);
      && r.Answered? && r.outcome.reason.TargetCurrent?
      && r.state.acknowledged == Some(AckTarget(p.observed.value, i.room, i.roomLow, i.roomHigh, now))
      && r.state.lastError.None? && r.state.goal == Some(Requested(i)) && r.state.writeStatus.Confirmed?
  {
    PermittedPasses(i, p, now);
  }

  /** While a failed write is outstanding an intent that comes too soon is kept for the retry, whatever it asks for. */
  lemma RetryWaits(gate: bool, s: State, i: Intent, p: Preflight, now: Time)
    requires gate && Permitted(i, p, now) && s.pending.None? && !AlreadyThere(i, p)
    requires !Foreign(Looking(s, i, p), i, p.observed) && s.lastError.Some? && Failures(s, i) < MAX_WRITE_ATTEMPTS
    requires s.lastDispatchAt.Some? && now < s.lastDispatchAt.value + 60 * SECOND
    ensures var r := Submit(gate, s, i, p, now);
      r.Answered? && r.outcome.reason.CommandInterval? && r.state.queued == Some(i) && r.state.writeStatus.RetryPending?
  {
    PermittedPasses(i, p, now);
    SubmitAims(gate, s, i, p, now);
    ForeignLooks(s, i, p);
  }

  // ---- the two rechecks ----------------------------------------------------------------------------

  /** After each journal write the command goes on if and only if the gate is open, the world still permits it, and the
      device shows nothing foreign. */
  lemma RecheckExactly(gate: bool, s: State, c: Command, ok: bool, p: Preflight, now: Time)
    ensures var still := ok && gate && Permitted(c.intent, p, now) && !Foreign(s, c.intent, p.observed);
      && (AfterPersist(gate, s, c, ok, p, now).MarkNext? <==> still)
      && (AfterMark(gate, s, c, ok, p, now).CallService? <==> still)
      && (AfterPersist(gate, s, c, ok, p, now).Withdraw? <==> ok && !still)
      && (AfterMark(gate, s, c, ok, p, now).Withdraw? <==> ok && !still)
  {
    PermittedPasses(c.intent, p, now);
    ForeignIsForeign(s, c.intent, p);
  }

  /** Why it is withdrawn: the first thing of the preflight that is no longer so, and then the gate or the device, in
      this order before the command is marked and in the other one after. */
  lemma RecheckReasons(gate: bool, s: State, c: Command, p: Preflight, now: Time)
    requires !(gate && Permitted(c.intent, p, now) && !Foreign(s, c.intent, p.observed))
    ensures var foreign := Foreign(s, c.intent, p.observed);
      && AfterPersist(gate, s, c, true, p, now).Withdraw? && AfterMark(gate, s, c, true, p, now).Withdraw?
      && (Permitted(c.intent, p, now) ==>
            && AfterPersist(gate, s, c, true, p, now).reason == (if !gate then GateClosed else ExternalTarget)
            && AfterMark(gate, s, c, true, p, now).reason == if foreign then ExternalTarget else GateClosed)
      && (!Permitted(c.intent, p, now) ==>
            Some(AfterPersist(gate, s, c, true, p, now).reason) == PreflightReason(c.intent, p, now)
            == Some(AfterMark(gate, s, c, true, p, now).reason))
  {
    PermittedPasses(c.intent, p, now);
    ForeignIsForeign(s, c.intent, p);
  }

  /** Each thing the preflight looks at has its own name; the first one that fails is given. */
  lemma PreflightReasons(i: Intent, p: Preflight, now: Time)
    requires p.gateOpen
    ensures var r := PreflightReason(i, p, now);
      && (r == Some(IntentExpired) <==> now >= i.expiresAt)
      && (r == Some(IdentityChanged) ==> p.target != i.target)
      && (r == Some(EntryGenerationChanged) ==> p.entryGeneration != i.entryGeneration)
      && (r == Some(InputGenerationChanged) ==> p.inputGeneration != i.inputGeneration)
      && (r == Some(CapabilityGenerationChanged) ==> p.capabilityGeneration != i.capabilityGeneration)
      && (r == Some(OwnershipRevisionChanged) ==> p.ownershipRevision != i.ownershipRevision)
      && (r == Some(NotOwned) ==> !p.ownership.Owned?) && (r == Some(TargetNotReady) ==> !p.targetReady)
      && (r == Some(DataNotReady) ==> !p.dataReady && !i.safety) && (r == Some(LeaseLost) ==> p.lease != Some(i.lease))
  {
  }
}
