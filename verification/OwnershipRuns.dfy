/** What sequences of ownership events lead to: how a target comes back under control, and what keeps it out. */
module OwnershipRuns {
  import opened Contracts
  import opened Ownership

  /** One event as it is offered to the reducer. */
  datatype Happening = Happening(event: Event, args: EventArgs)

  predicate AllAccepted(hs: seq<Happening>) { forall k :: 0 <= k < |hs| ==> Accepts(hs[k].event, hs[k].args) }

  function Trace(s: OwnershipState, hs: seq<Happening>): OwnershipState
    requires AllAccepted(hs)
  {
    if hs == [] then s else Reduce(Trace(s, hs[..|hs| - 1]), hs[|hs| - 1].event, hs[|hs| - 1].args)
  }

  lemma OneMore(s: OwnershipState, hs: seq<Happening>, h: Happening)
    requires AllAccepted(hs) && Accepts(h.event, h.args)
    ensures AllAccepted(hs + [h]) && Trace(s, hs + [h]) == Reduce(Trace(s, hs), h.event, h.args)
  {
    assert (hs + [h])[..|hs|] == hs;
  }

  lemma TwoEvents(s: OwnershipState, h: Happening, i: Happening)
    requires Accepts(h.event, h.args) && Accepts(i.event, i.args)
    ensures AllAccepted([h, i]) && Trace(s, [h, i]) == Reduce(Reduce(s, h.event, h.args), i.event, i.args)
  {
    OneMore(s, [], h);
    OneMore(s, [h], i);
    assert [] + [h] == [h] && [h] + [i] == [h, i];
  }

  /** What a RECONCILED finds: the readiness it carries, or else the one known before. */
  predicate Ready(target: TargetReadiness, data: DataReadiness, a: EventArgs) {
    && (if a.target.Some? then a.target.value else target) == AvailableSupported
    && (if a.data.Some? then a.data.value else data) in {DataReadiness.Ready, DegradedReady, FallbackReady}
  }

  function Reconciling(a: EventArgs): Happening { Happening(Reconciled, a) }

  /** Somebody else sets the target: its setpoint, or a preset that affects it. */
  predicate SetsTarget(e: Event, a: EventArgs) {
    e.ExternalTargetEvent? || (e.ExternalPreset? && a.presetAffectsTarget)
  }

  /** Exactly those count as external changes, and take the target over; any other preset is only noted. An override
      that would last less than a quarter of an hour or more than a day is refused. */
  lemma ExternalChanges(s: OwnershipState, e: Event, a: EventArgs)
    ensures Accepts(e, a) <==>
      !SetsTarget(e, a) || a.overrideDuration.None? || 900 * SECOND <= a.overrideDuration.value <= 86400 * SECOND
    ensures Accepts(e, a) ==>
      var t := Reduce(s, e, a);
      && t.externalRevision == s.externalRevision + (if SetsTarget(e, a) then 1 else 0)
      && (SetsTarget(e, a) ==> t.ownership.ManualOverride? && t.revision == s.revision + 1)
      && (e.ExternalPreset? && !a.presetAffectsTarget ==> t == s)
  {
  }

  // ---- the way back ------------------------------------------------------------------------------

  /** The user's resume, and a clean restart, bring back any target whatever held it: it is owned by the next RECONCILED
      exactly when target and data are ready at that moment. */
  lemma ResumeReconciles(s: OwnershipState, e: Event, a: EventArgs, b: EventArgs)
    requires e.Resume? || e.CleanRestart?
    ensures Trace(s, [Happening(e, a), Reconciling(b)]).ownership.Owned? <==> Ready(s.target, s.data, b)
  {
    TwoEvents(s, Happening(e, a), Reconciling(b));
  }

  /** Enabling does the same, and takes up the readiness it is given. */
  lemma EnableReconciles(s: OwnershipState, a: EventArgs, b: EventArgs)
    ensures Trace(s, [Happening(Enable, a), Reconciling(b)]).ownership.Owned?
        <==> Ready(GetOr(a.target, s.target), GetOr(a.data, s.data), b)
  {
    TwoEvents(s, Happening(Enable, a), Reconciling(b));
  }

  /** A RECONCILED that comes too early or too late is ignored; any other one, granted or not, keeps what it was told
      about target and data. */
  lemma ReconciledIsTold(s: OwnershipState, a: EventArgs)
    ensures var t := Reduce(s, Reconciled, a);
      if s.ownership.Reconciling? && !s.resumeRequired then
        && t.target == GetOr(a.target, s.target) && t.data == GetOr(a.data, s.data)
        && t.overrideReason == s.overrideReason && t.overrideExpiry == s.overrideExpiry && !t.resumeRequired
        && (t.ownership.Owned? || t.ownership.Reconciling?) && (t.ownership.Owned? <==> Ready(s.target, s.data, a))
      else t == s
  {
  }

  /** Disabling forgets what held the target; a clean restart forgets the reason and the gate but leaves an expiry
      standing. */
  lemma DisableForgets(s: OwnershipState, e: Event, a: EventArgs)
    requires e.Disable? || e.CleanRestart?
    ensures var t := Reduce(s, e, a);
      && t.overrideReason.None? && !t.resumeRequired && t.externalRevision == s.externalRevision
      && t.target == s.target && t.data == s.data
      && t.overrideExpiry == (if e.Disable? then None else s.overrideExpiry)
  {
  }

  /** A resume leaves nothing of what held the target; an enable neither. */
  lemma ResumeForgets(s: OwnershipState, e: Event, a: EventArgs)
    requires e.Resume? || e.Enable?
    ensures var t := Reduce(s, e, a);
      t.overrideReason.None? && t.overrideExpiry.None? && !t.resumeRequired && t.externalRevision == s.externalRevision
  {
  }

  /** An expiring override gives the target back exactly when the clock has reached its expiry; one without an expiry
      never does. */
  lemma ExpiryReconciles(s: OwnershipState, a: EventArgs, b: EventArgs)
    requires s.ownership.ManualOverride? && !s.resumeRequired
    ensures Trace(s, [Happening(OverrideExpired, a), Reconciling(b)]).ownership.Owned?
        <==> s.overrideExpiry.Some? && s.overrideExpiry.value <= a.now && Ready(s.target, s.data, b)
  {
    TwoEvents(s, Happening(OverrideExpired, a), Reconciling(b));
  }

  /** From a takeover on: the override lasts as long as it was told to, from the moment of the takeover. */
  lemma TakeoverLasts(s: OwnershipState, e: Event, a: EventArgs, b: EventArgs, c: EventArgs)
    requires TakesOver(e, a) && Accepts(e, a)
    ensures var taken := Reduce(s, e, a);
      && taken.ownership.ManualOverride? && !taken.resumeRequired
      && taken.overrideReason == Some(if e.ExternalTargetEvent? then ExternalTemperature else ExternalPresetTarget)
      && (Trace(taken, [Happening(OverrideExpired, b), Reconciling(c)]).ownership.Owned?
          <==> a.overrideDuration.Some? && b.now - a.now >= a.overrideDuration.value && Ready(s.target, s.data, c))
  {
    ExpiryReconciles(Reduce(s, e, a), b, c);
  }

  /** A change of HVAC mode takes an owned target out of control while it can be written, and leaves the next
      RECONCILED to decide; one that makes it unwritable leaves it owned and unready. */
  lemma ModeChangeReconciles(s: OwnershipState, a: EventArgs, b: EventArgs)
    requires s.ownership.Owned? && !s.resumeRequired
    ensures var changed := Reduce(s, ExternalHvacMode, a);
      && changed.target == GetOr(a.target, s.target)
      && (changed.ownership.Owned? <==> !changed.target.AvailableSupported?)
      && (changed.target.AvailableSupported? ==>
            (Trace(s, [Happening(ExternalHvacMode, a), Reconciling(b)]).ownership.Owned?
             <==> Ready(changed.target, s.data, b)))
  {
    TwoEvents(s, Happening(ExternalHvacMode, a), Reconciling(b));
  }

  /** A change of mode never ends an override, a gate or a disablement. */
  lemma ModeChangeFreesNothing(s: OwnershipState, a: EventArgs)
    requires !s.ownership.Owned?
    ensures var changed := Reduce(s, ExternalHvacMode, a);
      && changed.ownership == s.ownership && changed.resumeRequired == s.resumeRequired
      && changed.overrideReason == s.overrideReason && changed.overrideExpiry == s.overrideExpiry
  {
  }

  /** A target that was lost is unavailable, and one that returns has to be reconciled again. */
  lemma ReturnReconciles(s: OwnershipState, a: EventArgs, b: EventArgs, c: EventArgs)
    requires s.ownership.Owned? && !s.resumeRequired
    ensures var back := Trace(s, [Happening(TargetLost, a), Happening(TargetReturned, b)]);
      && Reduce(s, TargetLost, a).target.Unavailable?
      && !back.ownership.Owned? && back.target == GetOr(b.target, Unavailable)
      && (Reduce(back, Reconciled, c).ownership.Owned? <==> Ready(back.target, s.data, c))
  {
    TwoEvents(s, Happening(TargetLost, a), Happening(TargetReturned, b));
  }

  // ---- what keeps a target out -------------------------------------------------------------------

  /** Disabled or behind the resume gate. */
  predicate Shut(s: OwnershipState) {
    !s.ownership.Owned? && !s.ownership.CommandFault? && (s.ownership.Disabled? || s.resumeRequired)
  }

  predicate Shuts(e: Event) { e.TargetReplaced? || e.Disable? || e.UncleanRestartEvent? }

  /** The user enables or resumes, or sets the target, or the restart was clean. */
  predicate Lifts(e: Event, a: EventArgs) { e.Enable? || e.Resume? || e.CleanRestart? || TakesOver(e, a) }

  lemma ShutIsShut(s: OwnershipState, e: Event, a: EventArgs)
    requires Accepts(e, a) && Shuts(e)
    ensures Shut(Reduce(s, e, a)) && (Reduce(s, e, a).resumeRequired <==> !e.Disable?)
    ensures e.TargetReplaced? ==>
      var t := Reduce(s, e, a);
      t.target.Unavailable? && t.ownership.Disabled? && t.overrideReason == Some(TargetWasReplaced) && t.overrideExpiry.None?
    ensures e.UncleanRestartEvent? && a.recoveryReason.Some? ==> Reduce(s, e, a).overrideReason == a.recoveryReason
  {
  }

  lemma ShutStep(s: OwnershipState, e: Event, a: EventArgs)
    requires Accepts(e, a) && Shut(s)
    ensures Shut(Reduce(s, e, a)) <==> !Lifts(e, a)
  {
  }

  /** A replaced target, a disabled one and one behind the gate stay out through any events but those that lift it. */
  lemma {:induction false} ShutUntilLifted(s: OwnershipState, hs: seq<Happening>)
    requires AllAccepted(hs) && Shut(s)
    requires forall k :: 0 <= k < |hs| ==> !Lifts(hs[k].event, hs[k].args)
    ensures Shut(Trace(s, hs))
  {
    if hs != [] {
      ShutUntilLifted(s, hs[..|hs| - 1]);
      ShutStep(Trace(s, hs[..|hs| - 1]), hs[|hs| - 1].event, hs[|hs| - 1].args);
    }
  }

  /** Somebody setting the target lifts even the gate of a replaced one: once that override has run out, the next
      RECONCILED owns it, although nobody has resumed. */
  lemma TakeoverLiftsTheGate(s: OwnershipState, a: EventArgs, b: EventArgs, c: EventArgs, d: EventArgs)
    requires b.overrideDuration.Some? && Accepts(ExternalTargetEvent, b)
    ensures var gone := Reduce(s, TargetReplaced, a);
      var taken := Reduce(gone, ExternalTargetEvent, b);
      && Shut(gone) && gone.resumeRequired && gone.target.Unavailable?
      && (Trace(taken, [Happening(OverrideExpired, c), Reconciling(d)]).ownership.Owned?
          <==> c.now - b.now >= b.overrideDuration.value && Ready(Unavailable, s.data, d))
  {
    TakeoverLasts(Reduce(s, TargetReplaced, a), ExternalTargetEvent, b, c, d);
  }

  // ---- overrides ---------------------------------------------------------------------------------

  /** What ends an override, or replaces it by another one. */
  predicate EndsOverride(s: OwnershipState, e: Event, a: EventArgs) {
    || Lifts(e, a) || Shuts(e)
    || (e.OverrideExpired? && s.overrideExpiry.Some? && s.overrideExpiry.value <= a.now)
  }

  predicate Overridden(s: OwnershipState, reason: Option<OverrideReason>, expiry: Option<Time>, external: nat) {
    && s.ownership.ManualOverride? && s.overrideReason == reason && s.overrideExpiry == expiry
    && s.externalRevision == external
  }

  lemma OverrideStep(s: OwnershipState, e: Event, a: EventArgs)
    requires Accepts(e, a) && s.ownership.ManualOverride?
    ensures Overridden(Reduce(s, e, a), s.overrideReason, s.overrideExpiry, s.externalRevision)
        <==> !EndsOverride(s, e, a)
  {
  }

  /** A user's override stands, with its reason and expiry, through any events but those. */
  lemma {:induction false} OverrideStands(s: OwnershipState, hs: seq<Happening>)
    requires AllAccepted(hs) && s.ownership.ManualOverride?
    requires forall k :: 0 <= k < |hs| ==> !EndsOverride(s, hs[k].event, hs[k].args)
    ensures Overridden(Trace(s, hs), s.overrideReason, s.overrideExpiry, s.externalRevision)
  {
    if hs != [] {
      OverrideStands(s, hs[..|hs| - 1]);
      OverrideStep(Trace(s, hs[..|hs| - 1]), hs[|hs| - 1].event, hs[|hs| - 1].args);
    }
  }

  /** The reports of a delivery never change who owns the target, except the late acknowledgement of a stored command
      fault by the same external revision, which ends the fault and its gate. */
  lemma DeliveryReports(s: OwnershipState, e: Event, a: EventArgs)
    requires e.CommandRejected? || e.CommandUnknown? || e.LateAcknowledged?
    ensures Reduce(s, e, a) != s
        <==> e.LateAcknowledged? && s.ownership.CommandFault? && a.ackExternalRevision == Some(s.externalRevision)
    ensures Reduce(s, e, a) != s ==>
      var t := Reduce(s, e, a);
      t.ownership.Reconciling? && !t.resumeRequired && t.overrideReason.None? && t.externalRevision == s.externalRevision
  {
  }
}
