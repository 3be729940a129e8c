/** The demand latch: heat is requested on a shortfall against the unrounded target and withdrawn near the executable
    one. */
module HeatingDemand {
  import opened Contracts

  const CLOSE := 0.000000001

  /** Relative and absolute tolerance of one part in a thousand million, whichever is wider. */
  predicate IsClose(a: real, b: real) { Abs(a - b) <= Max(CLOSE * Max(Abs(a), Abs(b)), CLOSE) }

  datatype Why =
    | BoostOverride | ComfortLowerBound | ComfortRecovery | DeactivationThreshold | ActiveHold
    | RoundedTargetAtStop | ActivationThreshold | CentralAssist | BelowActivation

  /** Everything but the room temperature and the latch itself. */
  datatype Plan = Plan(
    desired: real, activationTarget: Option<real>, activation: real, deactivation: real, force: bool,
    bound: Option<real>, assist: bool)

  datatype Decision = Decision(active: bool, delta: real, why: Why)

  predicate DeltasValid(p: Plan) { 0.0 <= p.deactivation < p.activation }

  function ActivationTarget(p: Plan): real { if p.activationTarget.Some? then p.activationTarget.value else p.desired }

  predicate StopReached(p: Plan, room: real) {
    p.desired - room < p.deactivation || IsClose(p.desired - room, p.deactivation)
  }

  predicate StartReached(p: Plan, room: real) {
    ActivationTarget(p) - room > p.activation || IsClose(ActivationTarget(p) - room, p.activation)
  }

  /** None when the deltas are out of order, which is refused. */
  function Resolve(previous: bool, p: Plan, room: real): Option<Decision> {
    var delta := p.desired - room;
    if !DeltasValid(p) then None
    else if p.force then Some(Decision(true, delta, BoostOverride))
    else if p.bound.Some? && room < p.bound.value then Some(Decision(true, delta, ComfortLowerBound))
    else if p.bound.Some? && previous && room < p.bound.value + p.deactivation
            && !IsClose(room, p.bound.value + p.deactivation) then
      Some(Decision(true, delta, ComfortRecovery))
    else if previous then
      if StopReached(p, room) then Some(Decision(false, delta, DeactivationThreshold))
      else Some(Decision(true, delta, ActiveHold))
    else if StartReached(p, room) then
      if StopReached(p, room) then Some(Decision(false, delta, RoundedTargetAtStop))
      else Some(Decision(true, delta, ActivationThreshold))
    else if p.assist && ActivationTarget(p) - room > 0.0 && !StopReached(p, room) then
      Some(Decision(true, delta, CentralAssist))
    else Some(Decision(false, delta, BelowActivation))
  }

  predicate Next(active: bool, p: Plan, room: real)
    requires DeltasValid(p)
  {
    Resolve(active, p, room).value.active
  }

  /** The latch never flips on a second look at the same inputs, and a set latch never asks for less than a clear
      one. */
  lemma LatchIsStable(previous: bool, p: Plan, room: real)
    requires DeltasValid(p)
    ensures Next(Next(previous, p, room), p, room) == Next(previous, p, room)
    ensures Next(false, p, room) ==> Next(true, p, room)
  {
  }

  lemma ClosenessShrinks(near: real, far: real, mark: real)
    requires (far <= near <= mark || far >= near >= mark) && IsClose(far, mark)
    ensures IsClose(near, mark)
  {
  }

  /** A colder room never withdraws a request that a warmer one would make. */
  lemma ColderKeepsDemand(previous: bool, p: Plan, cold: real, warm: real)
    requires DeltasValid(p) && cold <= warm && Next(previous, p, warm)
    ensures Next(previous, p, cold)
  {
    if StopReached(p, cold) { StopIsUpward(p, cold, warm); }
    if StartReached(p, warm) { StartIsDownward(p, cold, warm); }
    if p.bound.Some? && warm < p.bound.value + p.deactivation && IsClose(cold, p.bound.value + p.deactivation) {
      ClosenessShrinks(warm, cold, p.bound.value + p.deactivation);
    }
  }

  lemma StopIsUpward(p: Plan, cold: real, warm: real)
    requires cold <= warm && StopReached(p, cold)
    ensures StopReached(p, warm)
  {
    var far, near := p.desired - cold, p.desired - warm;
    if near >= p.deactivation { ClosenessShrinks(near, far, p.deactivation); }
  }

  lemma StartIsDownward(p: Plan, cold: real, warm: real)
    requires cold <= warm && StartReached(p, warm)
    ensures StartReached(p, cold)
  {
    var far, near := ActivationTarget(p) - warm, ActivationTarget(p) - cold;
    if near <= p.activation { ClosenessShrinks(near, far, p.activation); }
  }

  // ---- how often it can cycle --------------------------------------------------------------------

  /** The two tolerances together never take more than this off the distance between start and stop. */
  function Slack(p: Plan): real { CLOSE * (2.0 * p.activation + 1.0) }

  /** How far the room must swing, up and then down again, for one more cycle. */
  function Swing(p: Plan): real { p.activation - p.deactivation - 2.0 * Slack(p) }

  /** Fixed targets, no Boost, no comfort bound and no assist; the executable target is not below the unrounded one. */
  predicate Plain(p: Plan) { DeltasValid(p) && !p.force && p.bound.None? && !p.assist && p.desired >= ActivationTarget(p) }

  function OnBelow(p: Plan): real { ActivationTarget(p) - p.activation + Slack(p) }

  function OffAbove(p: Plan): real { p.desired - p.deactivation - Slack(p) }

  lemma StartsBelow(p: Plan, room: real)
    requires DeltasValid(p) && StartReached(p, room)
    ensures room <= OnBelow(p)
  {
  }

  lemma StopsAbove(p: Plan, room: real)
    requires DeltasValid(p) && StopReached(p, room)
    ensures room >= OffAbove(p)
  {
  }

  function Latch(start: bool, p: Plan, rooms: seq<real>): bool
    requires DeltasValid(p)
  {
    if rooms == [] then start else Next(Latch(start, p, rooms[..|rooms| - 1]), p, rooms[|rooms| - 1])
  }

  /** Times the latch goes from off to on. */
  function Cycles(start: bool, p: Plan, rooms: seq<real>): nat
    requires DeltasValid(p)
  {
    if rooms == [] then 0
    else
      var front := rooms[..|rooms| - 1];
      Cycles(start, p, front) + (if !Latch(start, p, front) && Latch(start, p, rooms) then 1 else 0)
  }

  function Variation(rooms: seq<real>): real {
    if |rooms| <= 1 then 0.0
    else Variation(rooms[..|rooms| - 1]) + Abs(rooms[|rooms| - 1] - rooms[|rooms| - 2])
  }

  /** What n cycles must have cost in temperature swing. */
  function Cost(n: nat, swing: real): real { if n <= 1 then 0.0 else Cost(n - 1, swing) + 2.0 * swing }

  lemma {:induction false} CostIsLinear(n: nat, swing: real)
    requires n >= 1
    ensures Cost(n, swing) == 2.0 * (n - 1) as real * swing
  {
    if n == 1 {
    } else {
      CostIsLinear(n - 1, swing);
      Distributed((n - 2) as real, swing);
    }
  }

  lemma Distributed(k: real, swing: real)
    ensures 2.0 * (k + 1.0) * swing == 2.0 * k * swing + 2.0 * swing
  {
  }

  /** With n cycles behind it, the variation pays for them and for where the room is now. */
  predicate PaidFor(n: nat, variation: real, latched: bool, last: real, p: Plan)
    requires DeltasValid(p)
  {
    var spare := variation - Cost(n, Swing(p));
    spare >= 0.0 && spare >= if latched then last - OnBelow(p) else Swing(p) + OffAbove(p) - last
  }

  ghost predicate Paid(start: bool, p: Plan, rooms: seq<real>)
    requires DeltasValid(p)
  {
    rooms != [] && Cycles(start, p, rooms) >= 1 ==>
      PaidFor(Cycles(start, p, rooms), Variation(rooms), Latch(start, p, rooms), rooms[|rooms| - 1], p)
  }

  /** A room that moves pays for staying on or off, for stopping, and for one more start. */
  lemma MovePays(n: nat, variation: real, was: bool, before: real, latched: bool, room: real, p: Plan)
    requires Plain(p) && n >= 1 && PaidFor(n, variation, was, before, p)
    requires was && !latched ==> room >= OffAbove(p)
    requires !was && latched ==> room <= OnBelow(p)
    ensures PaidFor(if !was && latched then n + 1 else n, variation + Abs(room - before), latched, room, p)
  {
  }

  lemma SwitchPoints(was: bool, p: Plan, room: real)
    requires Plain(p)
    ensures was && !Next(was, p, room) ==> room >= OffAbove(p)
    ensures !was && Next(was, p, room) ==> room <= OnBelow(p)
  {
    if was && !Next(was, p, room) { StopsAbove(p, room); }
    if !was && Next(was, p, room) { StartsBelow(p, room); }
  }

  /** One more look at the room pays for what it changes. */
  lemma LookIsPaid(start: bool, p: Plan, rooms: seq<real>)
    requires Plain(p) && rooms != [] && Paid(start, p, rooms[..|rooms| - 1]) && Variation(rooms[..|rooms| - 1]) >= 0.0
    ensures Paid(start, p, rooms)
  {
    var front, room := rooms[..|rooms| - 1], rooms[|rooms| - 1];
    var was, latched := Latch(start, p, front), Latch(start, p, rooms);
    SwitchPoints(was, p, room);
    if front != [] && Cycles(start, p, front) >= 1 {
      MovePays(Cycles(start, p, front), Variation(front), was, front[|front| - 1], latched, room, p);
    }
  }

  lemma {:induction false} EveryCycleIsPaid(start: bool, p: Plan, rooms: seq<real>)
    requires Plain(p)
    ensures Variation(rooms) >= 0.0
    ensures Paid(start, p, rooms)
  {
    if rooms == [] {
    } else {
      EveryCycleIsPaid(start, p, rooms[..|rooms| - 1]);
      LookIsPaid(start, p, rooms);
    }
  }

  /** Main result. Between two activations the room has swung by the distance between start and stop twice, so the latch
      cycles at most once more than the total variation of the temperature over twice that distance. */
  lemma CyclesAreBounded(start: bool, p: Plan, rooms: seq<real>, n: nat, swing: real, variation: real)
    requires Plain(p) && n == Cycles(start, p, rooms) && n >= 1 && swing == Swing(p) && variation == Variation(rooms)
    ensures 2.0 * (n - 1) as real * swing <= variation
  {
    EveryCycleIsPaid(start, p, rooms);
    CostBound(n, swing, variation);
  }

  lemma CostBound(n: nat, swing: real, variation: real)
    requires n >= 1 && Cost(n, swing) <= variation
    ensures 2.0 * (n - 1) as real * swing <= variation
  {
    CostIsLinear(n, swing);
  }

  // ---- when heat is asked for ----------------------------------------------------------------------

  /** How close two temperatures count as equal. */
  function Tolerance(a: real, b: real): real { Max(CLOSE * Max(Abs(a), Abs(b)), CLOSE) }

  /** The room is short of the executable target by more than the stop difference. */
  predicate StillShort(p: Plan, room: real) {
    p.desired - room > p.deactivation + Tolerance(p.desired - room, p.deactivation)
  }

  /** The room is short of the unrounded target by the start difference. */
  predicate ShortEnough(p: Plan, room: real) {
    ActivationTarget(p) - room >= p.activation - Tolerance(ActivationTarget(p) - room, p.activation)
  }

  predicate BelowBound(p: Plan, room: real) { p.bound.Some? && room < p.bound.value }

  /** A latch that is set recovers a stop difference above the bound before it may be cleared. */
  predicate Recovering(p: Plan, room: real) {
    && p.bound.Some?
    && room < p.bound.value + p.deactivation - Tolerance(room, p.bound.value + p.deactivation)
  }

  lemma StartAndStop(p: Plan, room: real)
    requires DeltasValid(p)
    ensures StopReached(p, room) <==> !StillShort(p, room)
    ensures StartReached(p, room) <==> ShortEnough(p, room)
  {
  }

  /** Main result on single looks: heat is asked for exactly under Boost, below the comfort bound, while a set latch
      recovers from it, or when the room is still short of the target and the latch was set, or the shortfall is enough
      to start, or central heating is running anyway and there is any shortfall at all. */
  lemma DemandExactly(previous: bool, p: Plan, room: real)
    requires DeltasValid(p)
    ensures Next(previous, p, room) <==>
      || p.force || BelowBound(p, room) || (previous && Recovering(p, room))
      || (StillShort(p, room) && (previous || ShortEnough(p, room) || (p.assist && room < ActivationTarget(p))))
  {
    StartAndStop(p, room);
    if p.bound.Some? { RecoveryIsClose(room, p.bound.value + p.deactivation); }
  }

  lemma RecoveryIsClose(room: real, mark: real)
    ensures room < mark - Tolerance(room, mark) <==> room < mark && !IsClose(room, mark)
  {
  }

  /** So a cold room turns an off latch on, whatever else is configured: the start difference below the unrounded
      target, or below the executable one if that is the only one, and more than the stop difference below the
      executable one. */
  lemma ShortfallStarts(p: Plan, room: real)
    requires DeltasValid(p) && StillShort(p, room)
    requires room <= (match p.activationTarget case Some(unrounded) => unrounded case None => p.desired) - p.activation
    ensures Next(false, p, room)
  {
    DemandExactly(false, p, room);
  }

  /** A room warmer than the start point leaves an off latch off, and one warmer than the stop point clears a set one. */
  lemma WarmRoomRests(previous: bool, p: Plan, room: real)
    requires Plain(p)
    requires room > if previous then p.desired - p.deactivation else OnBelow(p)
    ensures !Next(previous, p, room)
  {
    DemandExactly(previous, p, room);
    if !previous && StartReached(p, room) { StartsBelow(p, room); }
    StartAndStop(p, room);
  }

  /** The reported shortfall is the executable one, and a decision under the bound, under Boost or by assistance says
      so. */
  lemma ReasonsAreTold(previous: bool, p: Plan, room: real)
    requires DeltasValid(p)
    ensures var d := Resolve(previous, p, room).value;
      && d.delta == p.desired - room
      && (d.why.BoostOverride? <==> p.force)
      && (d.why.ComfortLowerBound? <==> !p.force && BelowBound(p, room))
      && (d.why.ComfortRecovery? <==> !p.force && !BelowBound(p, room) && previous && Recovering(p, room))
      && (d.why.DeactivationThreshold? ==> previous && !StillShort(p, room))
      && (d.why.ActiveHold? ==> previous && StillShort(p, room))
      && (d.why.ActivationThreshold? ==> !previous && ShortEnough(p, room) && StillShort(p, room))
      && (d.why.RoundedTargetAtStop? ==> !previous && ShortEnough(p, room) && !StillShort(p, room))
      && (d.why.CentralAssist? ==> !previous && p.assist && !ShortEnough(p, room) && StillShort(p, room))
      && (d.why.BelowActivation? ==> !previous && !ShortEnough(p, room))
  {
    StartAndStop(p, room);
    if p.bound.Some? { RecoveryIsClose(room, p.bound.value + p.deactivation); }
  }

  /** Deltas out of order are refused, and only those. */
  lemma DisorderIsRefused(previous: bool, p: Plan, room: real)
    ensures Resolve(previous, p, room).None? <==> !(0.0 <= p.deactivation < p.activation)
  {
  }

  // ---- and how often it does cycle -----------------------------------------------------------------

  /** A room that swings n times from the start point up to the stop point, and ends cold. */
  function Swings(cold: real, hot: real, n: nat): seq<real> {
    if n == 0 then [] else if n == 1 then [cold] else Swings(cold, hot, n - 1) + [hot, cold]
  }

  lemma TwoMoreLooks(start: bool, p: Plan, rooms: seq<real>, hot: real, cold: real)
    requires DeltasValid(p)
    ensures var up, down := rooms + [hot], rooms + [hot, cold];
      && Latch(start, p, up) == Next(Latch(start, p, rooms), p, hot)
      && Latch(start, p, down) == Next(Latch(start, p, up), p, cold)
      && Cycles(start, p, up) == Cycles(start, p, rooms) + (if !Latch(start, p, rooms) && Latch(start, p, up) then 1 else 0)
      && Cycles(start, p, down) == Cycles(start, p, up) + (if !Latch(start, p, up) && Latch(start, p, down) then 1 else 0)
  {
    var up, down := rooms + [hot], rooms + [hot, cold];
    assert up[..|up| - 1] == rooms && down[..|down| - 1] == up;
  }

  lemma TwoMoreMoves(rooms: seq<real>, hot: real, cold: real)
    requires rooms != [] && rooms[|rooms| - 1] == cold <= hot
    ensures Variation(rooms + [hot, cold]) == Variation(rooms) + 2.0 * (hot - cold)
  {
    var up, down := rooms + [hot], rooms + [hot, cold];
    assert up[..|up| - 1] == rooms && down[..|down| - 1] == up;
    assert down[|down| - 2] == hot && up[|up| - 2] == cold;
  }

  /** The room crosses both points: cold enough to start with something left to do, warm enough to stop. */
  predicate Crosses(p: Plan, cold: real, hot: real) {
    && cold <= hot && cold <= ActivationTarget(p) - p.activation && StillShort(p, cold)
    && hot >= p.desired - p.deactivation
  }

  lemma CrossingSwitches(p: Plan, cold: real, hot: real, was: bool)
    requires Plain(p) && Crosses(p, cold, hot)
    ensures Next(was, p, cold) && !Next(true, p, hot)
  {
    DemandExactly(was, p, cold);
    DemandExactly(true, p, hot);
    StartAndStop(p, hot);
  }

  /** Every swing that crosses both points is a cycle. */
  lemma {:induction false} SwingsCycle(p: Plan, cold: real, hot: real, n: nat)
    requires Plain(p) && Crosses(p, cold, hot) && n >= 1
    ensures Cycles(false, p, Swings(cold, hot, n)) == n && Latch(false, p, Swings(cold, hot, n))
    ensures Swings(cold, hot, n) != [] && Swings(cold, hot, n)[|Swings(cold, hot, n)| - 1] == cold
    ensures Variation(Swings(cold, hot, n)) == Cost(n, hot - cold)
  {
    CrossingSwitches(p, cold, hot, false);
    if n == 1 {
      assert [cold][..0] == [];
    } else {
      var before := Swings(cold, hot, n - 1);
      SwingsCycle(p, cold, hot, n - 1);
      TwoMoreLooks(false, p, before, hot, cold);
      TwoMoreMoves(before, hot, cold);
    }
  }

  /** Main result, the other way round: with one target and distances well apart, n cycles can be had for 2(n - 1) times
      the distance between start and stop, so the bound is attained but for the two tolerances. */
  lemma CyclesAreAttained(p: Plan, n: nat, swing: real)
    requires Plain(p) && ActivationTarget(p) == p.desired && n >= 1 && swing == p.activation - p.deactivation
    requires StillShort(p, p.desired - p.activation)
    ensures swing == Swing(p) + 2.0 * Slack(p)
    ensures var rooms := Swings(p.desired - p.activation, p.desired - p.deactivation, n);
      Cycles(false, p, rooms) == n && Variation(rooms) == 2.0 * (n - 1) as real * swing
  {
    var cold, hot := p.desired - p.activation, p.desired - p.deactivation;
    assert hot - cold == swing;
    SwingsCycle(p, cold, hot, n);
    CostIsLinear(n, swing);
  }
}
