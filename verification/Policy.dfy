/** From solved roots to requested targets: the worst demand of the critical locations, the setback or Boost on top,
    and the limit on how fast a request may drift. */
module Policy {
  import opened Contracts
  import Inverse

  const INFLUENCE := 2.0
  const EDGE_GUARD := 0.25
  const MILD_SETBACK := 2.0
  const WORKDAY_SETBACK := 4.0
  const SLEW_RATE := 0.5 / 600.0

  datatype Mode = Monitoring | ForHeating | ForCooling | ForBoth

  /** What one critical location asks for; `location` is its place in the order of the location names. */
  datatype Demand = Demand(location: int, mode: Mode, heating: Inverse.Root, cooling: Inverse.Root, eligible: bool)

  datatype Pick = Pick(location: int, value: real)

  datatype Contribution = Contribution(location: int, requested: real, applied: real)

  datatype Critical = Critical(
    heating: Option<real>, cooling: Option<real>, heatingGain: Option<Contribution>, coolingGain: Option<Contribution>)

  datatype Failure = MissingHeating | MissingCooling | BandTooNarrow | InvalidConfiguration

  datatype Result<T> = Ok(value: T) | Err(failure: Failure)

  function Success(root: Inverse.Root): Option<real> { if root.Solved? then Some(root.room) else None }

  // ---- the worst demand --------------------------------------------------------------------------

  /** What a location asks for beyond the baseline, if it may ask at all. */
  function Wish(d: Demand, heat: bool, baseline: real): Option<Pick> {
    var root := Success(if heat then d.heating else d.cooling);
    var speaks := d.eligible && (d.mode.ForBoth? || d.mode == (if heat then ForHeating else ForCooling));
    if speaks && root.Some? && (if heat then root.value > baseline else root.value < baseline)
    then Some(Pick(d.location, root.value)) else None
  }

  /** The more extreme of two wishes; between equals the first name. */
  predicate Ahead(a: Pick, b: Pick, heat: bool) {
    if a.value == b.value then a.location <= b.location else if heat then a.value > b.value else a.value < b.value
  }

  function Select(ds: seq<Demand>, heat: bool, baseline: real): Option<Pick> {
    if ds == [] then None
    else
      var rest, w := Select(ds[..|ds| - 1], heat, baseline), Wish(ds[|ds| - 1], heat, baseline);
      if rest.None? then w else if w.None? || Ahead(rest.value, w.value, heat) then rest else w
  }

  ghost predicate IsWorst(p: Option<Pick>, ds: seq<Demand>, heat: bool, baseline: real) {
    if p.None? then forall d :: d in ds ==> Wish(d, heat, baseline).None?
    else
      && (exists d :: d in ds && Wish(d, heat, baseline) == p)
      && forall d :: d in ds && Wish(d, heat, baseline).Some? ==> Ahead(p.value, Wish(d, heat, baseline).value, heat)
  }

  lemma {:induction false} SelectIsWorst(ds: seq<Demand>, heat: bool, baseline: real)
    ensures IsWorst(Select(ds, heat, baseline), ds, heat, baseline)
  {
    if ds != [] {
      var front, d := ds[..|ds| - 1], ds[|ds| - 1];
      SelectIsWorst(front, heat, baseline);
      assert d in ds && forall e :: e in ds <==> e in front || e == d;
    }
  }

  /** The governing location and what it asks for depend only on which demands there are, not on their order or on
      repetitions. */
  lemma SelectIgnoresOrder(ds: seq<Demand>, es: seq<Demand>, heat: bool, baseline: real)
    requires forall d :: d in ds <==> d in es
    ensures Select(ds, heat, baseline) == Select(es, heat, baseline)
  {
    SelectIsWorst(ds, heat, baseline);
    SelectIsWorst(es, heat, baseline);
    var a, b := Select(ds, heat, baseline), Select(es, heat, baseline);
    if a.Some? && b.Some? { assert Ahead(a.value, b.value, heat) && Ahead(b.value, a.value, heat); }
  }

  // ---- its bounded influence ---------------------------------------------------------------------

  predicate Heats(direction: Direction) { !direction.CoolingOnly? }

  predicate Cools(direction: Direction) { !direction.HeatingOnly? }

  predicate OuterKnown(roots: Inverse.Roots) {
    roots.lower.Solved? && roots.upper.Solved? && roots.upper.room > roots.lower.room
  }

  function Guard(lower: real, upper: real): real { Min(EDGE_GUARD, (upper - lower) / 4.0) }

  /** The heating target after the worst demand, and what that demand contributed. */
  function Raise(baseline: real, pick: Option<Pick>, roots: Inverse.Roots): (real, Option<Contribution>) {
    if pick.None? || !OuterKnown(roots) then (baseline, None)
    else
      var cap := Max(baseline, Min(baseline + INFLUENCE, roots.upper.room - Guard(roots.lower.room, roots.upper.room)));
      var applied := Min(Max(baseline, pick.value.value), cap);
      (applied, Some(Contribution(pick.value.location, pick.value.value - baseline, applied - baseline)))
  }

  function Lower(baseline: real, pick: Option<Pick>, roots: Inverse.Roots): (real, Option<Contribution>) {
    if pick.None? || !OuterKnown(roots) then (baseline, None)
    else
      var floor := Min(baseline, Max(baseline - INFLUENCE, roots.lower.room + Guard(roots.lower.room, roots.upper.room)));
      var applied := Max(Min(baseline, pick.value.value), floor);
      (applied, Some(Contribution(pick.value.location, pick.value.value - baseline, applied - baseline)))
  }

  function Applied(gain: Option<Contribution>): real { if gain.Some? then gain.value.applied else 0.0 }

  function ApplyCritical(roots: Inverse.Roots, ds: seq<Demand>, direction: Direction,
      minimumGap: real): Result<Critical> {
    var h, c := Success(roots.heating), Success(roots.cooling);
    var gap := Max(1.0, minimumGap);
    if Heats(direction) && h.None? then Err(MissingHeating)
    else if Cools(direction) && c.None? then Err(MissingCooling)
    else if direction.Ranged? && c.value - h.value < gap then Err(BandTooNarrow)
    else
      var heated := if Heats(direction) then Raise(h.value, Select(ds, true, h.value), roots) else (0.0, None);
      var cooled := if Cools(direction) then Lower(c.value, Select(ds, false, c.value), roots) else (0.0, None);
      if direction.Ranged? && cooled.0 - heated.0 < gap then Ok(Critical(h, c, None, None))
      else
        Ok(Critical(if Heats(direction) then Some(heated.0) else None,
                    if Cools(direction) then Some(cooled.0) else None, heated.1, cooled.1))
  }

  /** A critical location only ever asks for more heat or more cold, by at most 2 C, never past the comfort edge's
      guard, and never more than some eligible location asked for. */
  ghost predicate Directional(roots: Inverse.Roots, ds: seq<Demand>, direction: Direction, t: Critical) {
    && t.heating.Some? == Heats(direction) && t.cooling.Some? == Cools(direction)
    && (Heats(direction) ==>
          roots.heating.Solved? && RaisedWithin(t.heating.value, roots.heating.room, roots, ds)
          && t.heating.value == roots.heating.room + Applied(t.heatingGain))
    && (Cools(direction) ==>
          roots.cooling.Solved? && LoweredWithin(t.cooling.value, roots.cooling.room, roots, ds)
          && t.cooling.value == roots.cooling.room + Applied(t.coolingGain))
  }

  ghost predicate RaisedWithin(heating: real, baseline: real, roots: Inverse.Roots, ds: seq<Demand>) {
    && baseline <= heating <= baseline + INFLUENCE
    && (heating > baseline ==>
          && OuterKnown(roots) && heating <= roots.upper.room - Guard(roots.lower.room, roots.upper.room)
          && exists d :: d in ds && Wish(d, true, baseline).Some? && heating <= Wish(d, true, baseline).value.value)
  }

  ghost predicate LoweredWithin(cooling: real, baseline: real, roots: Inverse.Roots, ds: seq<Demand>) {
    && baseline - INFLUENCE <= cooling <= baseline
    && (cooling < baseline ==>
          && OuterKnown(roots) && cooling >= roots.lower.room + Guard(roots.lower.room, roots.upper.room)
          && exists d :: d in ds && Wish(d, false, baseline).Some? && cooling >= Wish(d, false, baseline).value.value)
  }

  lemma RaiseIsBounded(baseline: real, roots: Inverse.Roots, ds: seq<Demand>)
    ensures var (heating, gain) := Raise(baseline, Select(ds, true, baseline), roots);
      RaisedWithin(heating, baseline, roots, ds) && heating == baseline + Applied(gain)
  {
    SelectIsWorst(ds, true, baseline);
  }

  lemma LowerIsBounded(baseline: real, roots: Inverse.Roots, ds: seq<Demand>)
    ensures var (cooling, gain) := Lower(baseline, Select(ds, false, baseline), roots);
      LoweredWithin(cooling, baseline, roots, ds) && cooling == baseline + Applied(gain)
  {
    SelectIsWorst(ds, false, baseline);
  }

  /** Main result on critical locations: bounded, directional, order-independent influence that never closes the
      range. */
  lemma CriticalInfluence(roots: Inverse.Roots, ds: seq<Demand>, es: seq<Demand>, direction: Direction,
      minimumGap: real)
    requires forall d :: d in ds <==> d in es
    ensures var r := ApplyCritical(roots, ds, direction, minimumGap);
      && r == ApplyCritical(roots, es, direction, minimumGap)
      && (r.Ok? ==> Directional(roots, ds, direction, r.value))
      && (r.Ok? && direction.Ranged? ==> r.value.cooling.value - r.value.heating.value >= Max(1.0, minimumGap))
  {
    if roots.heating.Solved? {
      SelectIgnoresOrder(ds, es, true, roots.heating.room);
      RaiseIsBounded(roots.heating.room, roots, ds);
    }
    if roots.cooling.Solved? {
      SelectIgnoresOrder(ds, es, false, roots.cooling.room);
      LowerIsBounded(roots.cooling.room, roots, ds);
    }
  }

  // ---- setback and Boost -------------------------------------------------------------------------

  datatype Profile = Comfort | Eco

  datatype Boost = Off | Adaptive | Rapid

  datatype Intensity = Mild | Workday | Custom | Deep

  datatype Settings = Settings(
    gap: real, ecoHeating: real, ecoCooling: real, inactiveHeating: real, inactiveCooling: real,
    boostDelta: real, approach: real, boostGoal: Option<real>)

  predicate SettingsValid(s: Settings) {
    && s.gap >= 1.0 && s.ecoHeating >= 0.0 && s.ecoCooling >= 0.0 && -3.0 <= s.boostDelta <= 3.0
    && 0.1 <= s.approach <= 5.0 && s.inactiveHeating < s.inactiveCooling
  }

  datatype Phase = PhaseOff | PhaseAdaptive | PhaseRapid | PhaseApproach | PhaseHold

  datatype Transform = Transform(
    heating: Option<real>, cooling: Option<real>, phase: Phase, reached: bool,
    goalHeating: Option<real>, goalCooling: Option<real>)

  /** What one update is told besides the roots and demands. */
  datatype Update = Update(
    direction: Direction, profile: Profile, boost: Boost, air: real, reachedBefore: bool,
    intensity: Intensity, settings: Settings)

  function Setback(intensity: Intensity, custom: real): real {
    if intensity.Mild? then MILD_SETBACK else if intensity.Workday? then WORKDAY_SETBACK else custom
  }

  function Plus(a: Option<real>, d: real): Option<real> { if a.Some? then Some(a.value + d) else None }

  /** The Boost goals: neutral shifted by the configured delta within the outer limits, kept apart in a range. */
  function BoostGoals(t: Critical, neutral: Option<real>, u: Update): (Option<real>, Option<real>)
    requires u.direction.Ranged? ==> t.heating.Some? && t.cooling.Some?
  {
    var s := u.settings;
    var h := if Heats(u.direction) && neutral.Some? then Some(Min(neutral.value + s.boostDelta, s.inactiveCooling))
             else t.heating;
    var c := if Cools(u.direction) && neutral.Some? then Some(Max(neutral.value - s.boostDelta, s.inactiveHeating))
             else t.cooling;
    if u.direction.Ranged? && neutral.Some? then
      (Some(Min(h.value, neutral.value - s.gap / 2.0)), Some(Max(c.value, neutral.value + s.gap / 2.0)))
    else if s.boostGoal.Some? && u.direction.HeatingOnly? then (s.boostGoal, c)
    else if s.boostGoal.Some? && u.direction.CoolingOnly? then (h, s.boostGoal)
    else (h, c)
  }

  function Transformed(t: Critical, neutral: Option<real>, u: Update): Transform
    requires u.direction.Ranged? ==> t.heating.Some? && t.cooling.Some?
  {
    var s := u.settings;
    if u.boost.Off? then
      if u.profile.Eco? && u.intensity.Deep? then
        Transform(if t.heating.Some? then Some(s.inactiveHeating + Applied(t.heatingGain)) else None,
                  if t.cooling.Some? then Some(s.inactiveCooling + Applied(t.coolingGain))
                  else None, PhaseOff, false, None, None)
      else if u.profile.Eco? then
        Transform(Plus(t.heating, -Setback(u.intensity, s.ecoHeating)), Plus(t.cooling, Setback(u.intensity, s.ecoCooling)),
                  PhaseOff, false, None, None)
      else Transform(t.heating, t.cooling, PhaseOff, false, None, None)
    else
      var (h, c) := BoostGoals(t, neutral, u);
      if u.boost.Rapid? && u.direction.HeatingOnly? && h.Some? then
        var reached := u.reachedBefore || u.air >= h.value - s.approach;
        Transform(if reached then h else Some(s.inactiveCooling), None,
                  if !reached then PhaseRapid
                  else if u.air >= h.value then PhaseHold else PhaseApproach, reached, h, None)
      else if u.boost.Rapid? && u.direction.CoolingOnly? && c.Some? then
        var reached := u.reachedBefore || u.air <= c.value + s.approach;
        Transform(None, if reached then c else Some(s.inactiveHeating),
                  if !reached then PhaseRapid
                  else if u.air <= c.value then PhaseHold else PhaseApproach, reached, None, c)
      else Transform(h, c, PhaseAdaptive, false, h, c)
  }

  // ---- slewing -----------------------------------------------------------------------------------

  function Allowance(elapsed: real): real { Max(0.0, elapsed) * SLEW_RATE }

  function Slew(value: Option<real>, previous: Option<real>, elapsed: real): Option<real> {
    if value.None? || previous.None? then value
    else Some(Clamp(value.value, previous.value - Allowance(elapsed), previous.value + Allowance(elapsed)))
  }

  /** A drifting request does not depend on how often it is recomputed: two slews towards one target are one slew over
      the sum of the times. */
  lemma SlewingComposes(value: Option<real>, previous: Option<real>, first: real, second: real)
    requires first >= 0.0 && second >= 0.0
    ensures Slew(value, Slew(value, previous, first), second) == Slew(value, previous, first + second)
  {
    assert Allowance(first + second) == Allowance(first) + Allowance(second);
  }

  /** Slewing both ends independently keeps any gap both pairs have. */
  lemma SlewKeepsGap(h: real, c: real, h0: real, c0: real, elapsed: real, gap: real)
    requires c - h >= gap && c0 - h0 >= gap
    ensures Slew(Some(c), Some(c0), elapsed).value - Slew(Some(h), Some(h0), elapsed).value >= gap
  {
    assert Allowance(elapsed) >= 0.0;
  }

  // ---- one update, and runs of them --------------------------------------------------------------

  datatype Requested = Requested(heating: Option<real>, cooling: Option<real>)

  const NOTHING := Requested(None, None)

  function Build(roots: Inverse.Roots, ds: seq<Demand>, u: Update, previous: Requested, elapsed: real,
      explicit: bool): Result<Requested> {
    if !SettingsValid(u.settings) then Err(InvalidConfiguration)
    else
      var critical := ApplyCritical(roots, ds, u.direction, u.settings.gap);
      var neutral := Success(roots.neutral);
      if critical.Err? && !(u.direction.HeatingOnly? && !u.boost.Off? && neutral.Some?) then Err(critical.failure)
      else
        var t := Transformed(if critical.Ok? then critical.value else Critical(None, None, None, None), neutral, u);
        var reachedNow := u.boost.Rapid? && t.reached && !u.reachedBefore;
        if explicit || reachedNow then Ok(Requested(t.heating, t.cooling))
        else Ok(Requested(Slew(t.heating, previous.heating, elapsed), Slew(t.cooling, previous.cooling, elapsed)))
  }

  /** One update as the zone sees it. A refused update leaves the previous request in place. */
  datatype Tick = Tick(roots: Inverse.Roots, demands: seq<Demand>, update: Update, elapsed: real, explicit: bool)

  function After(previous: Requested, t: Tick): Requested {
    var r := Build(t.roots, t.demands, t.update, previous, t.elapsed, t.explicit);
    if r.Ok? then r.value else previous
  }

  function Requests(ticks: seq<Tick>): Requested {
    if ticks == [] then NOTHING else After(Requests(ticks[..|ticks| - 1]), ticks[|ticks| - 1])
  }

  predicate UsesDeep(u: Update) { u.boost.Off? && u.profile.Eco? && u.intensity.Deep? }

  /** The inactive limits leave room for the gap even after both critical influences. */
  predicate LimitsAreWide(s: Settings) { s.inactiveCooling - s.inactiveHeating >= s.gap + 2.0 * INFLUENCE }

  predicate Apart(r: Requested, gap: real) {
    r == NOTHING || (r.heating.Some? && r.cooling.Some? && r.cooling.value - r.heating.value >= gap)
  }

  lemma TransformKeepsGap(t: Critical, neutral: Option<real>, u: Update)
    requires SettingsValid(u.settings) && u.direction.Ranged?
    requires t.heating.Some? && t.cooling.Some? && t.cooling.value - t.heating.value >= u.settings.gap
    requires Applied(t.heatingGain) <= INFLUENCE && Applied(t.coolingGain) >= -INFLUENCE
    requires UsesDeep(u) ==> LimitsAreWide(u.settings)
    ensures var r := Transformed(t, neutral, u);
      && r.heating.Some? && r.cooling.Some? && !r.reached
      && r.cooling.value - r.heating.value >= u.settings.gap
  {
  }

  lemma UpdateKeepsGap(previous: Requested, t: Tick)
    requires t.update.direction.Ranged? && Apart(previous, t.update.settings.gap)
    requires UsesDeep(t.update) ==> LimitsAreWide(t.update.settings)
    ensures Apart(After(previous, t), t.update.settings.gap)
  {
    var u := t.update;
    var critical := ApplyCritical(t.roots, t.demands, u.direction, u.settings.gap);
    if SettingsValid(u.settings) && critical.Ok? {
      CriticalInfluence(t.roots, t.demands, t.demands, u.direction, u.settings.gap);
      TransformKeepsGap(critical.value, Success(t.roots.neutral), u);
      var r := Transformed(critical.value, Success(t.roots.neutral), u);
      if previous != NOTHING {
        SlewKeepsGap(r.heating.value, r.cooling.value, previous.heating.value, previous.cooling.value,
                     t.elapsed, u.settings.gap);
      }
    }
  }

  /** Main result. From no previous request, over any run of ranged updates with one gap and no DEEP setback between
      narrow limits, the two requested ends never come closer than the gap: not through critical demands, setback,
      Boost, failed updates or the two ends slewing at different times. */
  lemma {:induction false} RequestsStayApart(ticks: seq<Tick>, gap: real)
    requires forall t :: t in ticks ==>
      && t.update.direction.Ranged? && t.update.settings.gap == gap
      && (UsesDeep(t.update) ==> LimitsAreWide(t.update.settings))
    ensures Apart(Requests(ticks), gap)
  {
    if ticks == [] {
    } else {
      RequestsStayApart(ticks[..|ticks| - 1], gap);
      UpdateKeepsGap(Requests(ticks[..|ticks| - 1]), ticks[|ticks| - 1]);
    }
  }

  function RootAt(celsius: real): Inverse.Root { Inverse.Solved(celsius, celsius, 0.0, 0.0, 0) }

  /** One location wants 17 C of heating, another 15 C of cooling, around comfort roots from 12 C up. */
  function Narrowing(s: Settings): Tick {
    var roots := Inverse.Roots(RootAt(12.0), RootAt(14.0), RootAt(16.0), RootAt(18.0 + s.gap), RootAt(20.0 + s.gap));
    var demands := [Demand(1, ForHeating, RootAt(17.0), RootAt(17.0), true),
                    Demand(2, ForCooling, RootAt(15.0), RootAt(15.0), true)];
    Tick(roots, demands, Update(Ranged, Eco, Off, 20.0, false, Deep, s), 0.0, true)
  }

  /** Solved, and where the solver looks. */
  predicate Searched(r: Inverse.Root) { r.Solved? && 5.0 <= r.room <= 40.0 }

  lemma TwoDemands(a: Demand, b: Demand, heat: bool, baseline: real)
    requires Wish(if heat then a else b, heat, baseline).Some? && Wish(if heat then b else a, heat, baseline).None?
    ensures Select([a, b], heat, baseline) == Wish(if heat then a else b, heat, baseline)
  {
    assert [a, b][..1] == [a] && [a][..0] == [];
    assert Select([a], heat, baseline) == Wish(a, heat, baseline);
  }

  /** The DEEP setback really can close the gap: between any narrow limits there are roots and demands that do it. For
      every gap a zone may configure, up to 10 C, all of them lie where the solver searches. */
  lemma DeepClosesNarrowGap(s: Settings)
    requires SettingsValid(s) && !LimitsAreWide(s)
    ensures !Apart(Requests([Narrowing(s)]), s.gap)
    ensures s.gap <= 10.0 ==>
      var t := Narrowing(s);
      && Searched(t.roots.lower) && Searched(t.roots.heating) && Searched(t.roots.neutral) && Searched(t.roots.cooling)
      && Searched(t.roots.upper) && forall d :: d in t.demands ==> Searched(d.heating) && Searched(d.cooling)
  {
    var t := Narrowing(s);
    assert [t][..0] == [];
    assert Requests([t]) == After(NOTHING, t);
    TwoDemands(t.demands[0], t.demands[1], true, 14.0);
    TwoDemands(t.demands[0], t.demands[1], false, 18.0 + s.gap);
  }

  // ---- the same steps as the program takes them ---------------------------------------------------

  method ApplyCriticalDemands(roots: Inverse.Roots, ds: seq<Demand>, direction: Direction, minimumGap: real)
    returns (r: Result<Critical>)
    ensures r == ApplyCritical(roots, ds, direction, minimumGap)
  {
    var heatingBaseline, coolingBaseline := Success(roots.heating), Success(roots.cooling);
    if Heats(direction) && heatingBaseline.None? { return Err(MissingHeating); }
    if Cools(direction) && coolingBaseline.None? { return Err(MissingCooling); }
    var gap := Max(1.0, minimumGap);
    if direction.Ranged? && coolingBaseline.value - heatingBaseline.value < gap { return Err(BandTooNarrow); }
    var heating := if Heats(direction) then heatingBaseline else None;
    var cooling := if Cools(direction) then coolingBaseline else None;
    var heatingGain, coolingGain := None, None;
    if heating.Some? {
      var pick := Select(ds, true, heating.value);
      if pick.Some? && OuterKnown(roots) {
        var guard := Guard(roots.lower.room, roots.upper.room);
        var cap := Max(heating.value, Min(heating.value + INFLUENCE, roots.upper.room - guard));
        var applied := Min(Max(heating.value, pick.value.value), cap);
        heatingGain := Some(Contribution(pick.value.location, pick.value.value - heating.value, applied - heating.value));
        heating := Some(applied);
      }
    }
    if cooling.Some? {
      var pick := Select(ds, false, cooling.value);
      if pick.Some? && OuterKnown(roots) {
        var guard := Guard(roots.lower.room, roots.upper.room);
        var floor := Min(cooling.value, Max(cooling.value - INFLUENCE, roots.lower.room + guard));
        var applied := Max(Min(cooling.value, pick.value.value), floor);
        coolingGain := Some(Contribution(pick.value.location, pick.value.value - cooling.value, applied - cooling.value));
        cooling := Some(applied);
      }
    }
    if direction.Ranged? && cooling.value - heating.value < gap {
      heating, cooling, heatingGain, coolingGain := heatingBaseline, coolingBaseline, None, None;
    }
    r := Ok(Critical(heating, cooling, heatingGain, coolingGain));
  }

  method BoostTargets(t: Critical, neutral: Option<real>, u: Update)
    returns (heating: Option<real>, cooling: Option<real>)
    requires u.direction.Ranged? ==> t.heating.Some? && t.cooling.Some?
    ensures (heating, cooling) == BoostGoals(t, neutral, u)
  {
    var s := u.settings;
    heating, cooling := t.heating, t.cooling;
    if Heats(u.direction) && neutral.Some? { heating := Some(Min(neutral.value + s.boostDelta, s.inactiveCooling)); }
    if Cools(u.direction) && neutral.Some? { cooling := Some(Max(neutral.value - s.boostDelta, s.inactiveHeating)); }
    if u.direction.Ranged? && neutral.Some? {
      var half := s.gap / 2.0;
      heating, cooling := Some(Min(heating.value, neutral.value - half)), Some(Max(cooling.value, neutral.value + half));
    }
    if s.boostGoal.Some? {
      if u.direction.HeatingOnly? { heating := s.boostGoal; }
      else if u.direction.CoolingOnly? { cooling := s.boostGoal; }
    }
  }
}
