/** What the policy gives, and not only what it may not exceed: the full influence of a demand, the size of a setback,
    the way a Boost pushes, and how fast a request drifts. */
module PolicyLaw {
  import opened Contracts
  import Inverse
  import opened Policy

  // ---- critical demands ----------------------------------------------------------------------------

  /** An eligible location that may ask for this, and knows what for. */
  predicate AsksHeat(d: Demand) { d.eligible && (d.mode.ForHeating? || d.mode.ForBoth?) && d.heating.Solved? }

  predicate AsksCold(d: Demand) { d.eligible && (d.mode.ForCooling? || d.mode.ForBoth?) && d.cooling.Solved? }

  /** As far as a critical location may push: 2 C, and a quarter of the comfort width or 0.25 C short of its far edge. */
  function HeatCap(baseline: real, roots: Inverse.Roots): real
    requires roots.upper.Solved? && roots.lower.Solved?
  {
    Min(baseline + 2.0, roots.upper.room - Min(0.25, (roots.upper.room - roots.lower.room) / 4.0))
  }

  function ColdCap(baseline: real, roots: Inverse.Roots): real
    requires roots.upper.Solved? && roots.lower.Solved?
  {
    Max(baseline - 2.0, roots.lower.room + Min(0.25, (roots.upper.room - roots.lower.room) / 4.0))
  }

  /** Without a comfort range no location has any influence. */
  predicate HasRange(roots: Inverse.Roots) {
    roots.upper.Solved? && roots.lower.Solved? && roots.upper.room > roots.lower.room
  }

  /** The target every demand agrees on: no demand could get more within the caps, and it is more than the baseline only
      for a demand's sake. */
  ghost predicate IsRaised(h: real, baseline: real, roots: Inverse.Roots, ds: seq<Demand>) {
    if !HasRange(roots) then h == baseline
    else
      && h >= baseline
      && (forall d :: d in ds && AsksHeat(d) ==> h >= Min(d.heating.room, HeatCap(baseline, roots)))
      && (h > baseline ==> h <= HeatCap(baseline, roots) && exists d :: d in ds && AsksHeat(d) && h <= d.heating.room)
  }

  ghost predicate IsLowered(c: real, baseline: real, roots: Inverse.Roots, ds: seq<Demand>) {
    if !HasRange(roots) then c == baseline
    else
      && c <= baseline
      && (forall d :: d in ds && AsksCold(d) ==> c <= Max(d.cooling.room, ColdCap(baseline, roots)))
      && (c < baseline ==> c >= ColdCap(baseline, roots) && exists d :: d in ds && AsksCold(d) && c >= d.cooling.room)
  }

  /** There is only one such target. */
  lemma RaisedIsUnique(a: real, b: real, baseline: real, roots: Inverse.Roots, ds: seq<Demand>)
    requires IsRaised(a, baseline, roots, ds) && IsRaised(b, baseline, roots, ds)
    ensures a == b
  {
  }

  lemma LoweredIsUnique(a: real, b: real, baseline: real, roots: Inverse.Roots, ds: seq<Demand>)
    requires IsLowered(a, baseline, roots, ds) && IsLowered(b, baseline, roots, ds)
    ensures a == b
  {
  }

  lemma WishesAreAsked(d: Demand, baseline: real)
    ensures Wish(d, true, baseline) == if AsksHeat(d) && d.heating.room > baseline
                                       then Some(Pick(d.location, d.heating.room)) else None
    ensures Wish(d, false, baseline) == if AsksCold(d) && d.cooling.room < baseline
                                        then Some(Pick(d.location, d.cooling.room)) else None
  {
  }

  lemma RaiseIsFull(baseline: real, roots: Inverse.Roots, ds: seq<Demand>)
    ensures IsRaised(Raise(baseline, Select(ds, true, baseline), roots).0, baseline, roots, ds)
  {
    SelectIsWorst(ds, true, baseline);
    forall d | d in ds ensures Wish(d, true, baseline) == if AsksHeat(d) && d.heating.room > baseline
                                                          then Some(Pick(d.location, d.heating.room)) else None {
      WishesAreAsked(d, baseline);
    }
  }

  lemma LowerIsFull(baseline: real, roots: Inverse.Roots, ds: seq<Demand>)
    ensures IsLowered(Lower(baseline, Select(ds, false, baseline), roots).0, baseline, roots, ds)
  {
    SelectIsWorst(ds, false, baseline);
    forall d | d in ds ensures Wish(d, false, baseline) == if AsksCold(d) && d.cooling.room < baseline
                                                           then Some(Pick(d.location, d.cooling.room)) else None {
      WishesAreAsked(d, baseline);
    }
  }

  /** Main result on critical locations, the other half: they get all the influence they may have, unless the two ends
      of a range would come closer than the gap, which drops both. */
  lemma CriticalIsFull(roots: Inverse.Roots, ds: seq<Demand>, direction: Direction, minimumGap: real)
      returns (h: real, c: real)
    requires ApplyCritical(roots, ds, direction, minimumGap).Ok?
    ensures !direction.CoolingOnly? ==> roots.heating.Solved? && IsRaised(h, roots.heating.room, roots, ds)
    ensures !direction.HeatingOnly? ==> roots.cooling.Solved? && IsLowered(c, roots.cooling.room, roots, ds)
    ensures var t := ApplyCritical(roots, ds, direction, minimumGap).value;
      if direction.Ranged? && c - h < Max(1.0, minimumGap)
      then t == Critical(Some(roots.heating.room), Some(roots.cooling.room), None, None)
      else t.heating == (if direction.CoolingOnly? then None else Some(h))
           && t.cooling == if direction.HeatingOnly? then None else Some(c)
  {
    h, c := 0.0, 0.0;
    if !direction.CoolingOnly? {
      h := Raise(roots.heating.room, Select(ds, true, roots.heating.room), roots).0;
      RaiseIsFull(roots.heating.room, roots, ds);
    }
    if !direction.HeatingOnly? {
      c := Lower(roots.cooling.room, Select(ds, false, roots.cooling.room), roots).0;
      LowerIsFull(roots.cooling.room, roots, ds);
    }
  }

  /** And it fails exactly when an end the direction needs has no root, or the comfort targets themselves are too
      close. */
  lemma CriticalFails(roots: Inverse.Roots, ds: seq<Demand>, direction: Direction, minimumGap: real)
    ensures var r := ApplyCritical(roots, ds, direction, minimumGap);
      && (r == Err(MissingHeating) <==> !direction.CoolingOnly? && roots.heating.Unsolved?)
      && (r == Err(MissingCooling) <==>
            !direction.HeatingOnly? && roots.cooling.Unsolved? && (direction.CoolingOnly? || roots.heating.Solved?))
      && (r == Err(BandTooNarrow) <==>
            direction.Ranged? && roots.heating.Solved? && roots.cooling.Solved?
            && roots.cooling.room - roots.heating.room < Max(1.0, minimumGap))
      && (r.Err? ==> !r.failure.InvalidConfiguration?)
  {
  }

  /** The governing location is the one that asks for most, the first by name among equals. */
  lemma GoverningLocation(roots: Inverse.Roots, ds: seq<Demand>, direction: Direction, minimumGap: real)
    requires ApplyCritical(roots, ds, direction, minimumGap).Ok?
    ensures var t := ApplyCritical(roots, ds, direction, minimumGap).value;
      && (t.heatingGain.Some? ==>
            exists d :: d in ds && AsksHeat(d) && d.location == t.heatingGain.value.location
                        && t.heatingGain.value.requested == d.heating.room - roots.heating.room
                        && forall o :: o in ds && AsksHeat(o) ==>
                             o.heating.room < d.heating.room
                             || (o.heating.room == d.heating.room && d.location <= o.location)
                             || o.heating.room <= roots.heating.room)
      && (t.coolingGain.Some? ==>
            exists d :: d in ds && AsksCold(d) && d.location == t.coolingGain.value.location
                        && t.coolingGain.value.requested == d.cooling.room - roots.cooling.room
                        && forall o :: o in ds && AsksCold(o) ==>
                             o.cooling.room > d.cooling.room
                             || (o.cooling.room == d.cooling.room && d.location <= o.location)
                             || o.cooling.room >= roots.cooling.room)
  {
    if Heats(direction) { PickGoverns(ds, true, roots.heating.room); }
    if Cools(direction) { PickGoverns(ds, false, roots.cooling.room); }
  }

  ghost predicate Governs(d: Demand, p: Pick, ds: seq<Demand>, heat: bool, baseline: real) {
    && d in ds && d.location == p.location
    && if heat then
         && AsksHeat(d) && d.heating.room == p.value
         && forall o :: o in ds && AsksHeat(o) ==>
              o.heating.room < d.heating.room || (o.heating.room == d.heating.room && d.location <= o.location)
              || o.heating.room <= baseline
       else
         && AsksCold(d) && d.cooling.room == p.value
         && forall o :: o in ds && AsksCold(o) ==>
              o.cooling.room > d.cooling.room || (o.cooling.room == d.cooling.room && d.location <= o.location)
              || o.cooling.room >= baseline
  }

  lemma PickGoverns(ds: seq<Demand>, heat: bool, baseline: real)
    ensures var p := Select(ds, heat, baseline);
      p.Some? ==> exists d :: Governs(d, p.value, ds, heat, baseline)
  {
    var p := Select(ds, heat, baseline);
    SelectIsWorst(ds, heat, baseline);
    if p.Some? {
      var d :| d in ds && Wish(d, heat, baseline) == p;
      WishesAreAsked(d, baseline);
      forall o | o in ds && (if heat then AsksHeat(o) && o.heating.room > baseline
                             else AsksCold(o) && o.cooling.room < baseline)
        ensures Ahead(p.value, Pick(o.location, if heat then o.heating.room else o.cooling.room), heat)
      {
        WishesAreAsked(o, baseline);
      }
      assert Governs(d, p.value, ds, heat, baseline);
    }
  }

  // ---- setback -------------------------------------------------------------------------------------

  /** Degrees an Eco zone gives up: 2 mildly, 4 on a workday, or what is configured. */
  function GivenUp(intensity: Intensity, custom: real): real {
    match intensity
    case Mild => 2.0
    case Workday => 4.0
    case Custom => custom
    case Deep => custom
  }

  /** Eco lowers the heating end and raises the cooling end by that much, so it never asks for more than comfort does;
      out of Eco nothing moves; DEEP waits at the outer limits, with the critical influence on top. */
  lemma SetbackWidens(t: Critical, neutral: Option<real>, u: Update)
    requires u.boost.Off? && SettingsValid(u.settings)
    requires u.direction.Ranged? ==> t.heating.Some? && t.cooling.Some?
    ensures var r := Transformed(t, neutral, u);
      var s := u.settings;
      && (r.heating.Some? <==> t.heating.Some?) && (r.cooling.Some? <==> t.cooling.Some?)
      && r.phase.PhaseOff? && !r.reached && r.goalHeating.None? && r.goalCooling.None?
      && (u.profile.Comfort? ==> r.heating == t.heating && r.cooling == t.cooling)
      && (u.profile.Eco? && !u.intensity.Deep? ==>
            && (t.heating.Some? ==> t.heating.value - r.heating.value == GivenUp(u.intensity, s.ecoHeating) >= 0.0)
            && (t.cooling.Some? ==> r.cooling.value - t.cooling.value == GivenUp(u.intensity, s.ecoCooling) >= 0.0))
      && (u.profile.Eco? && u.intensity.Deep? ==>
            && (t.heating.Some? ==> r.heating.value - Applied(t.heatingGain) == s.inactiveHeating)
            && (t.cooling.Some? ==> r.cooling.value - Applied(t.coolingGain) == s.inactiveCooling))
  {
  }

  // ---- Boost ---------------------------------------------------------------------------------------

  /** A Boost aims its delta beyond neutral, towards more heat or more cold, no further than the outer limit; a
      configured goal of a one-way zone comes first. */
  lemma BoostAims(t: Critical, n: real, u: Update)
    requires !u.direction.Ranged?
    ensures var (h, c) := BoostGoals(t, Some(n), u);
      var s := u.settings;
      if u.direction.HeatingOnly? then
        && c == t.cooling && h.Some?
        && (s.boostGoal.Some? ==> h == s.boostGoal)
        && (s.boostGoal.None? ==> h.value <= s.inactiveCooling && h.value - n <= s.boostDelta
                                  && (h.value == s.inactiveCooling || h.value - n == s.boostDelta))
      else
        && h == t.heating && c.Some?
        && (s.boostGoal.Some? ==> c == s.boostGoal)
        && (s.boostGoal.None? ==> c.value >= s.inactiveHeating && n - c.value <= s.boostDelta
                                  && (c.value == s.inactiveHeating || n - c.value == s.boostDelta))
  {
  }

  /** In a range the two goals stay half a gap on their own side of neutral each, and are otherwise those. */
  lemma RangeBoostAims(t: Critical, n: real, u: Update)
    requires u.direction.Ranged? && t.heating.Some? && t.cooling.Some?
    ensures var (h, c) := BoostGoals(t, Some(n), u);
      var s := u.settings;
      && h.Some? && c.Some? && n - h.value >= s.gap / 2.0 && c.value - n >= s.gap / 2.0
      && h.value <= s.inactiveCooling && c.value >= s.inactiveHeating
      && h.value - n <= s.boostDelta && n - c.value <= s.boostDelta
      && (n - h.value == s.gap / 2.0 || h.value == s.inactiveCooling || h.value - n == s.boostDelta)
      && (c.value - n == s.gap / 2.0 || c.value == s.inactiveHeating || n - c.value == s.boostDelta)
  {
  }

  /** Without neutral a Boost keeps the comfort targets, except for a configured goal. */
  lemma BlindBoostKeeps(t: Critical, u: Update)
    requires u.direction.Ranged? ==> t.heating.Some? && t.cooling.Some?
    ensures var (h, c) := BoostGoals(t, None, u);
      var goal := u.settings.boostGoal;
      && h == (if u.direction.HeatingOnly? && goal.Some? then goal else t.heating)
      && c == (if u.direction.CoolingOnly? && goal.Some? then goal else t.cooling)
  {
  }

  /** Rapid Boost of a heating zone drives at the outer limit until the air has come within reach of the goal, then
      asks for the goal and stays with it; it holds while the air is at the goal. */
  lemma RapidHeats(t: Critical, neutral: Option<real>, u: Update)
    requires u.boost.Rapid? && u.direction.HeatingOnly? && BoostGoals(t, neutral, u).0.Some?
    ensures var r := Transformed(t, neutral, u);
      var goal := BoostGoals(t, neutral, u).0.value;
      && (r.reached <==> u.reachedBefore || u.air >= goal - u.settings.approach)
      && r.heating == Some(if r.reached then goal else u.settings.inactiveCooling) && r.cooling.None?
      && r.goalHeating == Some(goal) && r.goalCooling.None?
      && (r.phase.PhaseRapid? <==> !r.reached) && (r.phase.PhaseHold? <==> r.reached && u.air >= goal)
      && (r.phase.PhaseApproach? <==> r.reached && u.air < goal)
  {
  }

  lemma RapidCools(t: Critical, neutral: Option<real>, u: Update)
    requires u.boost.Rapid? && u.direction.CoolingOnly? && BoostGoals(t, neutral, u).1.Some?
    ensures var r := Transformed(t, neutral, u);
      var goal := BoostGoals(t, neutral, u).1.value;
      && (r.reached <==> u.reachedBefore || u.air <= goal + u.settings.approach)
      && r.cooling == Some(if r.reached then goal else u.settings.inactiveHeating) && r.heating.None?
      && r.goalCooling == Some(goal) && r.goalHeating.None?
      && (r.phase.PhaseRapid? <==> !r.reached) && (r.phase.PhaseHold? <==> r.reached && u.air <= goal)
      && (r.phase.PhaseApproach? <==> r.reached && u.air > goal)
  {
  }

  /** Any other Boost asks for its goals at once. */
  lemma AdaptiveBoostAsks(t: Critical, neutral: Option<real>, u: Update)
    requires u.direction.Ranged? ==> t.heating.Some? && t.cooling.Some?
    requires u.boost.Adaptive? || (u.boost.Rapid? && u.direction.Ranged?)
    ensures var r := Transformed(t, neutral, u);
      && (r.heating, r.cooling) == BoostGoals(t, neutral, u) && r.goalHeating == r.heating && r.goalCooling == r.cooling
      && r.phase.PhaseAdaptive? && !r.reached
  {
  }

  // ---- slewing -------------------------------------------------------------------------------------

  /** A request drifts towards its target at half a degree in ten minutes, and arrives: the change asked for, cut to
      what the time allows in its direction. */
  lemma SlewExactly(value: real, previous: real, elapsed: real)
    ensures var moved := Slew(Some(value), Some(previous), elapsed).value;
      var allowed := if elapsed > 0.0 then elapsed / 1200.0 else 0.0;
      && Abs(moved - previous) <= allowed
      && (Abs(value - previous) <= allowed ==> moved == value)
      && (value - previous > allowed ==> moved - previous == allowed)
      && (previous - value > allowed ==> previous - moved == allowed)
  {
  }

  /** A first request, and one that ends, are not slewed. */
  lemma FirstRequestIsImmediate(value: Option<real>, previous: Option<real>, elapsed: real)
    requires value.None? || previous.None?
    ensures Slew(value, previous, elapsed) == value
  {
  }

  /** An update drifts unless the user asked for it or a rapid Boost has just reached its goal; it is refused without
      valid settings, and without critical targets unless a heating Boost can aim at neutral alone. */
  lemma UpdateExactly(roots: Inverse.Roots, ds: seq<Demand>, u: Update, previous: Requested, elapsed: real, explicit: bool)
    ensures var r := Build(roots, ds, u, previous, elapsed, explicit);
      var critical := ApplyCritical(roots, ds, u.direction, u.settings.gap);
      var blind := u.direction.HeatingOnly? && !u.boost.Off? && roots.neutral.Solved?;
      && (r == Err(InvalidConfiguration) <==> !SettingsValid(u.settings))
      && (r.Ok? <==> SettingsValid(u.settings) && (critical.Ok? || blind))
      && (r.Err? && SettingsValid(u.settings) ==> r.failure == critical.failure)
      && (r.Ok? ==>
            var t := Transformed(if critical.Ok? then critical.value else Critical(None, None, None, None),
                                 if roots.neutral.Solved? then Some(roots.neutral.room) else None, u);
            var at := u.boost.Rapid? && t.reached && !u.reachedBefore;
            && r.value.heating == (if explicit || at then t.heating else Slew(t.heating, previous.heating, elapsed))
            && r.value.cooling == if explicit || at then t.cooling else Slew(t.cooling, previous.cooling, elapsed))
  {
    CriticalFails(roots, ds, u.direction, u.settings.gap);
  }

  /** Which settings are valid. */
  lemma ValidSettings(s: Settings)
    ensures SettingsValid(s) <==>
      && 1.0 <= s.gap && 0.0 <= s.ecoHeating && 0.0 <= s.ecoCooling && Abs(s.boostDelta) <= 3.0
      && 0.1 <= s.approach <= 5.0 && s.inactiveHeating < s.inactiveCooling
  {
  }
}
