/** One zone calculation: every location's search interval, and one evaluation budget for all of them. */
module ZonePipeline {
  import opened Contracts
  import opened Inverse
  import opened Psychrometrics
  import opened RootSolver
  import opened RootExistence

  const SEARCH_MIN := 5.0
  const SEARCH_MAX := 40.0
  const MARGIN := 0.001
  const MAX_CRITICAL: nat := 8

  datatype Forward = Felt(vote: real) | ForwardFailed(code: Code)

  /** The forward comfort model with everything but room, local temperature and humidity frozen. */
  type Model = (real, real, real) -> Forward

  datatype Location = Location(moisture: Moisture, delta: real, model: Model)

  function CodeOf(code: MoistureCode): Code { if code.Supersaturated? then MoistureLimited else OutsideDomain }

  /** One candidate: local temperature, humidity at constant moisture, then the forward model. Beyond
      saturation the descriptive variant goes on at 100 percent. */
  function CandidateAt(c: Curve, at: Location, beyond: bool, room: real): Candidate {
    var local := room - at.delta;
    var h := CandidateHumidity(c, at.moisture, local);
    if h.HumidityFailed? && !(beyond && h.code.Supersaturated?) then Missed(CodeOf(h.code))
    else
      match at.model(room, local, if h.Humid? then h.rh else 100.0)
      case ForwardFailed(code) => Missed(code)
      case Felt(vote) => Found(Point(room, local, vote))
  }

  function EvaluatorOf(c: Curve, at: Location, beyond: bool): Evaluator {
    (room: real) => CandidateAt(c, at, beyond, room)
  }

  function DomainLow(delta: real): real { Max(SEARCH_MIN, SEARCH_MIN + delta) }

  function DomainHigh(delta: real): real { Min(SEARCH_MAX, SEARCH_MAX + delta) }

  /** The dew point plus its margin lifts the lower end. */
  function SearchLow(d: Dew, delta: real): real {
    if d.DewAt? then Max(DomainLow(delta), d.t + MARGIN + delta) else DomainLow(delta)
  }

  function SolveLocation(c: Curve, l: Limits, used: nat, at: Location, v: Votes): (Roots, nat) {
    var d := DewPoint(c, at.moisture);
    if d.DewFailed? then (AllFail(CodeOf(d.code), used), used)
    else
      var low := SearchLow(d, at.delta);
      Solve(EvaluatorOf(c, at, false), l, used, v, low, DomainHigh(at.delta),
            low > DomainLow(at.delta) + 0.000000000001)
  }

  predicate Dried(r: Root) { r.Unsolved? && r.code.MoistureLimited? }

  /** Only the two descriptive outer roots may be completed beyond saturation. */
  function Complete(c: Curve, l: Limits, used: nat, at: Location, v: Votes, r: Roots): (Roots, nat) {
    if !Dried(r.lower) && !Dried(r.upper) then (r, used)
    else
      var (w, u) := Solve(EvaluatorOf(c, at, true), l, used, v, DomainLow(at.delta), DomainHigh(at.delta), false);
      (r.(lower := if Dried(r.lower) && w.lower.Solved? then w.lower else r.lower,
          upper := if Dried(r.upper) && w.upper.Solved? then w.upper else r.upper), u)
  }

  function SolveCritical(c: Curve, l: Limits, used: nat, ats: seq<Location>, v: Votes): (seq<Roots>, nat) {
    if ats == [] then ([], used)
    else
      var (done, u) := SolveCritical(c, l, used, ats[..|ats| - 1], v);
      var (r, w) := SolveLocation(c, l, u, ats[|ats| - 1], v);
      (done + [r], w)
  }

  datatype Zone = Zone(roots: Roots, critical: seq<Roots>, used: nat)

  /** The current conditions cost one evaluation; then the five roots, then the descriptive completion. */
  function PrimaryRoots(c: Curve, l: Limits, primary: Location, v: Votes): (Roots, nat) {
    var (r, u) := SolveLocation(c, l, if l.budget > 0 then 1 else 0, primary, v);
    Complete(c, l, u, primary, v, r)
  }

  /** `eligible` is the policy's decision, from the primary roots, whether to go on to the critical locations. */
  function ZoneRoots(c: Curve, l: Limits, primary: Location, critical: seq<Location>, v: Votes,
      eligible: Roots -> bool): Zone {
    var (full, w) := PrimaryRoots(c, l, primary, v);
    AfterPrimary(c, l, full, w, critical, v, eligible)
  }

  function AfterPrimary(c: Curve, l: Limits, full: Roots, used: nat, critical: seq<Location>, v: Votes,
      eligible: Roots -> bool): Zone {
    if !eligible(full) then Zone(full, [], used)
    else
      var (rs, u) := SolveCritical(c, l, used, critical, v);
      Zone(full, rs, u)
  }

  // ---- as it runs --------------------------------------------------------------------------------

  method SolveFiveRoots(c: Curve, b: EvaluationBudget, at: Location, v: Votes) returns (r: Roots)
    modifies b
    ensures (r, b.used) == SolveLocation(c, Limits(b.limit, ZONE_LIMITS.halvings), old(b.used), at, v)
  {
    var d := FindDewPoint(c, at.moisture);
    if d.DewFailed? { return AllFail(CodeOf(d.code), b.used); }
    var low := SearchLow(d, at.delta);
    r := SolveRequestedRoots(EvaluatorOf(c, at, false), b, v, low, DomainHigh(at.delta),
                             low > DomainLow(at.delta) + 0.000000000001);
  }

  method CompleteComfortRange(c: Curve, b: EvaluationBudget, at: Location, v: Votes, given: Roots) returns (r: Roots)
    modifies b
    ensures (r, b.used) == Complete(c, Limits(b.limit, ZONE_LIMITS.halvings), old(b.used), at, v, given)
  {
    if !Dried(given.lower) && !Dried(given.upper) { return given; }
    var wide := SolveRequestedRoots(EvaluatorOf(c, at, true), b, v, DomainLow(at.delta), DomainHigh(at.delta), false);
    r := given.(lower := if Dried(given.lower) && wide.lower.Solved? then wide.lower else given.lower,
                upper := if Dried(given.upper) && wide.upper.Solved? then wide.upper else given.upper);
  }

  method SolveCriticalLocations(c: Curve, b: EvaluationBudget, critical: seq<Location>, v: Votes)
    returns (rs: seq<Roots>)
    modifies b
    ensures (rs, b.used) == SolveCritical(c, Limits(b.limit, ZONE_LIMITS.halvings), old(b.used), critical, v)
  {
    rs := [];
    for k := 0 to |critical|
      invariant (rs, b.used) ==
        SolveCritical(c, Limits(b.limit, ZONE_LIMITS.halvings), old(b.used), critical[..k], v)
    {
      var r := SolveFiveRoots(c, b, critical[k], v);
      rs := rs + [r];
      assert critical[..k + 1][..k] == critical[..k];
    }
    assert critical[..|critical|] == critical;
  }

  method CalculateZoneRoots(c: Curve, primary: Location, critical: seq<Location>, v: Votes, eligible: Roots -> bool)
      returns (roots: Roots, solutions: seq<Roots>, evaluations: nat)
    ensures Zone(roots, solutions, evaluations) == ZoneRoots(c, ZONE_LIMITS, primary, critical, v, eligible)
  {
    var b := new EvaluationBudget(ZONE_LIMITS.budget);
    var _ := b.Consume();
    var five := SolveFiveRoots(c, b, primary, v);
    roots := CompleteComfortRange(c, b, primary, v, five);
    solutions := [];
    if eligible(roots) { solutions := SolveCriticalLocations(c, b, critical, v); }
    evaluations := b.used;
  }

  // ---- laws --------------------------------------------------------------------------------------

  lemma EvaluatorsEcho(c: Curve, at: Location, beyond: bool)
    ensures Inverse.Echoes(EvaluatorOf(c, at, beyond))
  {
  }

  /** Every candidate the search can try passes the saturation check, at a local temperature in [5, 40]. */
  lemma EveryCandidateIsUsable(c: Curve, at: Location, room: real)
    requires Saturating(c) && !DewPoint(c, at.moisture).DewFailed?
    requires SearchLow(DewPoint(c, at.moisture), at.delta) <= room <= DomainHigh(at.delta)
    ensures SEARCH_MIN <= room - at.delta <= SEARCH_MAX
    ensures CandidateHumidity(c, at.moisture, room - at.delta).Humid?
    ensures CandidateAt(c, at, false, room) == CandidateAt(c, at, true, room)
  {
    WarmerIsUnsaturated(c, at.moisture, room - at.delta);
  }

  lemma LocationCost(c: Curve, l: Limits, m: Limits, used: nat, at: Location, v: Votes)
    requires l.halvings >= HALVINGS && m.halvings >= HALVINGS
    requires used + SOLVE_COST <= l.budget && used + SOLVE_COST <= m.budget
    ensures SolveLocation(c, l, used, at, v) == SolveLocation(c, m, used, at, v)
    ensures SolveLocation(c, l, used, at, v).1 <= used + SOLVE_COST
  {
    var d := DewPoint(c, at.moisture);
    EvaluatorsEcho(c, at, false);
    var low := SearchLow(d, at.delta);
    SolveIsCheap(EvaluatorOf(c, at, false), l, m, used, v, low, DomainHigh(at.delta),
                 low > DomainLow(at.delta) + 0.000000000001);
  }

  lemma CompleteCost(c: Curve, l: Limits, m: Limits, used: nat, at: Location, v: Votes, r: Roots)
    requires l.halvings >= HALVINGS && m.halvings >= HALVINGS
    requires used + SOLVE_COST <= l.budget && used + SOLVE_COST <= m.budget
    ensures Complete(c, l, used, at, v, r) == Complete(c, m, used, at, v, r)
    ensures Complete(c, l, used, at, v, r).1 <= used + SOLVE_COST
  {
    EvaluatorsEcho(c, at, true);
    SolveIsCheap(EvaluatorOf(c, at, true), l, m, used, v, DomainLow(at.delta), DomainHigh(at.delta), false);
  }

  lemma {:induction false} CriticalCost(c: Curve, l: Limits, m: Limits, used: nat, ats: seq<Location>, v: Votes)
    requires l.halvings >= HALVINGS && m.halvings >= HALVINGS
    requires used + SOLVE_COST * |ats| <= l.budget && used + SOLVE_COST * |ats| <= m.budget
    ensures SolveCritical(c, l, used, ats, v) == SolveCritical(c, m, used, ats, v)
    ensures SolveCritical(c, l, used, ats, v).1 <= used + SOLVE_COST * |ats|
  {
    if ats != [] {
      var fewer := ats[..|ats| - 1];
      CriticalCost(c, l, m, used, fewer, v);
      LocationCost(c, l, m, SolveCritical(c, l, used, fewer, v).1, ats[|ats| - 1], v);
    }
  }

  lemma PrimaryCost(c: Curve, l: Limits, m: Limits, primary: Location, v: Votes)
    requires l.halvings >= HALVINGS && m.halvings >= HALVINGS
    requires 1 + 2 * SOLVE_COST <= l.budget && 1 + 2 * SOLVE_COST <= m.budget
    ensures PrimaryRoots(c, l, primary, v) == PrimaryRoots(c, m, primary, v)
    ensures PrimaryRoots(c, l, primary, v).1 <= 1 + 2 * SOLVE_COST
  {
    LocationCost(c, l, m, 1, primary, v);
    var (r, u) := SolveLocation(c, l, 1, primary, v);
    CompleteCost(c, l, m, u, primary, v, r);
  }

  const ZONE_COST: nat := 1 + SOLVE_COST * (2 + MAX_CRITICAL)

  lemma NoMoreThanEight(n: nat)
    requires n <= MAX_CRITICAL
    ensures 1 + 2 * SOLVE_COST + SOLVE_COST * n <= ZONE_COST
  {
  }

  lemma CriticalFits(c: Curve, l: Limits, m: Limits, used: nat, critical: seq<Location>, v: Votes)
    requires l.halvings >= HALVINGS && m.halvings >= HALVINGS && l.budget >= ZONE_COST && m.budget >= ZONE_COST
    requires |critical| <= MAX_CRITICAL && used <= 1 + 2 * SOLVE_COST
    ensures SolveCritical(c, l, used, critical, v) == SolveCritical(c, m, used, critical, v)
    ensures SolveCritical(c, l, used, critical, v).1 <= ZONE_COST
  {
    NoMoreThanEight(|critical|);
    CriticalCost(c, l, m, used, critical, v);
  }

  lemma RestFits(c: Curve, l: Limits, m: Limits, full: Roots, used: nat, critical: seq<Location>, v: Votes,
                 eligible: Roots -> bool)
    requires l.halvings >= HALVINGS && m.halvings >= HALVINGS && l.budget >= ZONE_COST && m.budget >= ZONE_COST
    requires |critical| <= MAX_CRITICAL && used <= 1 + 2 * SOLVE_COST
    ensures AfterPrimary(c, l, full, used, critical, v, eligible) == AfterPrimary(c, m, full, used, critical, v, eligible)
    ensures AfterPrimary(c, l, full, used, critical, v, eligible).used <= ZONE_COST
  {
    CriticalFits(c, l, m, used, critical, v);
  }

  lemma ZoneFits(c: Curve, l: Limits, m: Limits, primary: Location, critical: seq<Location>, v: Votes,
                 eligible: Roots -> bool)
    requires l.halvings >= HALVINGS && m.halvings >= HALVINGS && l.budget >= ZONE_COST && m.budget >= ZONE_COST
    requires |critical| <= MAX_CRITICAL
    ensures ZoneRoots(c, l, primary, critical, v, eligible).used <= ZONE_COST
    ensures ZoneRoots(c, l, primary, critical, v, eligible) == ZoneRoots(c, m, primary, critical, v, eligible)
  {
    PrimaryCost(c, l, m, primary, v);
    RestFits(c, l, m, PrimaryRoots(c, l, primary, v).0, PrimaryRoots(c, l, primary, v).1, critical, v, eligible);
  }

  /** A zone with up to eight critical locations spends at most 781 evaluations, and no budget of 781 or more and
      no cap of 8 halvings or more can change any of its roots: the caps of 3000 and 48 are never reached. */
  lemma ZoneNeverMeetsItsLimits(c: Curve, m: Limits, primary: Location, critical: seq<Location>, v: Votes,
                                eligible: Roots -> bool)
    requires |critical| <= MAX_CRITICAL && m.budget >= ZONE_COST && m.halvings >= HALVINGS
    ensures ZONE_COST == 781
    ensures ZoneRoots(c, ZONE_LIMITS, primary, critical, v, eligible).used <= ZONE_COST
    ensures ZoneRoots(c, ZONE_LIMITS, primary, critical, v, eligible) == ZoneRoots(c, m, primary, critical, v, eligible)
  {
    ZoneFits(c, ZONE_LIMITS, m, primary, critical, v, eligible);
  }

  /** A vote the solver orders stays ordered in every location whose own evaluator is nondecreasing. */
  lemma LocationRootsAreOrdered(c: Curve, l: Limits, used: nat, at: Location, s: Strategy, lower: real, upper: real)
    requires lower < 0.0 < upper && Nondecreasing(EvaluatorOf(c, at, false))
    ensures var r := SolveLocation(c, l, used, at, StrategyVotes(s, lower, upper).value).0;
      && InOrder(r.lower, r.heating) && InOrder(r.lower, r.neutral) && InOrder(r.lower, r.cooling) && InOrder(r.lower, r.upper)
      && InOrder(r.heating, r.neutral) && InOrder(r.heating, r.cooling) && InOrder(r.heating, r.upper)
      && InOrder(r.neutral, r.cooling) && InOrder(r.neutral, r.upper) && InOrder(r.cooling, r.upper)
  {
    StrategyVotesIncrease(s, lower, upper);
    EvaluatorsEcho(c, at, false);
    var v := StrategyVotes(s, lower, upper).value;
    var low := SearchLow(DewPoint(c, at.moisture), at.delta);
    RootsAreOrdered(EvaluatorOf(c, at, false), l, used, v, low, DomainHigh(at.delta),
                    low > DomainLow(at.delta) + 0.000000000001);
  }

  // ---- what a candidate is, and what completion does ---------------------------------------------------

  /** One candidate room temperature: the model is asked at that temperature, at the surface's own one, and at the
      humidity the air there has; where the air cannot hold its moisture, at saturation if the search is descriptive,
      and not at all otherwise. */
  lemma CandidateExactly(c: Curve, at: Location, beyond: bool, room: real) returns (rh: real)
    ensures var local := room - at.delta;
      var r := CandidateAt(c, at, beyond, room);
      var outside := at.moisture.vapor < 0.0 || local < -100.0 || local > 200.0 || c(local) <= 0.0;
      var wet := !outside && 100.0 * at.moisture.vapor > 100.000001 * c(local);
      && (outside ==> r == Missed(OutsideDomain))
      && (wet && !beyond ==> r == Missed(MoistureLimited))
      && (!outside && !wet ==> CandidateHumidity(c, at.moisture, local) == Humid(rh)) && (wet ==> rh == 100.0)
      && (!outside && (beyond || !wet) ==>
            r == match at.model(room, local, rh)
                 case ForwardFailed(code) => Missed(code)
                 case Felt(vote) => Found(Point(room, local, vote)))
  {
    HumidityExactly(c, at.moisture, room - at.delta);
    var h := CandidateHumidity(c, at.moisture, room - at.delta);
    rh := if h.Humid? then h.rh else 100.0;
  }

  /** A location whose air has no dew point has no roots either, and costs nothing: its moisture limits it exactly
      when it is beyond saturation already. */
  lemma NoDewPointNoRoots(c: Curve, l: Limits, used: nat, at: Location, v: Votes)
    requires DewPoint(c, at.moisture).DewFailed?
    ensures SolveLocation(c, l, used, at, v)
         == (AllFail(if DewPoint(c, at.moisture).code.Supersaturated? then MoistureLimited else OutsideDomain, used), used)
  {
  }

  /** The search runs from 5 to 40 C of both the room and the surface, above the dew point by its margin; a root below
      it is limited by moisture exactly when the dew point is what lifts the lower end. */
  lemma SearchExactly(c: Curve, l: Limits, used: nat, at: Location, v: Votes)
    requires !DewPoint(c, at.moisture).DewFailed?
    ensures var d := DewPoint(c, at.moisture);
      var floor := if at.delta > 0.0 then 5.0 + at.delta else 5.0;
      var ceiling := if at.delta < 0.0 then 40.0 + at.delta else 40.0;
      var low := if d.DewAt? && d.t + 0.001 + at.delta > floor then d.t + 0.001 + at.delta else floor;
      SolveLocation(c, l, used, at, v)
      == Solve(EvaluatorOf(c, at, false), l, used, v, low, ceiling, low > floor + 0.000000000001)
  {
  }

  predicate LimitedByMoisture(r: Root) { r.Unsolved? && r.code == MoistureLimited }

  /** Completion touches the two outer roots only, each exactly when moisture limits it and the descriptive search
      over the whole domain finds it; with neither limited it evaluates nothing. */
  lemma CompletionExactly(c: Curve, l: Limits, used: nat, at: Location, v: Votes, r: Roots)
    ensures var (done, spent) := Complete(c, l, used, at, v, r);
      var wide := Solve(EvaluatorOf(c, at, true), l, used, v, DomainLow(at.delta), DomainHigh(at.delta), false);
      && done.heating == r.heating && done.neutral == r.neutral && done.cooling == r.cooling
      && (done.lower == if LimitedByMoisture(r.lower) && wide.0.lower.Solved? then wide.0.lower else r.lower)
      && (done.upper == if LimitedByMoisture(r.upper) && wide.0.upper.Solved? then wide.0.upper else r.upper)
      && spent == if LimitedByMoisture(r.lower) || LimitedByMoisture(r.upper) then wide.1 else used
  {
  }

  /** End to end: where the forward model increases steadily over a location's own search interval, every strategy
      vote it reaches there is solved, and the others say why not. */
  lemma LocationVotesAreSolved(c: Curve, at: Location, used: nat, v: Votes)
    requires !DewPoint(c, at.moisture).DewFailed? && used + SOLVE_COST <= ZONE_LIMITS.budget
    requires SearchLow(DewPoint(c, at.moisture), at.delta) < DomainHigh(at.delta)
    requires WellBehaved(EvaluatorOf(c, at, false), SearchLow(DewPoint(c, at.moisture), at.delta), DomainHigh(at.delta))
    ensures var low := SearchLow(DewPoint(c, at.moisture), at.delta);
      AllAnswered(EvaluatorOf(c, at, false), low, DomainHigh(at.delta), v, low > DomainLow(at.delta) + 0.000000000001,
                  SolveLocation(c, ZONE_LIMITS, used, at, v).0)
  {
    var low := SearchLow(DewPoint(c, at.moisture), at.delta);
    EveryReachableVoteIsSolved(EvaluatorOf(c, at, false), ZONE_LIMITS, used, v, low, DomainHigh(at.delta),
                               low > DomainLow(at.delta) + 0.000000000001);
  }

  /** Every critical location gets its own solve, in order, on what is left of the budget. */
  lemma {:induction false} CriticalInOrder(c: Curve, l: Limits, used: nat, ats: seq<Location>, v: Votes, k: nat)
      returns (u: nat)
    requires k < |ats|
    ensures var (rs, _) := SolveCritical(c, l, used, ats, v);
      |rs| == |ats| && rs[k] == SolveLocation(c, l, u, ats[k], v).0
    ensures u == SolveCritical(c, l, used, ats[..k], v).1
  {
    var front := ats[..|ats| - 1];
    if k == |ats| - 1 {
      u := SolveCritical(c, l, used, front, v).1;
      SolvedAll(c, l, used, front, v);
    } else {
      u := CriticalInOrder(c, l, used, front, v, k);
      assert front[..k] == ats[..k];
    }
  }

  lemma {:induction false} SolvedAll(c: Curve, l: Limits, used: nat, ats: seq<Location>, v: Votes)
    ensures |SolveCritical(c, l, used, ats, v).0| == |ats|
  {
    if ats != [] { SolvedAll(c, l, used, ats[..|ats| - 1], v); }
  }

  /** A zone calculation spends its first evaluation on current conditions, completes the primary roots, and goes on
      to the critical locations exactly when the policy finds those eligible. */
  lemma ZoneExactly(c: Curve, primary: Location, critical: seq<Location>, v: Votes, eligible: Roots -> bool)
    ensures var z := ZoneRoots(c, ZONE_LIMITS, primary, critical, v, eligible);
      var (five, u) := SolveLocation(c, ZONE_LIMITS, 1, primary, v);
      var (full, w) := Complete(c, ZONE_LIMITS, u, primary, v, five);
      && z.roots == full
      && (if eligible(full) then (z.critical, z.used) == SolveCritical(c, ZONE_LIMITS, w, critical, v)
          else z.critical == [] && z.used == w)
  {
  }
}
