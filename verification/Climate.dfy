/** The finite setpoint grid of a climate entity and the projection of requests onto it. */
module Climate {
  import opened Contracts

  const GRID_TOLERANCE := 0.000000001
  const MAX_GRID_POINTS := 2000

  datatype Unit = Celsius | Fahrenheit

  datatype StepUnit = HaStep | CelsiusStep | FahrenheitStep

  datatype Snapshot = Snapshot(minHa: Option<real>, maxHa: Option<real>, stepHa: Option<real>, unit: Unit)

  datatype Options = Options(
    userMin: real, userMax: real, calibration: real, stepOverride: Option<real>, stepUnit: StepUnit,
    origin: Option<real>, minimumGap: real, rounding: Option<RoundingMode>)

  datatype Grid = Grid(origin: real, step: real, lowerIndex: int, upperIndex: int, lower: real, upper: real)

  datatype ClimateFailure =
    | InvalidGridConfiguration | NoLegalGrid | GridTooFine | NoLegalInwardTarget | InvalidTargetRequest | NoLegalRange

  datatype GridResult = GridOk(grid: Grid) | GridFailed(reason: ClimateFailure)

  datatype ScalarTarget = ScalarTarget(
    direction: Direction, requested: real, calibrated: real, bounded: real, index: int, ha: real,
    actuatorC: real, roomC: real, grid: Grid)

  datatype ScalarResult = ScalarOk(target: ScalarTarget) | ScalarFailed(reason: ClimateFailure)

  datatype RangeResult = RangeOk(heating: ScalarTarget, cooling: ScalarTarget) | RangeFailed(reason: ClimateFailure)

  function Ceil(x: real): int { -((-x).Floor) }

  function ToHa(c: real, u: Unit): real { if u.Celsius? then c else c * 9.0 / 5.0 + 32.0 }

  function ToCelsius(ha: real, u: Unit): real { if u.Celsius? then ha else (ha - 32.0) * 5.0 / 9.0 }

  function StepToHa(v: real, declared: StepUnit, u: Unit): real {
    if declared.HaStep? then v
    else
      var c := if declared.CelsiusStep? then v else v * 5.0 / 9.0;
      if u.Celsius? then c else c * 9.0 / 5.0
  }

  function BuildGrid(s: Snapshot, o: Options): GridResult {
    if s.minHa.None? || s.maxHa.None? || s.minHa.value >= s.maxHa.value || o.userMin >= o.userMax
       || !(-3.0 <= o.calibration <= 3.0) || o.minimumGap < 1.0
       || (o.stepOverride.Some? && o.stepOverride.value <= 0.0)
       || (o.stepOverride.None? && s.stepHa.Some? && s.stepHa.value <= 0.0)
    then GridFailed(InvalidGridConfiguration)
    else
      var step := if o.stepOverride.Some? then StepToHa(o.stepOverride.value, o.stepUnit, s.unit)
                  else if s.stepHa.Some? then s.stepHa.value
                  else if s.unit.Celsius? then 0.5 else 1.0;
      var origin := if o.origin.Some? then o.origin.value else s.minHa.value;
      if step <= 0.0 then GridFailed(InvalidGridConfiguration)
      else GridOver(origin, step, Max(s.minHa.value, ToHa(o.userMin, s.unit)), Min(s.maxHa.value, ToHa(o.userMax, s.unit)))
  }

  function Quotient(a: real, k: real): (q: real)
    requires k > 0.0
    ensures q * k == a
  {
    a / k
  }

  function GridOver(origin: real, step: real, lower: real, upper: real): GridResult
    requires step > 0.0
  {
    if lower > upper + GRID_TOLERANCE then GridFailed(NoLegalGrid)
    else
      var low := Ceil(Quotient(lower - origin, step) - GRID_TOLERANCE);
      var high := (Quotient(upper - origin, step) + GRID_TOLERANCE).Floor;
      if low > high then GridFailed(NoLegalGrid)
      else if high - low + 1 > MAX_GRID_POINTS then GridFailed(GridTooFine)
      else GridOk(Grid(origin, step, low, high, lower, upper))
  }

  /** A setpoint in steps from the grid's origin. */
  function Position(g: Grid, ha: real): real
    requires g.step > 0.0
  {
    Quotient(ha - g.origin, g.step)
  }

  function PointHa(g: Grid, index: int): real { g.origin + index as real * g.step }

  /** Clamped to the user's and then to the device's bounds, in Celsius. */
  function Bounded(requested: real, s: Snapshot, o: Options): real
    requires s.minHa.Some? && s.maxHa.Some?
  {
    Clamp(Clamp(requested + o.calibration, o.userMin, o.userMax),
          ToCelsius(s.minHa.value, s.unit), ToCelsius(s.maxHa.value, s.unit))
  }

  function Round(position: real, direction: Direction, mode: Option<RoundingMode>): int {
    match mode
    case Some(Ceiling) => Ceil(position - GRID_TOLERANCE)
    case Some(Floor) => (position + GRID_TOLERANCE).Floor
    case Some(Mathematical) => (position + 0.5 + GRID_TOLERANCE).Floor
    case None => if direction.HeatingOnly? then Ceil(position - GRID_TOLERANCE) else (position + GRID_TOLERANCE).Floor
  }

  function NormalizeOn(requested: real, d: Direction, s: Snapshot, o: Options, g: Grid): ScalarResult
    requires s.minHa.Some? && s.maxHa.Some? && g.step > 0.0
  {
    if d.Ranged? then ScalarFailed(InvalidTargetRequest)
    else
      var bounded := Bounded(requested, s, o);
      var index := Round(Position(g, ToHa(bounded, s.unit)), d, o.rounding);
      var ha := PointHa(g, index);
      if index < g.lowerIndex || index > g.upperIndex || ha < g.lower - GRID_TOLERANCE || ha > g.upper + GRID_TOLERANCE
      then ScalarFailed(NoLegalInwardTarget)
      else
        var c := ToCelsius(ha, s.unit);
        ScalarOk(ScalarTarget(d, requested, requested + o.calibration, bounded, index, ha, c, c - o.calibration, g))
  }

  function Normalize(requested: real, d: Direction, s: Snapshot, o: Options): ScalarResult {
    var g := BuildGrid(s, o);
    if g.GridFailed? then ScalarFailed(g.reason) else NormalizeOn(requested, d, s, o, g.grid)
  }

  /** Both ends at once, or neither; the actuator gap is kept to a tolerance of 1e-12. */
  function NormalizeRange(heating: real, cooling: real, s: Snapshot, o: Options): RangeResult {
    var g := BuildGrid(s, o);
    if g.GridFailed? then RangeFailed(g.reason)
    else
      var h := NormalizeOn(heating, HeatingOnly, s, o, g.grid);
      var c := NormalizeOn(cooling, CoolingOnly, s, o, g.grid);
      if h.ScalarFailed? || c.ScalarFailed?
         || c.target.actuatorC - h.target.actuatorC + 0.000000000001 < Max(1.0, o.minimumGap)
      then RangeFailed(NoLegalRange)
      else RangeOk(h.target, c.target)
  }

  // ---- laws --------------------------------------------------------------------------------------

  /** A point the configuration allows: on the grid and inside every bound up to the grid tolerance. */
  predicate Legal(index: int, g: Grid) {
    && g.lowerIndex <= index <= g.upperIndex
    && g.lower - GRID_TOLERANCE <= PointHa(g, index) <= g.upper + GRID_TOLERANCE
  }

  lemma MulMono(a: real, b: real, k: real)
    requires a <= b && k >= 0.0
    ensures a * k <= b * k
  {
  }

  lemma Scale(p: real, q: real, k: real)
    requires k > 0.0
    ensures p <= q <==> p * k <= q * k
  {
    if p <= q {
      MulMono(p, q, k);
    } else {
      assert (p - q) * k > 0.0;
      assert (p - q) * k == p * k - q * k;
    }
  }

  lemma Offset(i: real, t: real, k: real)
    ensures (i + t) * k == i * k + t * k && (i - t) * k == i * k - t * k
  {
  }

  /** Where the bounded request lay, given the index it was rounded to: the cell of that index. */
  predicate InCell(position: real, index: int, d: Direction, mode: Option<RoundingMode>) {
    var i := index as real;
    match mode
    case Some(Ceiling) => i - 1.0 + GRID_TOLERANCE < position <= i + GRID_TOLERANCE
    case Some(Floor) => i - GRID_TOLERANCE <= position < i + 1.0 - GRID_TOLERANCE
    case Some(Mathematical) => i - 0.5 - GRID_TOLERANCE <= position < i + 0.5 - GRID_TOLERANCE
    case None =>
      if d.HeatingOnly? then i - 1.0 + GRID_TOLERANCE < position <= i + GRID_TOLERANCE
      else i - GRID_TOLERANCE <= position < i + 1.0 - GRID_TOLERANCE
  }

  lemma RoundLaw(position: real, d: Direction, mode: Option<RoundingMode>, index: int)
    ensures Round(position, d, mode) == index <==> InCell(position, index, d, mode)
  {
  }

  lemma RoundMono(p: real, q: real, d: Direction, mode: Option<RoundingMode>)
    requires p <= q
    ensures Round(p, d, mode) <= Round(q, d, mode)
  {
  }

  /** What a built grid guarantees: its index limits are its bounds to within a billionth of a step. */
  predicate Fits(g: Grid, s: Snapshot, o: Options) {
    && s.minHa.Some? && s.maxHa.Some? && g.step > 0.0
    && s.minHa.value < s.maxHa.value && o.userMin < o.userMax
    && g.lower == Max(s.minHa.value, ToHa(o.userMin, s.unit))
    && g.upper == Min(s.maxHa.value, ToHa(o.userMax, s.unit))
    && g.lower - GRID_TOLERANCE * g.step <= PointHa(g, g.lowerIndex)
    && PointHa(g, g.upperIndex) <= g.upper + GRID_TOLERANCE * g.step
  }

  lemma LimitLow(bound: real, origin: real, step: real, q: real, t: real, low: real)
    requires step > 0.0 && q * step == bound - origin && q - t <= low
    ensures origin + low * step >= bound - t * step
  {
    Offset(q, t, step);
    MulMono(q - t, low, step);
  }

  lemma LimitHigh(bound: real, origin: real, step: real, q: real, t: real, high: real)
    requires step > 0.0 && q * step == bound - origin && high <= q + t
    ensures origin + high * step <= bound + t * step
  {
    Offset(q, t, step);
    MulMono(high, q + t, step);
  }

  lemma GridOverFits(origin: real, step: real, lower: real, upper: real)
    requires step > 0.0 && GridOver(origin, step, lower, upper).GridOk?
    ensures var g := GridOver(origin, step, lower, upper).grid;
      && g.origin == origin && g.step == step && g.lower == lower && g.upper == upper
      && lower - GRID_TOLERANCE * step <= PointHa(g, g.lowerIndex)
      && PointHa(g, g.upperIndex) <= upper + GRID_TOLERANCE * step
  {
    var g := GridOver(origin, step, lower, upper).grid;
    LimitLow(lower, origin, step, Quotient(lower - origin, step), GRID_TOLERANCE, g.lowerIndex as real);
    LimitHigh(upper, origin, step, Quotient(upper - origin, step), GRID_TOLERANCE, g.upperIndex as real);
  }

  lemma BuiltGridFits(s: Snapshot, o: Options)
    requires BuildGrid(s, o).GridOk?
    ensures Fits(BuildGrid(s, o).grid, s, o)
  {
    var g := BuildGrid(s, o).grid;
    var origin := if o.origin.Some? then o.origin.value else s.minHa.value;
    GridOverFits(origin, g.step, Max(s.minHa.value, ToHa(o.userMin, s.unit)), Min(s.maxHa.value, ToHa(o.userMax, s.unit)));
  }

  lemma PointMono(g: Grid, i: int, j: int)
    requires g.step > 0.0 && i <= j
    ensures PointHa(g, i) <= PointHa(g, j)
  {
    MulMono(i as real, j as real, g.step);
  }

  lemma PointsInBounds(g: Grid, s: Snapshot, o: Options, index: int)
    requires Fits(g, s, o) && g.lowerIndex <= index <= g.upperIndex
    ensures g.lower - GRID_TOLERANCE * g.step <= PointHa(g, index) <= g.upper + GRID_TOLERANCE * g.step
  {
    PointMono(g, g.lowerIndex, index);
    PointMono(g, index, g.upperIndex);
  }

  lemma ClampStays(x: real, lo: real, hi: real, slack: real)
    requires slack >= 0.0 && lo <= x + slack && x - slack <= hi
    ensures x - slack <= Clamp(x, lo, hi) <= x + slack
    ensures forall y :: x - slack <= y <= x + slack ==> x - slack <= Clamp(y, lo, hi) <= x + slack
  {
  }

  /** Clamping a legal point moves it by at most a billionth of a step. */
  lemma LegalPointBarelyMoves(g: Grid, s: Snapshot, o: Options, index: int)
    requires Fits(g, s, o) && g.lowerIndex <= index <= g.upperIndex
    ensures var point := PointHa(g, index); var slack := GRID_TOLERANCE * g.step;
      point - slack <= ToHa(Bounded(ToCelsius(point, s.unit) - o.calibration, s, o), s.unit) <= point + slack
  {
    PointsInBounds(g, s, o, index);
    var x := ToCelsius(PointHa(g, index), s.unit);
    var slack := GRID_TOLERANCE * g.step;
    var slackC := if s.unit.Celsius? then slack else slack * 5.0 / 9.0;
    ClampStays(x, o.userMin, o.userMax, slackC);
    ClampStays(x, ToCelsius(s.minHa.value, s.unit), ToCelsius(s.maxHa.value, s.unit), slackC);
  }

  /** Positions within a billionth of a step of an index round to it, whatever the mode. */
  lemma NearIndexRounds(ha: real, origin: real, step: real, q: real, t: real, i: real)
    requires step > 0.0 && t >= 0.0 && q * step == ha - origin
    requires origin + i * step - t * step <= ha <= origin + i * step + t * step
    ensures i - t <= q <= i + t
  {
    Offset(i, t, step);
    Scale(q, i + t, step);
    Scale(i - t, q, step);
  }

  lemma NearIndexIsIndex(g: Grid, ha: real, index: int, d: Direction, mode: Option<RoundingMode>)
    requires g.step > 0.0
    requires PointHa(g, index) - GRID_TOLERANCE * g.step <= ha <= PointHa(g, index) + GRID_TOLERANCE * g.step
    ensures Round(Position(g, ha), d, mode) == index
  {
    NearIndexRounds(ha, g.origin, g.step, Position(g, ha), GRID_TOLERANCE, index as real);
    RoundLaw(Position(g, ha), d, mode, index);
  }

  lemma LegalPointIsFixedOn(g: Grid, s: Snapshot, o: Options, index: int, d: Direction)
    requires Fits(g, s, o) && Legal(index, g) && !d.Ranged?
    ensures var r := NormalizeOn(ToCelsius(PointHa(g, index), s.unit) - o.calibration, d, s, o, g);
      r.ScalarOk? && r.target.index == index
  {
    LegalPointBarelyMoves(g, s, o, index);
    NearIndexIsIndex(g, ToHa(Bounded(ToCelsius(PointHa(g, index), s.unit) - o.calibration, s, o), s.unit),
                     index, d, o.rounding);
  }

  /** A legal point is its own normalisation in every rounding mode and direction, whatever mode produced it. */
  lemma LegalPointIsFixed(s: Snapshot, o: Options, index: int, d: Direction)
    requires BuildGrid(s, o).GridOk? && Legal(index, BuildGrid(s, o).grid) && !d.Ranged?
    ensures var g := BuildGrid(s, o).grid;
      var r := Normalize(ToCelsius(PointHa(g, index), s.unit) - o.calibration, d, s, o);
      r.ScalarOk? && r.target.index == index && r.target.ha == PointHa(g, index)
  {
    BuiltGridFits(s, o);
    LegalPointIsFixedOn(BuildGrid(s, o).grid, s, o, index, d);
  }

  lemma BoundedMono(r1: real, r2: real, s: Snapshot, o: Options)
    requires s.minHa.Some? && s.maxHa.Some? && r1 <= r2
    ensures Bounded(r1, s, o) <= Bounded(r2, s, o) <= Bounded(r1, s, o) + (r2 - r1)
  {
  }

  lemma PositionMono(g: Grid, a: real, b: real)
    requires g.step > 0.0 && a <= b
    ensures Position(g, a) <= Position(g, b)
  {
    Scale(Position(g, a), Position(g, b), g.step);
  }

  lemma NormalizeOnMono(r1: real, r2: real, d: Direction, s: Snapshot, o: Options, g: Grid)
    requires Fits(g, s, o) && r1 <= r2 && NormalizeOn(r1, d, s, o, g).ScalarOk? && NormalizeOn(r2, d, s, o, g).ScalarOk?
    ensures NormalizeOn(r1, d, s, o, g).target.ha <= NormalizeOn(r2, d, s, o, g).target.ha
    ensures Legal(NormalizeOn(r1, d, s, o, g).target.index, g)
  {
    var b1, b2 := ToHa(Bounded(r1, s, o), s.unit), ToHa(Bounded(r2, s, o), s.unit);
    BoundedMono(r1, r2, s, o);
    PositionMono(g, b1, b2);
    RoundMono(Position(g, b1), Position(g, b2), d, o.rounding);
    PointMono(g, Round(Position(g, b1), d, o.rounding), Round(Position(g, b2), d, o.rounding));
  }

  lemma NormalizedAgain(r: real, d: Direction, s: Snapshot, o: Options)
    requires Normalize(r, d, s, o).ScalarOk?
    ensures var t := Normalize(r, d, s, o).target;
      && Legal(t.index, t.grid) && t.ha == PointHa(t.grid, t.index)
      && var again := Normalize(t.roomC, d, s, o);
         again.ScalarOk? && again.target.ha == t.ha && again.target.roomC == t.roomC
  {
    BuiltGridFits(s, o);
    LegalPointIsFixed(s, o, Normalize(r, d, s, o).target.index, d);
  }

  /** Normalisation is a monotone idempotent projection onto the legal points, in all four rounding modes. */
  lemma Projection(r1: real, r2: real, d: Direction, s: Snapshot, o: Options)
    requires r1 <= r2 && Normalize(r1, d, s, o).ScalarOk? && Normalize(r2, d, s, o).ScalarOk?
    ensures var t1, t2 := Normalize(r1, d, s, o).target, Normalize(r2, d, s, o).target;
      && Legal(t1.index, t1.grid) && t1.ha == PointHa(t1.grid, t1.index)
      && t1.ha <= t2.ha && t1.roomC <= t2.roomC
      && var again := Normalize(t1.roomC, d, s, o);
         again.ScalarOk? && again.target.ha == t1.ha && again.target.roomC == t1.roomC
  {
    BuiltGridFits(s, o);
    NormalizeOnMono(r1, r2, d, s, o, BuildGrid(s, o).grid);
    NormalizedAgain(r1, d, s, o);
  }

  /** Both modes see the same grid. */
  lemma GridIgnoresRounding(s: Snapshot, o: Options, mode: Option<RoundingMode>)
    ensures BuildGrid(s, o.(rounding := mode)) == BuildGrid(s, o)
  {
  }

  /** A request at or below a legal setpoint never normalises above it, in any rounding mode. */
  lemma NeverAbove(requested: real, index: int, s: Snapshot, o: Options)
    requires BuildGrid(s, o).GridOk? && Legal(index, BuildGrid(s, o).grid)
    requires requested <= ToCelsius(PointHa(BuildGrid(s, o).grid, index), s.unit) - o.calibration
    requires Normalize(requested, HeatingOnly, s, o).ScalarOk?
    ensures var t := Normalize(requested, HeatingOnly, s, o).target;
      t.roomC <= ToCelsius(PointHa(BuildGrid(s, o).grid, index), s.unit) - o.calibration
  {
    var limit := ToCelsius(PointHa(BuildGrid(s, o).grid, index), s.unit) - o.calibration;
    LegalPointIsFixed(s, o, index, HeatingOnly);
    Projection(requested, limit, HeatingOnly, s, o);
  }

  // ---- runtime glue ------------------------------------------------------------------------------

  /** The idle target: the lower of room temperature and comfort target, rounded down. */
  function IdleHeating(current: real, comfort: ScalarTarget, s: Snapshot, o: Options): ScalarResult {
    Normalize(Min(current, comfort.roomC), HeatingOnly, s, o.(rounding := Some(Floor)))
  }

  lemma FloorBelow(ha: real, origin: real, step: real, q: real, t: real, i: real)
    requires step > 0.0 && q * step == ha - origin && i - t <= q
    ensures origin + i * step <= ha + t * step
  {
    Offset(i, t, step);
    Scale(i - t, q, step);
  }

  lemma FloorPoint(g: Grid, ha: real)
    requires g.step > 0.0
    ensures PointHa(g, Round(Position(g, ha), HeatingOnly, Some(Floor))) <= ha + GRID_TOLERANCE * g.step
  {
    var index := Round(Position(g, ha), HeatingOnly, Some(Floor));
    RoundLaw(Position(g, ha), HeatingOnly, Some(Floor), index);
    FloorBelow(ha, g.origin, g.step, Position(g, ha), GRID_TOLERANCE, index as real);
  }

  lemma FloorStaysBelow(requested: real, s: Snapshot, o: Options, g: Grid)
    requires Fits(g, s, o) && o.rounding == Some(Floor) && NormalizeOn(requested, HeatingOnly, s, o, g).ScalarOk?
    ensures NormalizeOn(requested, HeatingOnly, s, o, g).target.ha
            <= ToHa(Bounded(requested, s, o), s.unit) + GRID_TOLERANCE * g.step
  {
    FloorPoint(g, ToHa(Bounded(requested, s, o), s.unit));
  }

  /** An idle heating target never exceeds the comfort target it replaces, and asks for no more than the room
      already has unless a lower bound forces it. */
  lemma IdleNeverHeatsMore(requested: real, current: real, s: Snapshot, o: Options)
    requires Normalize(requested, HeatingOnly, s, o).ScalarOk?
    requires IdleHeating(current, Normalize(requested, HeatingOnly, s, o).target, s, o).ScalarOk?
    ensures var comfort := Normalize(requested, HeatingOnly, s, o).target;
      var idle := IdleHeating(current, comfort, s, o).target;
      && idle.roomC <= comfort.roomC
      && (Max(o.userMin, ToCelsius(s.minHa.value, s.unit)) <= current + o.calibration ==>
            idle.ha <= ToHa(current + o.calibration, s.unit) + GRID_TOLERANCE * idle.grid.step)
  {
    var comfort := Normalize(requested, HeatingOnly, s, o).target;
    var down := o.(rounding := Some(Floor));
    GridIgnoresRounding(s, o, Some(Floor));
    Projection(requested, requested, HeatingOnly, s, o);
    NeverAbove(Min(current, comfort.roomC), comfort.index, s, down);
    BuiltGridFits(s, o);
    FloorStaysBelow(Min(current, comfort.roomC), s, down, BuildGrid(s, o).grid);
    BoundedMono(Min(current, comfort.roomC), current, s, o);
  }

  /** The guarded scalar request: the least of comfort target, ramp and the setpoint the device shows. */
  function GuardedHeating(comfort: ScalarTarget, ramp: real, shown: Option<real>, s: Snapshot,
      o: Options): ScalarResult {
    var wanted := Min(comfort.roomC, ramp);
    Normalize(if shown.Some? then Min(wanted, ToCelsius(shown.value, s.unit) - o.calibration) else wanted,
              HeatingOnly, s, o)
  }

  /** While heat is being withdrawn, a setpoint that is itself a legal grid point is never raised. */
  lemma GuardNeverRaises(requested: real, ramp: real, index: int, s: Snapshot, o: Options)
    requires Normalize(requested, HeatingOnly, s, o).ScalarOk?
    requires Legal(index, BuildGrid(s, o).grid)
    requires var shown := PointHa(BuildGrid(s, o).grid, index);
      GuardedHeating(Normalize(requested, HeatingOnly, s, o).target, ramp, Some(shown), s, o).ScalarOk?
    ensures var shown := PointHa(BuildGrid(s, o).grid, index);
      GuardedHeating(Normalize(requested, HeatingOnly, s, o).target, ramp, Some(shown), s, o).target.ha <= shown
  {
    var comfort := Normalize(requested, HeatingOnly, s, o).target;
    var limit := ToCelsius(PointHa(BuildGrid(s, o).grid, index), s.unit) - o.calibration;
    BuiltGridFits(s, o);
    NeverAbove(Min(Min(comfort.roomC, ramp), limit), index, s, o);
  }
}
