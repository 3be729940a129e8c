/** Which grid a device and a configuration make, and where a request lands on it. */
module ClimateLaw {
  import opened Contracts
  import opened Climate

  // ---- units -------------------------------------------------------------------------------------

  /** Setpoints go from Celsius to the device's unit and back; steps are differences, without the offset. */
  lemma UnitsConvert(x: real, v: real, u: Unit)
    ensures ToHa(ToCelsius(x, u), u) == x && ToCelsius(ToHa(x, u), u) == x
    ensures u.Fahrenheit? ==> ToHa(0.0, u) == 32.0 && ToHa(100.0, u) == 212.0
    ensures u.Celsius? ==> ToHa(x, u) == x
    ensures StepToHa(v, HaStep, u) == v
    ensures StepToHa(v, CelsiusStep, u) == ToHa(v, u) - ToHa(0.0, u)
    ensures StepToHa(v, FahrenheitStep, u) == if u.Fahrenheit? then v else v / 1.8
  {
  }

  // ---- the grid ----------------------------------------------------------------------------------

  /** The step a zone asks for, or the device's, or half a degree Celsius and one Fahrenheit. */
  function WantedStep(s: Snapshot, o: Options): real {
    match o.stepOverride
    case Some(v) => StepToHa(v, o.stepUnit, s.unit)
    case None =>
      match s.stepHa
      case Some(v) => v
      case None => if s.unit.Celsius? then 0.5 else 1.0
  }

  predicate Configured(s: Snapshot, o: Options) {
    && s.minHa.Some? && s.maxHa.Some? && s.minHa.value < s.maxHa.value && o.userMin < o.userMax
    && -3.0 <= o.calibration <= 3.0 && o.minimumGap >= 1.0 && WantedStep(s, o) > 0.0
  }

  /** What a built grid is made of: its origin, its step, and the tighter of the device's and the user's bounds. */
  lemma GridIsConfigured(s: Snapshot, o: Options)
    ensures BuildGrid(s, o) == GridFailed(InvalidGridConfiguration) <==> !Configured(s, o)
    ensures BuildGrid(s, o).GridOk? ==>
      var g := BuildGrid(s, o).grid;
      && g.step == WantedStep(s, o)
      && (o.origin.Some? ==> g.origin == o.origin.value) && (o.origin.None? ==> g.origin == s.minHa.value)
      && g.lower >= s.minHa.value && g.lower >= ToHa(o.userMin, s.unit)
      && (g.lower == s.minHa.value || g.lower == ToHa(o.userMin, s.unit))
      && g.upper <= s.maxHa.value && g.upper <= ToHa(o.userMax, s.unit)
      && (g.upper == s.maxHa.value || g.upper == ToHa(o.userMax, s.unit))
  {
  }

  /** A grid point within the bounds, to a billionth of a step. */
  predicate Inside(origin: real, step: real, lower: real, upper: real, k: int) {
    lower - GRID_TOLERANCE * step <= origin + k as real * step <= upper + GRID_TOLERANCE * step
  }

  lemma AboveExactly(bound: real, origin: real, step: real, q: real, k: real)
    requires step > 0.0 && q * step == bound - origin
    ensures q - GRID_TOLERANCE <= k <==> bound - GRID_TOLERANCE * step <= origin + k * step
  {
    Offset(q, GRID_TOLERANCE, step);
    Scale(q - GRID_TOLERANCE, k, step);
  }

  lemma BelowExactly(bound: real, origin: real, step: real, q: real, k: real)
    requires step > 0.0 && q * step == bound - origin
    ensures k <= q + GRID_TOLERANCE <==> origin + k * step <= bound + GRID_TOLERANCE * step
  {
    Offset(q, GRID_TOLERANCE, step);
    Scale(k, q + GRID_TOLERANCE, step);
  }

  lemma CeilFloor(x: real, k: int)
    ensures Ceil(x) <= k <==> x <= k as real
    ensures k <= x.Floor <==> k as real <= x
  {
  }

  /** The lowest and the highest index before they are checked. */
  lemma LimitsAreTight(origin: real, step: real, lower: real, upper: real, k: int)
    requires step > 0.0
    ensures Ceil(Quotient(lower - origin, step) - GRID_TOLERANCE) <= k
            && k <= (Quotient(upper - origin, step) + GRID_TOLERANCE).Floor
        <==> Inside(origin, step, lower, upper, k)
  {
    CeilFloor(Quotient(lower - origin, step) - GRID_TOLERANCE, k);
    CeilFloor(Quotient(upper - origin, step) + GRID_TOLERANCE, k);
    AboveExactly(lower, origin, step, Quotient(lower - origin, step), k as real);
    BelowExactly(upper, origin, step, Quotient(upper - origin, step), k as real);
  }

  /** The indices of a grid are exactly the points within its bounds, and there are no more of them than allowed. */
  lemma IndicesExactly(origin: real, step: real, lower: real, upper: real, k: int)
    requires step > 0.0 && GridOver(origin, step, lower, upper).GridOk?
    ensures var g := GridOver(origin, step, lower, upper).grid;
      && (g.lowerIndex <= k <= g.upperIndex <==> Inside(origin, step, lower, upper, k))
      && g.lowerIndex <= g.upperIndex && g.upperIndex - g.lowerIndex < MAX_GRID_POINTS
  {
    LimitsAreTight(origin, step, lower, upper, k);
  }

  /** It fails exactly when the bounds are crossed or hold no point, or hold too many. */
  lemma GridFailsExactly(origin: real, step: real, lower: real, upper: real)
    requires step > 0.0
    ensures GridOver(origin, step, lower, upper) == GridFailed(NoLegalGrid)
        <==> lower > upper + GRID_TOLERANCE || forall k: int :: !Inside(origin, step, lower, upper, k)
    ensures GridOver(origin, step, lower, upper) == GridFailed(GridTooFine)
        <==> lower <= upper + GRID_TOLERANCE
             && exists k: int :: Inside(origin, step, lower, upper, k)
                                 && Inside(origin, step, lower, upper, k + MAX_GRID_POINTS)
  {
    var low := Ceil(Quotient(lower - origin, step) - GRID_TOLERANCE);
    var high := (Quotient(upper - origin, step) + GRID_TOLERANCE).Floor;
    forall k: int ensures low <= k <= high <==> Inside(origin, step, lower, upper, k) {
      LimitsAreTight(origin, step, lower, upper, k);
    }
    if low <= high { assert Inside(origin, step, lower, upper, low); }
    if high - low + 1 > MAX_GRID_POINTS {
      assert Inside(origin, step, lower, upper, low) && Inside(origin, step, lower, upper, low + MAX_GRID_POINTS);
    }
  }

  // ---- a request on it ---------------------------------------------------------------------------

  predicate Within(x: real, lo: real, hi: real) { lo <= x <= hi }

  /** The calibrated request, unless the user's bounds or the device's cut it; the device's come last. */
  lemma BoundedExactly(r: real, s: Snapshot, o: Options)
    requires s.minHa.Some? && s.maxHa.Some? && s.minHa.value <= s.maxHa.value && o.userMin <= o.userMax
    ensures var b := Bounded(r, s, o);
      var lo, hi := ToCelsius(s.minHa.value, s.unit), ToCelsius(s.maxHa.value, s.unit);
      && Within(b, lo, hi)
      && (Within(r + o.calibration, o.userMin, o.userMax) && Within(r + o.calibration, lo, hi) ==> b == r + o.calibration)
      && (b < r + o.calibration ==> b == o.userMax || b == hi || b == lo)
      && (b > r + o.calibration ==> b == o.userMin || b == lo || b == hi)
      && (o.userMax >= lo ==> b <= o.userMax) && (o.userMin <= hi ==> b >= o.userMin)
  {
  }

  /** A request lands on the point in whose cell it lies, if that point is legal, and carries both coordinates of it. */
  predicate Lands(r: real, d: Direction, s: Snapshot, o: Options, g: Grid, t: ScalarResult)
    requires s.minHa.Some? && s.maxHa.Some? && g.step > 0.0
  {
    var index := Round(Position(g, ToHa(Bounded(r, s, o), s.unit)), d, o.rounding);
    && (t.ScalarOk? <==> Legal(index, g)) && (t.ScalarFailed? ==> t.reason.NoLegalInwardTarget?)
    && (t.ScalarOk? ==>
          && t.target.index == index && t.target.grid == g && t.target.direction == d
          && t.target.requested == r && t.target.calibrated == r + o.calibration && t.target.bounded == Bounded(r, s, o)
          && t.target.ha == PointHa(g, index)
          && t.target.actuatorC == ToCelsius(t.target.ha, s.unit) && t.target.roomC + o.calibration == t.target.actuatorC)
  }

  lemma LandsOn(r: real, d: Direction, s: Snapshot, o: Options, g: Grid)
    requires s.minHa.Some? && s.maxHa.Some? && g.step > 0.0 && !d.Ranged?
    ensures Lands(r, d, s, o, g, NormalizeOn(r, d, s, o, g))
  {
  }

  lemma NormalizedExactly(r: real, d: Direction, s: Snapshot, o: Options)
    requires BuildGrid(s, o).GridOk? && !d.Ranged?
    ensures var g := BuildGrid(s, o).grid;
      s.minHa.Some? && s.maxHa.Some? && g.step > 0.0 && Lands(r, d, s, o, g, Normalize(r, d, s, o))
  {
    LandsOn(r, d, s, o, BuildGrid(s, o).grid);
  }

  /** Without a grid nothing lands, and a range is no scalar. */
  lemma NothingLands(r: real, d: Direction, s: Snapshot, o: Options)
    ensures BuildGrid(s, o).GridFailed? ==> Normalize(r, d, s, o) == ScalarFailed(BuildGrid(s, o).reason)
    ensures BuildGrid(s, o).GridOk? && d.Ranged? ==> Normalize(r, d, s, o) == ScalarFailed(InvalidTargetRequest)
  {
  }

  /** A range lands exactly when both ends do and the device's ends are a degree, or the configured gap, apart. */
  lemma RangeExactly(h: real, c: real, s: Snapshot, o: Options)
    ensures var heating, cooling := Normalize(h, HeatingOnly, s, o), Normalize(c, CoolingOnly, s, o);
      var r := NormalizeRange(h, c, s, o);
      && (r.RangeOk? <==>
            heating.ScalarOk? && cooling.ScalarOk?
            && cooling.target.actuatorC - heating.target.actuatorC >= Max(1.0, o.minimumGap) - 0.000000000001)
      && (r.RangeOk? ==> r == RangeOk(heating.target, cooling.target))
      && (r.RangeFailed? ==>
            r.reason == if BuildGrid(s, o).GridFailed? then BuildGrid(s, o).reason else NoLegalRange)
  {
  }

  // ---- idle and guarded targets ------------------------------------------------------------------

  lemma CellTop(ha: real, origin: real, step: real, q: real, i: real)
    requires step > 0.0 && q * step == ha - origin && q < i + 1.0 - GRID_TOLERANCE
    ensures ha < origin + i * step + step - GRID_TOLERANCE * step
  {
    Scale(i + (1.0 - GRID_TOLERANCE), q, step);
    Offset(i, 1.0 - GRID_TOLERANCE, step);
    Offset(1.0, GRID_TOLERANCE, step);
  }

  lemma FloorExactly(g: Grid, ha: real)
    requires g.step > 0.0
    ensures var point := PointHa(g, Round(Position(g, ha), HeatingOnly, Some(Floor)));
      point <= ha + GRID_TOLERANCE * g.step && ha < point + g.step - GRID_TOLERANCE * g.step
  {
    var index := Round(Position(g, ha), HeatingOnly, Some(Floor));
    FloorPoint(g, ha);
    RoundLaw(Position(g, ha), HeatingOnly, Some(Floor), index);
    CellTop(ha, g.origin, g.step, Position(g, ha), index as real);
  }

  lemma FloorLands(r: real, s: Snapshot, o: Options, g: Grid)
    requires s.minHa.Some? && s.maxHa.Some? && g.step > 0.0 && o.rounding == Some(Floor)
    requires NormalizeOn(r, HeatingOnly, s, o, g).ScalarOk?
    ensures var t, wanted := NormalizeOn(r, HeatingOnly, s, o, g).target, ToHa(Bounded(r, s, o), s.unit);
      t.ha <= wanted + GRID_TOLERANCE * g.step && wanted < t.ha + g.step - GRID_TOLERANCE * g.step && t.grid == g
  {
    FloorExactly(g, ToHa(Bounded(r, s, o), s.unit));
  }

  /** The idle target is the last grid point at or below the room temperature or the comfort target, whichever is
      lower: the next one up would be above it. */
  lemma IdleIsClosest(current: real, comfort: ScalarTarget, s: Snapshot, o: Options, wanted: real)
    requires IdleHeating(current, comfort, s, o).ScalarOk? && s.minHa.Some? && s.maxHa.Some?
    requires wanted == ToHa(Bounded(if current < comfort.roomC then current else comfort.roomC, s, o), s.unit)
    ensures var t := IdleHeating(current, comfort, s, o).target;
      var slack := GRID_TOLERANCE * t.grid.step;
      t.grid.step > 0.0 && t.ha <= wanted + slack && wanted < t.ha + t.grid.step - slack
  {
    var down := o.(rounding := Some(Floor));
    BuiltGridFits(s, down);
    FloorLands(Min(current, comfort.roomC), s, down, BuildGrid(s, down).grid);
  }

  /** The guarded target is the request for the least of comfort target, ramp and what the device shows. */
  lemma GuardIsLeast(comfort: ScalarTarget, ramp: real, shown: Option<real>, s: Snapshot, o: Options, least: real)
    requires least <= comfort.roomC && least <= ramp
    requires shown.Some? ==> least + o.calibration <= ToCelsius(shown.value, s.unit)
    requires least == comfort.roomC || least == ramp
          || (shown.Some? && least + o.calibration == ToCelsius(shown.value, s.unit))
    ensures GuardedHeating(comfort, ramp, shown, s, o) == Normalize(least, HeatingOnly, s, o)
  {
  }
}
