/** Why quantised setpoints do not chatter: the release hysteresis of the broker against the cells of the grid. */
module Hysteresis {
  import opened Contracts
  import opened Climate
  import opened Broker

  /** The grid step as a Celsius difference. */
  function StepRoom(g: Grid, u: Unit): real { Abs(ToCelsius(g.step, u) - ToCelsius(0.0, u)) }

  /** The ordinary intent for a normalised scalar; `base` supplies identity, generations and times. */
  function ScalarIntent(t: ScalarTarget, s: Snapshot, o: Options, base: Intent): Intent {
    base.(shape := Scalar, direction := t.direction, temperature := Some(t.ha), low := None, high := None,
          room := Some(t.roomC), roomLow := None, roomHigh := None,
          continuous := Some(t.bounded), continuousLow := None, continuousHigh := None,
          step := t.grid.step, rounding := o.rounding, stepRoom := Some(StepRoom(t.grid, s.unit)),
          explicit := false, recovery := false)
  }

  function RangeIntent(h: ScalarTarget, c: ScalarTarget, s: Snapshot, o: Options, base: Intent): Intent {
    base.(shape := Range, direction := Ranged, temperature := None, low := Some(h.ha), high := Some(c.ha),
          room := None, roomLow := Some(h.roomC), roomHigh := Some(c.roomC),
          continuous := None, continuousLow := Some(h.bounded), continuousHigh := Some(c.bounded),
          step := h.grid.step, rounding := o.rounding, stepRoom := Some(StepRoom(h.grid, s.unit)),
          explicit := false, recovery := false)
  }

  /** How far the bounded request can be from a cell edge in Celsius, tolerances included. */
  function Slack(g: Grid, u: Unit): real { GRID_TOLERANCE * StepRoom(g, u) + RELEASE_TOLERANCE_C }

  lemma PositionBounds(ha: real, origin: real, step: real, q: real, i: real, below: real, above: real)
    requires step > 0.0 && q * step == ha - origin
    ensures i - below <= q ==> ha >= origin + i * step - below * step
    ensures q <= i + above ==> ha <= origin + i * step + above * step
  {
    Offset(i, below, step);
    Offset(i, above, step);
    Scale(i - below, q, step);
    Scale(q, i + above, step);
  }

  /** Fraction of a step from an index to the release edge of its cell. */
  function Edge(d: Direction, mode: Option<RoundingMode>): real {
    match mode
    case Some(Floor) => if d.HeatingOnly? then 0.0 else 1.0
    case Some(Ceiling) => if d.HeatingOnly? then 1.0 else 0.0
    case Some(Mathematical) => 0.5
    case None => 1.0
  }

  /** A request lies on its own side of the release edge of the cell it was rounded to, in setpoint units. */
  lemma CellEdge(g: Grid, ha: real, d: Direction, mode: Option<RoundingMode>)
    requires g.step > 0.0 && !d.Ranged?
    ensures var point := PointHa(g, Round(Position(g, ha), d, mode));
      && (d.HeatingOnly? ==> ha >= point - Edge(d, mode) * g.step - GRID_TOLERANCE * g.step)
      && (d.CoolingOnly? ==> ha <= point + Edge(d, mode) * g.step + GRID_TOLERANCE * g.step)
  {
    var q := Position(g, ha);
    var index := Round(q, d, mode);
    RoundLaw(q, d, mode, index);
    var e := Edge(d, mode) + GRID_TOLERANCE;
    PositionBounds(ha, g.origin, g.step, q, index as real, e, e);
    Offset(Edge(d, mode), GRID_TOLERANCE, g.step);
  }

  /** The intent carries the grid's own step and rounding. */
  predicate OnGrid(i: Intent, s: Snapshot, o: Options) {
    BuildGrid(s, o).GridOk? && i.rounding == o.rounding && i.stepRoom == Some(StepRoom(BuildGrid(s, o).grid, s.unit))
  }

  /** The same in Celsius, against the boundary the broker computes. The bounded request is in actuator
      coordinates and the boundary in room coordinates, so a calibration offset shifts one against the other. */
  lemma CellBoundary(r: real, t: ScalarTarget, d: Direction, s: Snapshot, o: Options, i: Intent)
    requires Normalize(r, d, s, o) == ScalarOk(t) && OnGrid(i, s, o)
    ensures var slack := GRID_TOLERANCE * StepRoom(BuildGrid(s, o).grid, s.unit);
      && t.bounded == Bounded(r, s, o)
      && (d.HeatingOnly? ==> t.bounded >= ReleaseBoundary(i, t.roomC, true) + o.calibration - slack)
      && (d.CoolingOnly? ==> t.bounded <= ReleaseBoundary(i, t.roomC, false) + o.calibration + slack)
  {
    BuiltGridFits(s, o);
    CellEdge(BuildGrid(s, o).grid, ToHa(Bounded(r, s, o), s.unit), d, o.rounding);
  }

  /** Two requests closer than the hysteresis, tolerances deducted and the calibration offset counted. */
  predicate SameBand(r1: real, r2: real, d: Direction, s: Snapshot, o: Options) {
    && BuildGrid(s, o).GridOk?
    && Abs(r1 - r2) < RELEASE_HYSTERESIS_C - Slack(BuildGrid(s, o).grid, s.unit)
                      + (if d.HeatingOnly? then o.calibration else -o.calibration)
  }

  lemma BandDistance(r0: real, r1: real, s: Snapshot, o: Options)
    requires s.minHa.Some? && s.maxHa.Some?
    ensures Abs(Bounded(r0, s, o) - Bounded(r1, s, o)) <= Abs(r0 - r1)
  {
    if r0 <= r1 { BoundedMono(r0, r1, s, o); } else { BoundedMono(r1, r0, s, o); }
  }

  lemma BandHoldsHeating(r0: real, t0: ScalarTarget, r1: real, t1: ScalarTarget, s: Snapshot, o: Options, i: Intent)
    requires SameBand(r0, r1, HeatingOnly, s, o) && OnGrid(i, s, o)
    requires Normalize(r0, HeatingOnly, s, o) == ScalarOk(t0) && Normalize(r1, HeatingOnly, s, o) == ScalarOk(t1)
    ensures HoldsHeating(i, Some(t1.bounded), t0.roomC)
  {
    CellBoundary(r0, t0, HeatingOnly, s, o, i);
    CellBoundary(r1, t1, HeatingOnly, s, o, i);
    BuiltGridFits(s, o);
    BandDistance(r0, r1, s, o);
  }

  lemma BandHoldsCooling(r0: real, t0: ScalarTarget, r1: real, t1: ScalarTarget, s: Snapshot, o: Options, i: Intent)
    requires SameBand(r0, r1, CoolingOnly, s, o) && OnGrid(i, s, o)
    requires Normalize(r0, CoolingOnly, s, o) == ScalarOk(t0) && Normalize(r1, CoolingOnly, s, o) == ScalarOk(t1)
    ensures HoldsCooling(i, Some(t1.bounded), t0.roomC)
  {
    CellBoundary(r0, t0, CoolingOnly, s, o, i);
    CellBoundary(r1, t1, CoolingOnly, s, o, i);
    BuiltGridFits(s, o);
    BandDistance(r0, r1, s, o);
  }

  // ---- runs --------------------------------------------------------------------------------------

  /** One ordinary request and, if it goes out, the setpoint the device then reports. */
  datatype Request = Request(heating: real, cooling: real, shown: Fingerprint)

  datatype Kind = Heat | Cool | Both

  function NormalizedIntent(q: Request, k: Kind, s: Snapshot, o: Options, base: Intent): Option<Intent> {
    match k
    case Heat =>
      var r := Normalize(q.heating, HeatingOnly, s, o);
      if r.ScalarOk? then Some(ScalarIntent(r.target, s, o, base)) else None
    case Cool =>
      var r := Normalize(q.cooling, CoolingOnly, s, o);
      if r.ScalarOk? then Some(ScalarIntent(r.target, s, o, base)) else None
    case Both =>
      var r := NormalizeRange(q.heating, q.cooling, s, o);
      if r.RangeOk? then Some(RangeIntent(r.heating, r.cooling, s, o, base)) else None
  }

  function AckOf(i: Intent, shown: Fingerprint): AckTarget { AckTarget(shown, i.room, i.roomLow, i.roomHigh, 0) }

  /** The acknowledged target after a sequence of requests, each acknowledged when anti-chatter lets it out. */
  function Settle(a: AckTarget, qs: seq<Request>, k: Kind, s: Snapshot, o: Options, base: Intent): AckTarget {
    if qs == [] then a
    else
      var before := Settle(a, qs[..|qs| - 1], k, s, o, base);
      var q := qs[|qs| - 1];
      var i := NormalizedIntent(q, k, s, o, base);
      if i.Some? && AntiChatter(i.value, Some(before), None, 0).None? then AckOf(i.value, q.shown) else before
  }

  /** Two requests share a band in every end this kind of target has. */
  predicate Close(a: Request, b: Request, k: Kind, s: Snapshot, o: Options) {
    && (!k.Cool? ==> SameBand(a.heating, b.heating, HeatingOnly, s, o))
    && (!k.Heat? ==> SameBand(a.cooling, b.cooling, CoolingOnly, s, o))
  }

  ghost predicate InBand(qs: seq<Request>, k: Kind, s: Snapshot, o: Options) {
    forall a, b :: a in qs && b in qs ==> Close(a, b, k, s, o)
  }

  /** No end of b is released relative to a. */
  predicate NoRelease(a: AckTarget, b: AckTarget, k: Kind) {
    match k
    case Heat => a.room.Some? && b.room.Some? && a.room.value <= b.room.value
    case Cool => a.room.Some? && b.room.Some? && b.room.value <= a.room.value
    case Both => a.low.Some? && b.low.Some? && a.high.Some? && b.high.Some?
                 && a.low.value <= b.low.value && b.high.value <= a.high.value
  }

  lemma ScalarOnGrid(r: real, t: ScalarTarget, d: Direction, s: Snapshot, o: Options, base: Intent)
    requires Normalize(r, d, s, o) == ScalarOk(t)
    ensures OnGrid(ScalarIntent(t, s, o, base), s, o) && t.direction == d
  {
  }

  lemma RangeIsPair(q: Request, h: ScalarTarget, c: ScalarTarget, s: Snapshot, o: Options, base: Intent)
    requires NormalizeRange(q.heating, q.cooling, s, o) == RangeOk(h, c)
    ensures Normalize(q.heating, HeatingOnly, s, o) == ScalarOk(h)
    ensures Normalize(q.cooling, CoolingOnly, s, o) == ScalarOk(c)
    ensures OnGrid(RangeIntent(h, c, s, o, base), s, o)
  {
  }

  lemma HeatIsBlocked(a: AckTarget, q0: Request, t0: ScalarTarget, q1: Request, t1: ScalarTarget, s: Snapshot,
      o: Options, base: Intent)
    requires SameBand(q0.heating, q1.heating, HeatingOnly, s, o)
    requires Normalize(q0.heating, HeatingOnly, s, o) == ScalarOk(t0)
    requires Normalize(q1.heating, HeatingOnly, s, o) == ScalarOk(t1)
    requires a.room == Some(t0.roomC) && t1.roomC < t0.roomC
    ensures ReleaseBlocks(ScalarIntent(t1, s, o, base), a)
  {
    ScalarOnGrid(q1.heating, t1, HeatingOnly, s, o, base);
    BandHoldsHeating(q0.heating, t0, q1.heating, t1, s, o, ScalarIntent(t1, s, o, base));
  }

  lemma CoolIsBlocked(a: AckTarget, q0: Request, t0: ScalarTarget, q1: Request, t1: ScalarTarget, s: Snapshot,
      o: Options, base: Intent)
    requires SameBand(q0.cooling, q1.cooling, CoolingOnly, s, o)
    requires Normalize(q0.cooling, CoolingOnly, s, o) == ScalarOk(t0)
    requires Normalize(q1.cooling, CoolingOnly, s, o) == ScalarOk(t1)
    requires a.room == Some(t0.roomC) && t1.roomC > t0.roomC
    ensures ReleaseBlocks(ScalarIntent(t1, s, o, base), a)
  {
    ScalarOnGrid(q1.cooling, t1, CoolingOnly, s, o, base);
    BandHoldsCooling(q0.cooling, t0, q1.cooling, t1, s, o, ScalarIntent(t1, s, o, base));
  }

  lemma RangeIsBlocked(
    a: AckTarget, q0: Request, h0: ScalarTarget, c0: ScalarTarget, q1: Request, h1: ScalarTarget, c1: ScalarTarget,
    s: Snapshot, o: Options, base: Intent)
    requires SameBand(q0.heating, q1.heating, HeatingOnly, s, o) && SameBand(q0.cooling, q1.cooling, CoolingOnly, s, o)
    requires NormalizeRange(q0.heating, q0.cooling, s, o) == RangeOk(h0, c0)
    requires NormalizeRange(q1.heating, q1.cooling, s, o) == RangeOk(h1, c1)
    requires a.low == Some(h0.roomC) && a.high == Some(c0.roomC) && (h1.roomC < h0.roomC || c1.roomC > c0.roomC)
    ensures ReleaseBlocks(RangeIntent(h1, c1, s, o, base), a)
  {
    RangeIsPair(q0, h0, c0, s, o, base);
    RangeIsPair(q1, h1, c1, s, o, base);
    BandHoldsHeating(q0.heating, h0, q1.heating, h1, s, o, RangeIntent(h1, c1, s, o, base));
    BandHoldsCooling(q0.cooling, c0, q1.cooling, c1, s, o, RangeIntent(h1, c1, s, o, base));
  }

  lemma ReleaseIsBlocked(a: AckTarget, q0: Request, q1: Request, k: Kind, s: Snapshot, o: Options, base: Intent)
    requires Close(q0, q1, k, s, o)
    requires NormalizedIntent(q0, k, s, o, base).Some? && NormalizedIntent(q1, k, s, o, base).Some?
    requires var i0 := NormalizedIntent(q0, k, s, o, base).value;
      a.room == i0.room && a.low == i0.roomLow && a.high == i0.roomHigh
    requires !NoRelease(a, AckOf(NormalizedIntent(q1, k, s, o, base).value, q1.shown), k)
    ensures ReleaseBlocks(NormalizedIntent(q1, k, s, o, base).value, a)
  {
    match k
    case Heat =>
      HeatIsBlocked(a, q0, Normalize(q0.heating, HeatingOnly, s, o).target,
                    q1, Normalize(q1.heating, HeatingOnly, s, o).target, s, o, base);
    case Cool =>
      CoolIsBlocked(a, q0, Normalize(q0.cooling, CoolingOnly, s, o).target,
                    q1, Normalize(q1.cooling, CoolingOnly, s, o).target, s, o, base);
    case Both =>
      var r0, r1 := NormalizeRange(q0.heating, q0.cooling, s, o), NormalizeRange(q1.heating, q1.cooling, s, o);
      RangeIsBlocked(a, q0, r0.heating, r0.cooling, q1, r1.heating, r1.cooling, s, o, base);
  }

  /** From one acknowledged request of a band, the next one of the band can only hold or tighten. */
  lemma BandStep(q0: Request, q1: Request, k: Kind, s: Snapshot, o: Options, base: Intent)
    requires Close(q0, q1, k, s, o)
    requires NormalizedIntent(q0, k, s, o, base).Some? && NormalizedIntent(q1, k, s, o, base).Some?
    requires AntiChatter(NormalizedIntent(q1, k, s, o, base).value,
                         Some(AckOf(NormalizedIntent(q0, k, s, o, base).value, q0.shown)), None, 0).None?
    ensures NoRelease(AckOf(NormalizedIntent(q0, k, s, o, base).value, q0.shown),
                      AckOf(NormalizedIntent(q1, k, s, o, base).value, q1.shown), k)
  {
    var a := AckOf(NormalizedIntent(q0, k, s, o, base).value, q0.shown);
    if !NoRelease(a, AckOf(NormalizedIntent(q1, k, s, o, base).value, q1.shown), k) {
      ReleaseIsBlocked(a, q0, q1, k, s, o, base);
    }
  }

  /** The acknowledged target is the one some request asked for. */
  ghost predicate Stands(a: AckTarget, q: Request, k: Kind, s: Snapshot, o: Options, base: Intent) {
    NormalizedIntent(q, k, s, o, base).Some? && a == AckOf(NormalizedIntent(q, k, s, o, base).value, q.shown)
  }

  lemma StandingMoves(first: AckTarget, before: AckTarget, q0: Request, q1: Request, k: Kind, s: Snapshot, o: Options,
      base: Intent)
    requires Stands(before, q0, k, s, o, base) && Close(q0, q1, k, s, o) && NoRelease(first, before, k)
    requires NormalizedIntent(q1, k, s, o, base).Some?
    requires AntiChatter(NormalizedIntent(q1, k, s, o, base).value, Some(before), None, 0).None?
    ensures NoRelease(first, AckOf(NormalizedIntent(q1, k, s, o, base).value, q1.shown), k)
  {
    BandStep(q0, q1, k, s, o, base);
  }

  /** Once a request of the band is acknowledged, no later request of the band lowers a heating target or raises a
      cooling target, in any rounding mode, however many requests follow. */
  lemma {:induction false} QuantisationNeverChatters(
      first: AckTarget, q: Request, qs: seq<Request>, k: Kind, s: Snapshot, o: Options, base: Intent) returns (last: Request)
    requires InBand([q] + qs, k, s, o) && Stands(first, q, k, s, o, base)
    ensures var settled := Settle(first, qs, k, s, o, base);
      NoRelease(first, settled, k) && last in [q] + qs && Stands(settled, last, k, s, o, base)
  {
    last := q;
    if qs == [] {
    } else {
      var front, next := qs[..|qs| - 1], qs[|qs| - 1];
      last := QuantisationNeverChatters(first, q, front, k, s, o, base);
      var before := Settle(first, front, k, s, o, base);
      var i := NormalizedIntent(next, k, s, o, base);
      if i.Some? && AntiChatter(i.value, Some(before), None, 0).None? {
        StandingMoves(first, before, last, next, k, s, o, base);
        last := next;
      }
    }
  }

  lemma BlockedIsAnswered(gate: bool, st: State, i: Intent, p: Preflight, now: Time)
    requires !i.recovery && st.lastError.None? && st.acknowledged.Some? && ReleaseBlocks(i, st.acknowledged.value)
    ensures Submit(gate, st, i, p, now).Answered?
  {
  }

  /** The broker's own submit agrees: with no failed write outstanding, an in-band request that would release the
      acknowledged target is answered, never sent. */
  lemma ReleaseIsAnswered(gate: bool, st: State, q0: Request, q1: Request, k: Kind, s: Snapshot, o: Options,
                          base: Intent, p: Preflight, now: Time)
    requires Close(q0, q1, k, s, o)
    requires NormalizedIntent(q0, k, s, o, base).Some? && NormalizedIntent(q1, k, s, o, base).Some?
    requires st.lastError.None? && st.acknowledged.Some?
    requires var i0 := NormalizedIntent(q0, k, s, o, base).value;
      var a := st.acknowledged.value;
      a.room == i0.room && a.low == i0.roomLow && a.high == i0.roomHigh
    requires !NoRelease(st.acknowledged.value, AckOf(NormalizedIntent(q1, k, s, o, base).value, q1.shown), k)
    ensures Submit(gate, st, NormalizedIntent(q1, k, s, o, base).value, p, now).Answered?
  {
    ReleaseIsBlocked(st.acknowledged.value, q0, q1, k, s, o, base);
    BlockedIsAnswered(gate, st, NormalizedIntent(q1, k, s, o, base).value, p, now);
  }
}
