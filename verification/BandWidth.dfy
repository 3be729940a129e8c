/** How wide a band of requests the release hysteresis really holds, for every calibration offset and rounding mode. */
module BandWidth {
  import opened Contracts
  import opened Climate
  import opened Broker
  import opened Hysteresis

  /** The hysteresis, less what the offset takes from it: the comparison is in mixed coordinates. */
  function Width(k: Kind, calibration: real): real {
    RELEASE_HYSTERESIS_C + (if k.Heat? then calibration else -calibration)
  }

  function End(q: Request, k: Kind): real { if k.Heat? then q.heating else q.cooling }

  /** With q0 acknowledged, q1 goes out and releases it. */
  predicate Releases(q0: Request, q1: Request, k: Kind, s: Snapshot, o: Options, base: Intent) {
    var i0, i1 := NormalizedIntent(q0, k, s, o, base), NormalizedIntent(q1, k, s, o, base);
    && i0.Some? && i1.Some?
    && AntiChatter(i1.value, Some(AckOf(i0.value, q0.shown)), None, 0).None?
    && !NoRelease(AckOf(i0.value, q0.shown), AckOf(i1.value, q1.shown), k)
  }

  /** Two requests less than w apart exist of which the second releases the first. */
  ghost predicate Chatters(w: real, k: Kind, s: Snapshot, o: Options, base: Intent) {
    exists q0, q1 :: Abs(End(q0, k) - End(q1, k)) < w && Releases(q0, q1, k, s, o, base)
  }

  /** On every grid, a band narrower than the width less its slack never chatters. */
  lemma NarrowBandHolds(w: real, k: Kind, s: Snapshot, o: Options, base: Intent)
    requires !k.Both? && BuildGrid(s, o).GridOk?
    requires w <= Width(k, o.calibration) - Slack(BuildGrid(s, o).grid, s.unit)
    ensures !Chatters(w, k, s, o, base)
  {
    forall q0, q1 | Abs(End(q0, k) - End(q1, k)) < w ensures !Releases(q0, q1, k, s, o, base) {
      if NormalizedIntent(q0, k, s, o, base).Some? && NormalizedIntent(q1, k, s, o, base).Some?
         && AntiChatter(NormalizedIntent(q1, k, s, o, base).value,
                        Some(AckOf(NormalizedIntent(q0, k, s, o, base).value, q0.shown)), None, 0).None? {
        BandStep(q0, q1, k, s, o, base);
      }
    }
  }

  // ---- and no wider ------------------------------------------------------------------------------

  const DEVICE := Snapshot(Some(5.0), Some(35.0), Some(0.5), Celsius)
  const HALVES := Grid(5.0, 0.5, 0, 60, 5.0, 35.0)

  /** Just beyond the grid tolerance, half a thousand-millionth of a degree. */
  const NUDGE := 0.0000000005005

  function Setting(calibration: real, mode: Option<RoundingMode>): Options {
    Options(5.0, 35.0, calibration, None, HaStep, None, 1.0, mode)
  }

  /** The boundary between the cells of 20.0 and 20.5. */
  function Boundary(k: Kind, mode: Option<RoundingMode>): real {
    match mode
    case Some(Ceiling) => 20.0
    case Some(Floor) => 20.5
    case Some(Mathematical) => 20.25
    case None => if k.Heat? then 20.0 else 20.5
  }

  /** A request just inside the acknowledged cell, and one just far enough on the other side of its boundary. */
  function Inside(k: Kind, c: real, mode: Option<RoundingMode>): Request {
    var e := Boundary(k, mode) - c;
    if k.Heat? then Request(e + NUDGE, 0.0, Fingerprint(Scalar, Some(20.5), None, None))
    else Request(0.0, e - NUDGE, Fingerprint(Scalar, Some(20.0), None, None))
  }

  function Beyond(k: Kind, c: real, mode: Option<RoundingMode>): Request {
    var e := Boundary(k, mode) - c;
    var shown := Fingerprint(Scalar, Some(20.0), None, None);
    if k.Heat? then Request(e + Min(-NUDGE, -RELEASE_HYSTERESIS_C - c), 0.0, shown)
    else Request(0.0, e + Max(NUDGE, RELEASE_HYSTERESIS_C - c), shown)
  }

  lemma SettingsGrid(c: real, mode: Option<RoundingMode>)
    requires -3.0 <= c <= 3.0
    ensures BuildGrid(DEVICE, Setting(c, mode)) == GridOk(HALVES)
    ensures Slack(HALVES, Celsius) == 0.000000000501
  {
    assert Quotient(0.0, 0.5) == 0.0 && Quotient(30.0, 0.5) == 60.0;
  }

  /** Where a request within bounds is rounded to on the half-degree grid. */
  lemma RoundedOnHalves(r: real, d: Direction, c: real, mode: Option<RoundingMode>, index: int)
    requires -3.0 <= c <= 3.0 && 5.0 <= r + c <= 35.0 && !d.Ranged? && 0 <= index <= 60
    requires Round(2.0 * (r + c) - 10.0, d, mode) == index
    ensures var t := Normalize(r, d, DEVICE, Setting(c, mode));
      && t.ScalarOk? && t.target.direction == d && t.target.bounded == r + c && t.target.grid == HALVES
      && t.target.ha == 5.0 + 0.5 * index as real && t.target.roomC == t.target.ha - c
      && t.target.actuatorC == t.target.ha
  {
    SettingsGrid(c, mode);
    assert Position(HALVES, r + c) == 2.0 * (r + c) - 10.0;
  }

  lemma InsideIsRounded(k: Kind, c: real, mode: Option<RoundingMode>)
    requires -3.0 <= c <= 3.0 && !k.Both?
    ensures Round(2.0 * (End(Inside(k, c, mode), k) + c) - 10.0, if k.Heat? then HeatingOnly else CoolingOnly, mode)
         == if k.Heat? then 31 else 30
  {
  }

  lemma BeyondIsRounded(k: Kind, c: real, mode: Option<RoundingMode>)
    requires -3.0 <= c <= 3.0 && !k.Both?
    ensures var index :=
      Round(2.0 * (End(Beyond(k, c, mode), k) + c) - 10.0, if k.Heat? then HeatingOnly else CoolingOnly, mode);
      if k.Heat? then 20 <= index <= 30 else 31 <= index <= 40
  {
  }

  /** The second request clears the release boundary of the first one's cell. */
  lemma BeyondClears(k: Kind, c: real, mode: Option<RoundingMode>, i: Intent)
    requires -3.0 <= c <= 3.0 && !k.Both? && i.rounding == mode && i.stepRoom == Some(0.5)
    ensures var continuous := Some(End(Beyond(k, c, mode), k) + c);
      if k.Heat? then !HoldsHeating(i, continuous, 20.5 - c) else !HoldsCooling(i, continuous, 20.0 - c)
  {
  }

  lemma ScalarIsRounded(q: Request, k: Kind, c: real, mode: Option<RoundingMode>, index: int, base: Intent)
    requires -3.0 <= c <= 3.0 && !k.Both? && 5.0 <= End(q, k) + c <= 35.0 && 0 <= index <= 60
    requires Round(2.0 * (End(q, k) + c) - 10.0, if k.Heat? then HeatingOnly else CoolingOnly, mode) == index
    ensures var i := NormalizedIntent(q, k, DEVICE, Setting(c, mode), base);
      var p := 5.0 + 0.5 * index as real;
      && i.Some? && i.value.meaningfulDelta == base.meaningfulDelta && i.value.direction.HeatingOnly? == k.Heat?
      && i.value.shape.Scalar? && !i.value.direction.Ranged? && !i.value.explicit && !i.value.recovery
      && i.value.rounding == mode && i.value.stepRoom == Some(0.5)
      && i.value.temperature == Some(p) && i.value.room == Some(p - c) && i.value.continuous == Some(End(q, k) + c)
  {
    RoundedOnHalves(End(q, k), if k.Heat? then HeatingOnly else CoolingOnly, c, mode, index);
  }

  /** What rounding leaves of a scalar request. */
  predicate ScalarAt(i: Intent, k: Kind, c: real, p: real) {
    && i.shape.Scalar? && i.direction == (if k.Heat? then HeatingOnly else CoolingOnly)
    && !i.explicit && !i.recovery && i.meaningfulDelta <= 0.5
    && i.temperature == Some(p) && i.room == Some(p - c)
  }

  lemma InsideIsScalar(k: Kind, c: real, mode: Option<RoundingMode>, base: Intent)
    requires -3.0 <= c <= 3.0 && !k.Both? && base.meaningfulDelta <= 0.5
    ensures var i := NormalizedIntent(Inside(k, c, mode), k, DEVICE, Setting(c, mode), base);
      i.Some? && ScalarAt(i.value, k, c, if k.Heat? then 20.5 else 20.0)
  {
    InsideIsRounded(k, c, mode);
    ScalarIsRounded(Inside(k, c, mode), k, c, mode, if k.Heat? then 31 else 30, base);
  }

  lemma BeyondIsScalar(k: Kind, c: real, mode: Option<RoundingMode>, base: Intent) returns (p: real)
    requires -3.0 <= c <= 3.0 && !k.Both? && base.meaningfulDelta <= 0.5
    ensures var i := NormalizedIntent(Beyond(k, c, mode), k, DEVICE, Setting(c, mode), base);
      && i.Some? && ScalarAt(i.value, k, c, p) && (if k.Heat? then p <= 20.0 else p >= 20.5)
      && (if k.Heat? then !HoldsHeating(i.value, i.value.continuous, 20.5 - c)
          else !HoldsCooling(i.value, i.value.continuous, 20.0 - c))
  {
    var q := Beyond(k, c, mode);
    BeyondIsRounded(k, c, mode);
    var index := Round(2.0 * (End(q, k) + c) - 10.0, if k.Heat? then HeatingOnly else CoolingOnly, mode);
    ScalarIsRounded(q, k, c, mode, index, base);
    BeyondClears(k, c, mode, NormalizedIntent(q, k, DEVICE, Setting(c, mode), base).value);
    p := 5.0 + 0.5 * index as real;
  }

  lemma ScalarReleases(k: Kind, c: real, i0: Intent, i1: Intent, p: real, shown: Fingerprint)
    requires !k.Both? && ScalarAt(i0, k, c, if k.Heat? then 20.5 else 20.0) && ScalarAt(i1, k, c, p)
    requires if k.Heat? then p <= 20.0 else p >= 20.5
    requires if k.Heat? then !HoldsHeating(i1, i1.continuous, 20.5 - c) else !HoldsCooling(i1, i1.continuous, 20.0 - c)
    ensures var a := AckOf(i0, Fingerprint(Scalar, i0.temperature, None, None));
      AntiChatter(i1, Some(a), None, 0).None? && !NoRelease(a, AckOf(i1, shown), k)
  {
  }

  lemma BeyondReleases(k: Kind, c: real, mode: Option<RoundingMode>, base: Intent)
    requires -3.0 <= c <= 3.0 && !k.Both? && base.meaningfulDelta <= 0.5
    ensures Releases(Inside(k, c, mode), Beyond(k, c, mode), k, DEVICE, Setting(c, mode), base)
  {
    InsideIsScalar(k, c, mode, base);
    var p := BeyondIsScalar(k, c, mode, base);
    ScalarReleases(k, c, NormalizedIntent(Inside(k, c, mode), k, DEVICE, Setting(c, mode), base).value,
                   NormalizedIntent(Beyond(k, c, mode), k, DEVICE, Setting(c, mode), base).value, p,
                   Beyond(k, c, mode).shown);
  }

  /** The width is exact in both directions up to the slack, for every offset a zone may configure, heating and
      cooling, in all four rounding modes: 0.1 + c for heating and 0.1 - c for cooling, and nothing at all once that
      is used up. */
  lemma WidthIsExact(w: real, k: Kind, c: real, mode: Option<RoundingMode>, base: Intent)
    requires -3.0 <= c <= 3.0 && !k.Both? && base.meaningfulDelta <= 0.5
    ensures BuildGrid(DEVICE, Setting(c, mode)) == GridOk(HALVES)
    ensures w <= Width(k, c) - Slack(HALVES, Celsius) ==> !Chatters(w, k, DEVICE, Setting(c, mode), base)
    ensures w >= Max(2.0 * Slack(HALVES, Celsius), Width(k, c) + Slack(HALVES, Celsius)) ==>
      Chatters(w, k, DEVICE, Setting(c, mode), base)
  {
    SettingsGrid(c, mode);
    if w <= Width(k, c) - Slack(HALVES, Celsius) { NarrowBandHolds(w, k, DEVICE, Setting(c, mode), base); }
    if w >= Max(2.0 * Slack(HALVES, Celsius), Width(k, c) + Slack(HALVES, Celsius)) {
      BeyondReleases(k, c, mode, base);
      assert Abs(End(Inside(k, c, mode), k) - End(Beyond(k, c, mode), k)) < w;
    }
  }

  /** An offset that uses the width up, -0.1 or less for heating and 0.1 or more for cooling, leaves no hysteresis: two
      requests a thousand-millionth of a degree apart move an acknowledged setpoint by a whole step. */
  lemma SpentOffsetMovesAStep(k: Kind, c: real, mode: Option<RoundingMode>, base: Intent)
    requires -3.0 <= c <= 3.0 && !k.Both? && base.meaningfulDelta <= 0.5 && Width(k, c) <= 0.0
    ensures var q0, q1 := Inside(k, c, mode), Beyond(k, c, mode);
      && Releases(q0, q1, k, DEVICE, Setting(c, mode), base)
      && Abs(End(q0, k) - End(q1, k)) == 2.0 * NUDGE
      && NormalizedIntent(q1, k, DEVICE, Setting(c, mode), base).value.room.value
         == NormalizedIntent(q0, k, DEVICE, Setting(c, mode), base).value.room.value + (if k.Heat? then -0.5 else 0.5)
  {
    var d := if k.Heat? then HeatingOnly else CoolingOnly;
    var r0, r1 := End(Inside(k, c, mode), k), End(Beyond(k, c, mode), k);
    BeyondReleases(k, c, mode, base);
    InsideIsRounded(k, c, mode);
    RoundedOnHalves(r0, d, c, mode, if k.Heat? then 31 else 30);
    RoundedOnHalves(r1, d, c, mode, if k.Heat? then 30 else 31);
  }

  // ---- ranges ------------------------------------------------------------------------------------

  /** Two ranges exist, their ends less than wh and wc apart, of which the second releases an end of the first. */
  ghost predicate RangeChatters(wh: real, wc: real, s: Snapshot, o: Options, base: Intent) {
    exists q0: Request, q1: Request :: Abs(q0.heating - q1.heating) < wh && Abs(q0.cooling - q1.cooling) < wc
                     && Releases(q0, q1, Both, s, o, base)
  }

  /** On every grid, a range each of whose ends stays within its own width never chatters. */
  lemma NarrowRangeHolds(wh: real, wc: real, s: Snapshot, o: Options, base: Intent)
    requires BuildGrid(s, o).GridOk?
    requires wh <= Width(Heat, o.calibration) - Slack(BuildGrid(s, o).grid, s.unit)
    requires wc <= Width(Cool, o.calibration) - Slack(BuildGrid(s, o).grid, s.unit)
    ensures !RangeChatters(wh, wc, s, o, base)
  {
    forall q0: Request, q1: Request | Abs(q0.heating - q1.heating) < wh && Abs(q0.cooling - q1.cooling) < wc
      ensures !Releases(q0, q1, Both, s, o, base)
    {
      if NormalizedIntent(q0, Both, s, o, base).Some? && NormalizedIntent(q1, Both, s, o, base).Some?
         && AntiChatter(NormalizedIntent(q1, Both, s, o, base).value,
                        Some(AckOf(NormalizedIntent(q0, Both, s, o, base).value, q0.shown)), None, 0).None? {
        BandStep(q0, q1, Both, s, o, base);
      }
    }
  }

  /** The same end with the other one well away from it. */
  function Paired(q: Request, k: Kind, c: real): Request {
    if k.Heat? then Request(q.heating, 30.0 - c, Fingerprint(Range, None, Some(20.5), Some(30.0)))
    else Request(10.0 - c, q.cooling, Fingerprint(Range, None, Some(10.0), Some(20.0)))
  }

  lemma PairedIsRounded(q: Request, k: Kind, c: real, mode: Option<RoundingMode>, index: int, base: Intent)
    requires -3.0 <= c <= 3.0 && !k.Both? && 5.0 <= End(q, k) + c <= 35.0 && 12 <= index <= 48
    requires Round(2.0 * (End(q, k) + c) - 10.0, if k.Heat? then HeatingOnly else CoolingOnly, mode) == index
    ensures var i := NormalizedIntent(Paired(q, k, c), Both, DEVICE, Setting(c, mode), base);
      var p := 5.0 + 0.5 * index as real;
      && i.Some? && i.value.meaningfulDelta == base.meaningfulDelta
      && i.value.shape.Range? && !i.value.explicit && !i.value.recovery && i.value.rounding == mode
      && i.value.stepRoom == Some(0.5)
      && i.value.low == Some(if k.Heat? then p else 10.0) && i.value.high == Some(if k.Heat? then 30.0 else p)
      && i.value.roomLow == Some(i.value.low.value - c) && i.value.roomHigh == Some(i.value.high.value - c)
      && (if k.Heat? then i.value.continuousLow else i.value.continuousHigh) == Some(End(q, k) + c)
  {
    RoundedOnHalves(End(q, k), if k.Heat? then HeatingOnly else CoolingOnly, c, mode, index);
    if k.Heat? { RoundedOnHalves(30.0 - c, CoolingOnly, c, mode, 50); }
    else { RoundedOnHalves(10.0 - c, HeatingOnly, c, mode, 10); }
    SettingsGrid(c, mode);
  }

  /** What rounding leaves of a paired request: one end at this setpoint, the other fixed. */
  predicate PairedAt(i: Intent, k: Kind, c: real, p: real) {
    && i.shape.Range? && !i.explicit && !i.recovery && i.meaningfulDelta <= 0.5
    && i.low == Some(if k.Heat? then p else 10.0) && i.high == Some(if k.Heat? then 30.0 else p)
    && i.roomLow == Some(i.low.value - c) && i.roomHigh == Some(i.high.value - c)
  }

  lemma PairedReleases(k: Kind, c: real, i0: Intent, i1: Intent, p: real, shown: Fingerprint)
    requires !k.Both? && PairedAt(i0, k, c, if k.Heat? then 20.5 else 20.0) && PairedAt(i1, k, c, p)
    requires if k.Heat? then p <= 20.0 else p >= 20.5
    requires if k.Heat? then !HoldsHeating(i1, i1.continuousLow, 20.5 - c)
             else !HoldsCooling(i1, i1.continuousHigh, 20.0 - c)
    ensures var a := AckOf(i0, Requested(i0).(temperature := None));
      AntiChatter(i1, Some(a), None, 0).None? && !NoRelease(a, AckOf(i1, shown), Both)
  {
  }

  lemma InsideIsPaired(k: Kind, c: real, mode: Option<RoundingMode>, base: Intent)
    requires -3.0 <= c <= 3.0 && !k.Both? && base.meaningfulDelta <= 0.5
    ensures var i := NormalizedIntent(Paired(Inside(k, c, mode), k, c), Both, DEVICE, Setting(c, mode), base);
      && i.Some? && PairedAt(i.value, k, c, if k.Heat? then 20.5 else 20.0)
      && Paired(Inside(k, c, mode), k, c).shown == Requested(i.value).(temperature := None)
  {
    InsideIsRounded(k, c, mode);
    PairedIsRounded(Inside(k, c, mode), k, c, mode, if k.Heat? then 31 else 30, base);
  }

  lemma BeyondIsPaired(k: Kind, c: real, mode: Option<RoundingMode>, base: Intent) returns (p: real)
    requires -3.0 <= c <= 3.0 && !k.Both? && base.meaningfulDelta <= 0.5
    ensures var i := NormalizedIntent(Paired(Beyond(k, c, mode), k, c), Both, DEVICE, Setting(c, mode), base);
      && i.Some? && PairedAt(i.value, k, c, p) && (if k.Heat? then p <= 20.0 else p >= 20.5)
      && (if k.Heat? then !HoldsHeating(i.value, i.value.continuousLow, 20.5 - c)
          else !HoldsCooling(i.value, i.value.continuousHigh, 20.0 - c))
  {
    var q := Beyond(k, c, mode);
    BeyondIsRounded(k, c, mode);
    var index := Round(2.0 * (End(q, k) + c) - 10.0, if k.Heat? then HeatingOnly else CoolingOnly, mode);
    PairedIsRounded(q, k, c, mode, index, base);
    BeyondClears(k, c, mode, NormalizedIntent(Paired(q, k, c), Both, DEVICE, Setting(c, mode), base).value);
    p := 5.0 + 0.5 * index as real;
  }

  lemma RangeReleases(k: Kind, c: real, mode: Option<RoundingMode>, base: Intent)
    requires -3.0 <= c <= 3.0 && !k.Both? && base.meaningfulDelta <= 0.5
    ensures Releases(Paired(Inside(k, c, mode), k, c), Paired(Beyond(k, c, mode), k, c), Both, DEVICE, Setting(c, mode),
                     base)
  {
    InsideIsPaired(k, c, mode, base);
    var p := BeyondIsPaired(k, c, mode, base);
    var q0, q1 := Paired(Inside(k, c, mode), k, c), Paired(Beyond(k, c, mode), k, c);
    PairedReleases(k, c, NormalizedIntent(q0, Both, DEVICE, Setting(c, mode), base).value,
                   NormalizedIntent(q1, Both, DEVICE, Setting(c, mode), base).value, p, q1.shown);
  }

  /** For a range the two widths are exact separately: it holds while each end stays within its own, and chatters as
      soon as either end may go beyond it, however little the other moves. */
  lemma RangeWidthIsExact(wh: real, wc: real, c: real, mode: Option<RoundingMode>, base: Intent)
    requires -3.0 <= c <= 3.0 && base.meaningfulDelta <= 0.5 && wh > 0.0 && wc > 0.0
    ensures BuildGrid(DEVICE, Setting(c, mode)) == GridOk(HALVES)
    ensures var slack := Slack(HALVES, Celsius);
      && (wh <= Width(Heat, c) - slack && wc <= Width(Cool, c) - slack ==>
            !RangeChatters(wh, wc, DEVICE, Setting(c, mode), base))
      && (wh >= Max(2.0 * slack, Width(Heat, c) + slack) || wc >= Max(2.0 * slack, Width(Cool, c) + slack) ==>
            RangeChatters(wh, wc, DEVICE, Setting(c, mode), base))
  {
    SettingsGrid(c, mode);
    var slack := Slack(HALVES, Celsius);
    if wh <= Width(Heat, c) - slack && wc <= Width(Cool, c) - slack {
      NarrowRangeHolds(wh, wc, DEVICE, Setting(c, mode), base);
    }
    if wh >= Max(2.0 * slack, Width(Heat, c) + slack) { EndChatters(wh, wc, Heat, c, mode, base); }
    if wc >= Max(2.0 * slack, Width(Cool, c) + slack) { EndChatters(wh, wc, Cool, c, mode, base); }
  }

  lemma EndChatters(wh: real, wc: real, k: Kind, c: real, mode: Option<RoundingMode>, base: Intent)
    requires -3.0 <= c <= 3.0 && !k.Both? && base.meaningfulDelta <= 0.5 && wh > 0.0 && wc > 0.0
    requires (if k.Heat? then wh else wc)
          >= Max(2.0 * Slack(HALVES, Celsius), Width(k, c) + Slack(HALVES, Celsius))
    ensures RangeChatters(wh, wc, DEVICE, Setting(c, mode), base)
  {
    SettingsGrid(c, mode);
    RangeReleases(k, c, mode, base);
    var q0, q1 := Paired(Inside(k, c, mode), k, c), Paired(Beyond(k, c, mode), k, c);
    assert Abs(End(Inside(k, c, mode), k) - End(Beyond(k, c, mode), k)) < if k.Heat? then wh else wc;
    assert Abs(q0.heating - q1.heating) < wh && Abs(q0.cooling - q1.cooling) < wc;
  }
}
