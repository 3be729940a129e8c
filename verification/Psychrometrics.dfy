/** Constant-moisture humidity and the dew or frost point, over any positive nondecreasing saturation curve. */
module Psychrometrics {
  import opened Contracts

  const MIN_C := -100.0
  const MAX_C := 200.0
  const OVERSHOOT_PCT := 0.000001
  const DEW_TOLERANCE := 0.001
  const MAX_DEW_ITERATIONS: nat := 64

  type Curve = real -> real

  ghost predicate Saturating(c: Curve) {
    && (forall t :: MIN_C <= t <= MAX_C ==> c(t) > 0.0)
    && (forall s, t :: MIN_C <= s <= t <= MAX_C ==> c(s) <= c(t))
  }

  datatype MoistureCode = OutsidePsychrometricDomain | InvalidHumidity | BelowPsychrometricDomain | Supersaturated

  datatype Moisture = Moisture(air: real, vapor: real)

  predicate InDomain(t: real) { MIN_C <= t <= MAX_C }

  datatype Humidity = Humid(rh: real) | HumidityFailed(code: MoistureCode)

  function CandidateHumidity(c: Curve, m: Moisture, t: real): Humidity {
    if m.vapor < 0.0 then HumidityFailed(InvalidHumidity)
    else if !InDomain(t) || c(t) <= 0.0 then HumidityFailed(OutsidePsychrometricDomain)
    else
      var rh := 100.0 * m.vapor / c(t);
      if rh > 100.0 + OVERSHOOT_PCT then HumidityFailed(Supersaturated) else Humid(Min(rh, 100.0))
  }

  datatype Dew = DewAt(t: real) | DryLimit | DewFailed(code: MoistureCode)

  /** At most n halvings of a bracket of the vapour pressure. */
  function Narrow(c: Curve, vapor: real, low: real, high: real, n: nat): (real, real)
    decreases n
  {
    if n == 0 || high - low <= DEW_TOLERANCE then (low, high)
    else
      var m := (low + high) / 2.0;
      if c(m) < vapor then Narrow(c, vapor, m, high, n - 1) else Narrow(c, vapor, low, m, n - 1)
  }

  /** Refusals before the search starts. */
  function DewRefusal(c: Curve, m: Moisture): Option<Dew> {
    if m.vapor < 0.0 then Some(DewFailed(InvalidHumidity))
    else if m.vapor == 0.0 then Some(DryLimit)
    else if m.vapor < c(MIN_C) then Some(DewFailed(BelowPsychrometricDomain))
    else if !InDomain(m.air) then Some(DewFailed(OutsidePsychrometricDomain))
    else if m.vapor > c(m.air) * (1.0 + OVERSHOOT_PCT / 100.0) then Some(DewFailed(Supersaturated))
    else None
  }

  function DewPoint(c: Curve, m: Moisture): Dew {
    var refusal := DewRefusal(c, m);
    if refusal.Some? then refusal.value
    else
      var (low, high) := Narrow(c, m.vapor, MIN_C, m.air, MAX_DEW_ITERATIONS);
      DewAt((low + high) / 2.0)
  }

  /** The search with its two ends updated in place. */
  method FindDewPoint(c: Curve, m: Moisture) returns (d: Dew)
    ensures d == DewPoint(c, m)
  {
    var refusal := DewRefusal(c, m);
    if refusal.Some? { return refusal.value; }
    var low, high := MIN_C, m.air;
    var k := 0;
    while k < MAX_DEW_ITERATIONS && high - low > DEW_TOLERANCE
      invariant k <= MAX_DEW_ITERATIONS
      invariant Narrow(c, m.vapor, low, high, MAX_DEW_ITERATIONS - k) == Narrow(c, m.vapor, MIN_C, m.air, MAX_DEW_ITERATIONS)
    {
      var middle := (low + high) / 2.0;
      if c(middle) < m.vapor { low := middle; } else { high := middle; }
      k := k + 1;
    }
    d := DewAt((low + high) / 2.0);
  }

  function PowerOfTwo(n: nat): real { if n == 0 then 1.0 else 2.0 * PowerOfTwo(n - 1) }

  lemma WithinOvershoot(vapor: real, saturation: real)
    requires 0.0 < vapor <= saturation
    ensures vapor <= saturation * (1.0 + OVERSHOOT_PCT / 100.0)
  {
  }

  lemma HalfTheBracket(width: real, k: nat)
    requires DEW_TOLERANCE < width <= DEW_TOLERANCE * PowerOfTwo(k)
    ensures k > 0 && width / 2.0 <= DEW_TOLERANCE * PowerOfTwo(k - 1)
  {
  }

  /** The bracket closes within k halvings if it was at most 2^k tolerances wide, and always holds the pressure:
      at or above it (to the overshoot allowed at the start) on the warm side, at or below it on the cold side. */
  lemma {:induction false} NarrowCloses(c: Curve, vapor: real, low: real, high: real, n: nat, k: nat)
    requires Saturating(c) && MIN_C <= low <= high <= MAX_C && k <= n
    requires high - low <= DEW_TOLERANCE * PowerOfTwo(k)
    requires 0.0 < vapor <= c(high) * (1.0 + OVERSHOOT_PCT / 100.0) && c(low) <= vapor
    ensures var (l, h) := Narrow(c, vapor, low, high, n);
      && low <= l <= h <= high && h - l <= DEW_TOLERANCE
      && vapor <= c(h) * (1.0 + OVERSHOOT_PCT / 100.0) && c(l) <= vapor
      && Narrow(c, vapor, low, high, k) == (l, h)
    decreases n
  {
    if n > 0 && high - low > DEW_TOLERANCE {
      var m := (low + high) / 2.0;
      HalfTheBracket(high - low, k);
      if c(m) < vapor {
        NarrowCloses(c, vapor, m, high, n - 1, k - 1);
      } else {
        WithinOvershoot(vapor, c(m));
        NarrowCloses(c, vapor, low, m, n - 1, k - 1);
      }
    }
  }

  lemma TwentyHalvingsSuffice()
    ensures DEW_TOLERANCE * PowerOfTwo(20) >= MAX_C - MIN_C
  {
    assert PowerOfTwo(5) == 32.0;
    assert PowerOfTwo(10) == 1024.0;
    assert PowerOfTwo(15) == 32768.0;
    assert PowerOfTwo(20) == 1048576.0;
  }

  /** The dew point search always closes to its thousandth of a degree, in twenty halvings of the sixty-four
      allowed, and the reported temperature is within that of where the curve crosses the vapour pressure. */
  lemma DewPointIsFound(c: Curve, m: Moisture) returns (low: real, high: real)
    requires Saturating(c) && DewPoint(c, m).DewAt?
    ensures low <= DewPoint(c, m).t <= high && high - low <= DEW_TOLERANCE
    ensures DewPoint(c, m).t - low == high - DewPoint(c, m).t
    ensures MIN_C <= low && high <= m.air <= MAX_C
    ensures c(low) <= m.vapor <= c(high) * (1.0 + OVERSHOOT_PCT / 100.0)
    ensures (low, high) == Narrow(c, m.vapor, MIN_C, m.air, 20)
  {
    TwentyHalvingsSuffice();
    NarrowCloses(c, m.vapor, MIN_C, m.air, MAX_DEW_ITERATIONS, 20);
    var (l, h) := Narrow(c, m.vapor, MIN_C, m.air, MAX_DEW_ITERATIONS);
    low, high := l, h;
  }

  lemma RatioWithinOvershoot(vapor: real, saturation: real)
    requires saturation > 0.0 && vapor <= saturation * (1.0 + OVERSHOOT_PCT / 100.0)
    ensures 100.0 * vapor / saturation <= 100.0 + OVERSHOOT_PCT
  {
    var q := 100.0 * vapor / saturation;
    assert q * saturation == 100.0 * vapor;
    if q > 100.0 + OVERSHOOT_PCT {
      assert (q - (100.0 + OVERSHOOT_PCT)) * saturation > 0.0;
    }
  }

  /** At or above the warm side of the dew bracket the curve reaches the vapour pressure, to the overshoot. */
  lemma WarmSideReaches(c: Curve, m: Moisture, t: real)
    requires Saturating(c) && InDomain(t) && DewPoint(c, m).DewAt? && t >= DewPoint(c, m).t + DEW_TOLERANCE
    ensures m.vapor <= c(t) * (1.0 + OVERSHOOT_PCT / 100.0)
  {
    var low, high := DewPointIsFound(c, m);
    OvershootGrows(c(high), c(t));
  }

  lemma OvershootGrows(a: real, b: real)
    requires a <= b
    ensures a * (1.0 + OVERSHOOT_PCT / 100.0) <= b * (1.0 + OVERSHOOT_PCT / 100.0)
  {
  }

  /** So the air there can hold its moisture. */
  lemma WarmerIsUnsaturated(c: Curve, m: Moisture, t: real)
    requires Saturating(c) && InDomain(t)
    requires DewPoint(c, m).DryLimit? || (DewPoint(c, m).DewAt? && t >= DewPoint(c, m).t + DEW_TOLERANCE)
    ensures CandidateHumidity(c, m, t).Humid?
  {
    if DewPoint(c, m).DewAt? { WarmSideReaches(c, m, t); }
    RatioWithinOvershoot(m.vapor, c(t));
  }

  // ---- humidity at constant moisture ---------------------------------------------------------------

  lemma RatioIsHumidity(vapor: real, saturation: real, limit: real)
    requires saturation > 0.0
    ensures var rh := 100.0 * vapor / saturation;
      rh * saturation == 100.0 * vapor && (rh > limit <==> 100.0 * vapor > limit * saturation)
  {
    var rh := 100.0 * vapor / saturation;
    assert rh * saturation == 100.0 * vapor;
    if rh > limit { assert (rh - limit) * saturation > 0.0; } else { assert (limit - rh) * saturation >= 0.0; }
  }

  /** Moved to another temperature, air keeps its vapour: the humidity is that vapour's share of saturation, 100
      percent at most, and there is none only for a negative pressure, outside the formulas' range, or more than the
      overshoot beyond saturation. */
  lemma HumidityExactly(c: Curve, m: Moisture, t: real)
    ensures var h := CandidateHumidity(c, m, t);
      && (h == HumidityFailed(InvalidHumidity) <==> m.vapor < 0.0)
      && (h == HumidityFailed(OutsidePsychrometricDomain) <==> m.vapor >= 0.0 && (t < -100.0 || t > 200.0 || c(t) <= 0.0))
      && (h == HumidityFailed(Supersaturated) <==>
            m.vapor >= 0.0 && -100.0 <= t <= 200.0 && c(t) > 0.0 && 100.0 * m.vapor > 100.000001 * c(t))
      && h != HumidityFailed(BelowPsychrometricDomain)
      && (h.Humid? ==> h.rh <= 100.0
                       && if m.vapor <= c(t) then h.rh * c(t) == 100.0 * m.vapor else h.rh == 100.0)
  {
    if m.vapor >= 0.0 && InDomain(t) && c(t) > 0.0 {
      RatioIsHumidity(m.vapor, c(t), 100.000001);
      RatioIsHumidity(m.vapor, c(t), 100.0);
    }
  }

  /** Drier air is found dry, and every other refusal of the dew point names its one cause. */
  lemma DewPointExactly(c: Curve, m: Moisture)
    ensures var d := DewPoint(c, m);
      && (d.DryLimit? <==> m.vapor == 0.0)
      && (d == DewFailed(InvalidHumidity) <==> m.vapor < 0.0)
      && (d == DewFailed(BelowPsychrometricDomain) <==> 0.0 < m.vapor < c(-100.0))
      && (d == DewFailed(OutsidePsychrometricDomain) <==>
            m.vapor > 0.0 && m.vapor >= c(-100.0) && (m.air < -100.0 || m.air > 200.0))
      && (d == DewFailed(Supersaturated) <==>
            m.vapor > 0.0 && m.vapor >= c(-100.0) && -100.0 <= m.air <= 200.0 && m.vapor > c(m.air) * 1.00000001)
      && (d.DewAt? <==>
            m.vapor > 0.0 && c(-100.0) <= m.vapor <= c(m.air) * 1.00000001 && -100.0 <= m.air <= 200.0)
  {
    assert 1.0 + OVERSHOOT_PCT / 100.0 == 1.00000001;
  }
}
