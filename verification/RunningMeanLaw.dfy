/** What the running mean is, day by day: a Horner sum over the last seven days. */
module RunningMeanLaw {
  import opened Contracts
  import opened History
  import opened RunningMean

  /** The day `i + 1` days ago has a mean, and at least nine tenths of it are covered. */
  predicate Usable(days: map<int, Day>, today: int, i: nat)
    requires forall date :: date in days ==> Proper(days[date])
  {
    var date := today - (i + 1);
    && date in days && days[date].covered > 0.0
    && days[date].covered >= 0.9 * Seconds(days[date].end - days[date].start)
  }

  lemma CoverageIsShare(d: Day)
    requires Proper(d)
    ensures Coverage(d) * Seconds(d.end - d.start) == d.covered
    ensures Eligible(d) <==> d.covered >= 0.9 * Seconds(d.end - d.start)
  {
    var length := Seconds(d.end - d.start);
    var share := Coverage(d);
    assert share * length == d.covered;
    if share >= 0.9 { assert (share - 0.9) * length >= 0.0; } else { assert (0.9 - share) * length > 0.0; }
  }

  lemma CountsIsUsable(days: map<int, Day>, today: int, i: nat)
    requires forall date :: date in days ==> Proper(days[date])
    ensures Counts(days, today, i) <==> Usable(days, today, i)
  {
    if today - (i + 1) in days { CoverageIsShare(days[today - (i + 1)]); }
  }

  /** The mean of a day, in the sense of its seconds. */
  lemma MeanIsAverage(d: Day)
    ensures Mean(d).Some? <==> d.covered > 0.0
    ensures Mean(d).Some? ==> Mean(d).value * d.covered == d.integral
  {
  }

  /** What the last days are worth, each a share alpha of the day after it: yesterday first. A day that is not usable
      counts for nothing; for diagnosis every day with a mean counts by its coverage. */
  function Share(days: map<int, Day>, today: int, i: nat, estimate: bool): real
    requires forall date :: date in days ==> Proper(days[date])
  {
    var date := today - (i + 1);
    if estimate then (if date in days && days[date].covered > 0.0 then Coverage(days[date]) else 0.0)
    else if Usable(days, today, i) then 1.0 else 0.0
  }

  /** Yesterday's part, and alpha times the same of the days before. */
  function Horner(xs: seq<real>, alpha: real): real {
    if xs == [] then 0.0 else xs[0] + alpha * Horner(xs[1..], alpha)
  }

  function PowerSum(xs: seq<real>, alpha: real, n: nat): real
    requires n <= |xs|
  {
    if n == 0 then 0.0 else PowerSum(xs, alpha, n - 1) + Power(alpha, n - 1) * xs[n - 1]
  }

  lemma Collect(alpha: real, first: real, before: real, p: real, x: real)
    ensures first + alpha * before + (alpha * p) * x == first + alpha * (before + p * x)
  {
  }

  lemma {:induction false} SumMovesOn(xs: seq<real>, alpha: real, n: nat)
    requires n < |xs|
    ensures PowerSum(xs, alpha, n + 1) == xs[0] + alpha * PowerSum(xs[1..], alpha, n)
  {
    if n == 0 {
      assert PowerSum(xs, alpha, 0) == 0.0 && Power(alpha, 0) == 1.0;
    } else {
      SumMovesOn(xs, alpha, n - 1);
      Collect(alpha, xs[0], PowerSum(xs[1..], alpha, n - 1), Power(alpha, n - 1), xs[n]);
    }
  }

  lemma {:induction false} PowerSumIsHorner(xs: seq<real>, alpha: real)
    ensures PowerSum(xs, alpha, |xs|) == Horner(xs, alpha)
  {
    if xs != [] {
      PowerSumIsHorner(xs[1..], alpha);
      SumMovesOn(xs, alpha, |xs| - 1);
    }
  }

  function Shares(days: map<int, Day>, today: int, n: nat, estimate: bool): (r: seq<real>)
    requires forall date :: date in days ==> Proper(days[date])
    ensures |r| == n && forall i :: 0 <= i < n ==> r[i] == Share(days, today, i, estimate)
  {
    if n == 0 then [] else Shares(days, today, n - 1, estimate) + [Share(days, today, n - 1, estimate)]
  }

  /** The days' means, each times its share. */
  function Values(days: map<int, Day>, today: int, n: nat, estimate: bool): (r: seq<real>)
    requires forall date :: date in days ==> Proper(days[date])
    ensures |r| == n && forall i :: 0 <= i < n ==> r[i] == Share(days, today, i, estimate) * MeanAt(days, today, i)
  {
    if n == 0 then []
    else Values(days, today, n - 1, estimate) + [Share(days, today, n - 1, estimate) * MeanAt(days, today, n - 1)]
  }

  lemma Reorders(p: real, share: real, mean: real)
    ensures p * share * mean == p * (share * mean)
  {
  }

  lemma WeightIsShare(days: map<int, Day>, today: int, alpha: real, i: nat, estimate: bool)
    requires forall date :: date in days ==> Proper(days[date])
    ensures Weight(days, today, alpha, i, estimate) == Power(alpha, i) * Share(days, today, i, estimate)
    ensures Term(days, today, alpha, i, estimate)
         == Power(alpha, i) * (Share(days, today, i, estimate) * MeanAt(days, today, i))
  {
    CountsIsUsable(days, today, i);
    Reorders(Power(alpha, i), Share(days, today, i, estimate), MeanAt(days, today, i));
  }

  lemma {:induction false} MassIsSum(days: map<int, Day>, today: int, alpha: real, xs: seq<real>, n: nat, estimate: bool)
    requires forall date :: date in days ==> Proper(days[date])
    requires n <= |xs| && forall i :: 0 <= i < |xs| ==> xs[i] == Share(days, today, i, estimate)
    ensures Mass(days, today, alpha, n, estimate) == PowerSum(xs, alpha, n)
  {
    if n > 0 {
      MassIsSum(days, today, alpha, xs, n - 1, estimate);
      WeightIsShare(days, today, alpha, n - 1, estimate);
    }
  }

  lemma {:induction false} TotalIsSum(days: map<int, Day>, today: int, alpha: real, xs: seq<real>, n: nat, estimate: bool)
    requires forall date :: date in days ==> Proper(days[date])
    requires n <= |xs|
    requires forall i :: 0 <= i < |xs| ==> xs[i] == Share(days, today, i, estimate) * MeanAt(days, today, i)
    ensures Total(days, today, alpha, n, estimate) == PowerSum(xs, alpha, n)
  {
    if n > 0 {
      TotalIsSum(days, today, alpha, xs, n - 1, estimate);
      WeightIsShare(days, today, alpha, n - 1, estimate);
    }
  }

  lemma EstimateSums(days: map<int, Day>, today: int, alpha: real, estimate: bool)
    requires forall date :: date in days ==> Proper(days[date])
    ensures Total(days, today, alpha, 7, estimate) == Horner(Values(days, today, 7, estimate), alpha)
    ensures Mass(days, today, alpha, 7, estimate) == Horner(Shares(days, today, 7, estimate), alpha)
  {
    TotalIsSum(days, today, alpha, Values(days, today, 7, estimate), 7, estimate);
    MassIsSum(days, today, alpha, Shares(days, today, 7, estimate), 7, estimate);
    PowerSumIsHorner(Values(days, today, 7, estimate), alpha);
    PowerSumIsHorner(Shares(days, today, 7, estimate), alpha);
  }

  /** All days worth one. */
  const ALL := [1.0, 1.0, 1.0, 1.0, 1.0, 1.0, 1.0]

  lemma {:induction false} DenominatorIsSum(alpha: real, xs: seq<real>, n: nat)
    requires n <= |xs| && forall i :: 0 <= i < |xs| ==> xs[i] == 1.0
    ensures Denominator(alpha, n) == PowerSum(xs, alpha, n)
  {
    if n > 0 { DenominatorIsSum(alpha, xs, n - 1); }
  }

  lemma DenominatorIsFull(alpha: real)
    ensures Denominator(alpha, 7) == Horner(ALL, alpha)
  {
    DenominatorIsSum(alpha, ALL, 7);
    PowerSumIsHorner(ALL, alpha);
  }

  lemma {:induction false} DaysAreCounted(days: map<int, Day>, today: int, n: nat)
    requires forall date :: date in days ==> Proper(days[date])
    ensures EligibleDays(days, today, n) == |set i: nat | i < n && Usable(days, today, i)|
  {
    if n > 0 {
      DaysAreCounted(days, today, n - 1);
      CountsIsUsable(days, today, n - 1);
      var before := set i: nat | i < n - 1 && Usable(days, today, i);
      var now := set i: nat | i < n && Usable(days, today, i);
      assert now == if Usable(days, today, n - 1) then before + {n - 1} else before;
    }
  }

  lemma {:induction false} NewestIsNewest(days: map<int, Day>, today: int, n: nat)
    requires forall date :: date in days ==> Proper(days[date])
    ensures var newest := Newest(days, today, n);
      && (newest.None? <==> forall i: nat :: i < n ==> !Usable(days, today, i))
      && (newest.Some? ==> 1 <= today - newest.value <= n && Usable(days, today, today - newest.value - 1)
                           && forall i: nat :: i < today - newest.value - 1 ==> !Usable(days, today, i))
  {
    if n > 0 {
      NewestIsNewest(days, today, n - 1);
      CountsIsUsable(days, today, n - 1);
    }
  }

  /** How good a running mean is: complete with seven usable days; partial with three of them or more, six tenths of the
      weight, and one of the last two days; anything else is for diagnosis only, or nothing at all. */
  lemma QualityExactly(count: nat, fraction: real, recent: bool)
    ensures var q := QualityOf(count, fraction, recent);
      && (q.Complete? <==> count == 7) && (q.Partial? <==> count != 7 && count >= 3 && fraction >= 0.6 && recent)
      && (q.Unavailable? <==> count == 0)
  {
  }

  ghost predicate IsMean(r: Result, days: map<int, Day>, today: int, alpha: real)
    requires forall date :: date in days ==> Proper(days[date])
  {
    var there, light := Horner(Shares(days, today, 7, false), alpha), Horner(Shares(days, today, 7, true), alpha);
    && (there > 0.0 ==> r.value == Some(Horner(Values(days, today, 7, false), alpha) / there))
    && (there <= 0.0 < light ==> r.value == Some(Horner(Values(days, today, 7, true), alpha) / light) && r.quality.Diagnostic?)
    && (there <= 0.0 && light <= 0.0 ==> r.value.None?)
    && Horner(ALL, alpha) > 0.0 && r.fraction == there / Horner(ALL, alpha) && IsTold(r, days, today, there > 0.0 || light <= 0.0)
  }

  /** What is reported beside the value. */
  ghost predicate IsTold(r: Result, days: map<int, Day>, today: int, graded: bool)
    requires forall date :: date in days ==> Proper(days[date])
  {
    && r.eligibleDays == |set i: nat | i < 7 && Usable(days, today, i)| && r.newest == Newest(days, today, 7)
    && (graded ==> r.quality == QualityOf(r.eligibleDays, r.fraction, Usable(days, today, 0) || Usable(days, today, 1)))
  }

  lemma EstimateIsTold(ds: seq<Day>, days: map<int, Day>, today: int, alpha: real)
    requires AllProper(ds) && days == ByDate(ds) && forall date :: date in days ==> Proper(days[date])
    requires Estimate(ds, today, alpha).Some?
    ensures var mass, light := Mass(days, today, alpha, DAYS, false), Mass(days, today, alpha, DAYS, true);
      IsTold(Estimate(ds, today, alpha).value, days, today, mass > 0.0 || light <= 0.0)
  {
    DaysAreCounted(days, today, 7);
    CountsIsUsable(days, today, 0);
    CountsIsUsable(days, today, 1);
  }

  lemma EstimateIsRatio(ds: seq<Day>, days: map<int, Day>, today: int, alpha: real)
    requires AllProper(ds) && days == ByDate(ds) && forall date :: date in days ==> Proper(days[date])
    requires Estimate(ds, today, alpha).Some?
    ensures var r := Estimate(ds, today, alpha).value;
      var mass, light := Mass(days, today, alpha, DAYS, false), Mass(days, today, alpha, DAYS, true);
      && (mass > 0.0 ==> r.value == Some(Total(days, today, alpha, DAYS, false) / mass))
      && (mass <= 0.0 < light ==>
            r.value == Some(Total(days, today, alpha, DAYS, true) / light) && r.quality.Diagnostic?)
      && (mass <= 0.0 && light <= 0.0 ==> r.value.None?)
      && Denominator(alpha, DAYS) > 0.0 && r.fraction == mass / Denominator(alpha, DAYS)
  {
  }

  /** Main result on what the mean is: the last seven days, each worth a share alpha of the next, over what is there
      of them; where no day is usable, the same with every day by its coverage, for diagnosis; and how many days were
      usable, how much of the full weight they are, and which was the last. */
  lemma EstimateExactly(ds: seq<Day>, days: map<int, Day>, today: int, alpha: real)
    requires AllProper(ds) && days == ByDate(ds) && forall date :: date in days ==> Proper(days[date])
    ensures Estimate(ds, today, alpha).None? <==> alpha < 0.6 || alpha > 0.9 || !DatesDiffer(ds)
    ensures Estimate(ds, today, alpha).Some? ==> IsMean(Estimate(ds, today, alpha).value, days, today, alpha)
  {
    RepeatsAreNoticed(ds);
    if Estimate(ds, today, alpha).Some? {
      EstimateSums(days, today, alpha, false);
      EstimateSums(days, today, alpha, true);
      DenominatorIsFull(alpha);
      EstimateIsRatio(ds, days, today, alpha);
      EstimateIsTold(ds, days, today, alpha);
    }
  }
}
