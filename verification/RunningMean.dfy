/** The seven-day running mean over closed days, weighted by powers of alpha. */
module RunningMean {
  import opened Contracts
  import opened History

  const DAYS: nat := 7
  const COVERAGE_THRESHOLD := 0.9

  datatype Quality = Complete | Partial | Diagnostic | Unavailable

  datatype Result = Result(value: Option<real>, quality: Quality, eligibleDays: nat, fraction: real,
      newest: Option<int>)

  predicate Proper(d: Day) { d.start < d.end && d.covered >= 0.0 }

  function Coverage(d: Day): real
    requires Proper(d)
  {
    d.covered / Seconds(d.end - d.start)
  }

  function Mean(d: Day): Option<real> { if d.covered > 0.0 then Some(d.integral / d.covered) else None }

  predicate Eligible(d: Day)
    requires Proper(d)
  {
    Coverage(d) >= COVERAGE_THRESHOLD
  }

  predicate AllProper(ds: seq<Day>) { forall d :: d in ds ==> Proper(d) }

  function ByDate(ds: seq<Day>): map<int, Day> {
    if ds == [] then map[] else ByDate(ds[..|ds| - 1])[ds[|ds| - 1].date := ds[|ds| - 1]]
  }

  lemma {:induction false} ByDateHolds(ds: seq<Day>)
    ensures forall date :: date in ByDate(ds) ==> ByDate(ds)[date] in ds && ByDate(ds)[date].date == date
    ensures forall d :: d in ds ==> d.date in ByDate(ds)
  {
    if ds != [] { ByDateHolds(ds[..|ds| - 1]); }
  }

  ghost predicate DatesDiffer(ds: seq<Day>) { forall i, j :: 0 <= i < j < |ds| ==> ds[i].date != ds[j].date }

  lemma IndexGrows(front: seq<Day>, d: Day)
    ensures var grown := ByDate(front)[d.date := d];
      |grown| == |ByDate(front)| + (if d.date in ByDate(front) then 0 else 1)
  {
    var grown := ByDate(front)[d.date := d];
    assert grown.Keys == ByDate(front).Keys + {d.date};
    assert |grown.Keys| == |grown| && |ByDate(front).Keys| == |ByDate(front)|;
  }

  lemma AppendDiffers(front: seq<Day>, d: Day)
    ensures DatesDiffer(front + [d]) <==> DatesDiffer(front) && d.date !in ByDate(front)
  {
    var ds := front + [d];
    ByDateHolds(front);
    if d.date in ByDate(front) {
      var i :| 0 <= i < |front| && front[i] == ByDate(front)[d.date];
      assert ds[i].date == ds[|front|].date;
    } else {
      forall i | 0 <= i < |front| ensures ds[i].date != d.date { assert front[i] in front; }
    }
    if DatesDiffer(ds) {
      forall i, j | 0 <= i < j < |front| ensures front[i].date != front[j].date { assert ds[i].date != ds[j].date; }
    }
  }

  /** Counting the index notices exactly the repeated dates. */
  lemma {:induction false} RepeatsAreNoticed(ds: seq<Day>)
    ensures |ByDate(ds)| <= |ds|
    ensures |ByDate(ds)| == |ds| <==> DatesDiffer(ds)
  {
    if ds == [] {
    } else {
      var front, d := ds[..|ds| - 1], ds[|ds| - 1];
      RepeatsAreNoticed(front);
      IndexGrows(front, d);
      AppendDiffers(front, d);
      assert ds == front + [d];
    }
  }

  function Power(alpha: real, n: nat): (p: real)
    ensures alpha > 0.0 ==> p > 0.0
  {
    if n == 0 then 1.0 else alpha * Power(alpha, n - 1)
  }

  /** The weight of the day `i + 1` days ago: a power of alpha when it is eligible; when estimating for diagnosis only,
      that power times the day's coverage. */
  function Weight(days: map<int, Day>, today: int, alpha: real, i: nat, estimate: bool): real
    requires forall date :: date in days ==> Proper(days[date])
  {
    var date := today - (i + 1);
    if date !in days || Mean(days[date]).None? then 0.0
    else if estimate then Power(alpha, i) * Coverage(days[date])
    else if Eligible(days[date]) then Power(alpha, i) else 0.0
  }

  function MeanAt(days: map<int, Day>, today: int, i: nat): real {
    var date := today - (i + 1);
    if date in days && Mean(days[date]).Some? then Mean(days[date]).value else 0.0
  }

  function Mass(days: map<int, Day>, today: int, alpha: real, n: nat, estimate: bool): real
    requires forall date :: date in days ==> Proper(days[date])
  {
    if n == 0 then 0.0 else Mass(days, today, alpha, n - 1, estimate) + Weight(days, today, alpha, n - 1, estimate)
  }

  function Term(days: map<int, Day>, today: int, alpha: real, i: nat, estimate: bool): real
    requires forall date :: date in days ==> Proper(days[date])
  {
    Weight(days, today, alpha, i, estimate) * MeanAt(days, today, i)
  }

  function Total(days: map<int, Day>, today: int, alpha: real, n: nat, estimate: bool): real
    requires forall date :: date in days ==> Proper(days[date])
  {
    if n == 0 then 0.0
    else Total(days, today, alpha, n - 1, estimate) + Term(days, today, alpha, n - 1, estimate)
  }

  function Denominator(alpha: real, n: nat): (d: real)
    ensures alpha > 0.0 ==> d >= 0.0 && (n > 0 ==> d > 0.0)
  {
    if n == 0 then 0.0 else Denominator(alpha, n - 1) + Power(alpha, n - 1)
  }

  predicate Counts(days: map<int, Day>, today: int, i: nat)
    requires forall date :: date in days ==> Proper(days[date])
  {
    var date := today - (i + 1);
    date in days && Eligible(days[date]) && Mean(days[date]).Some?
  }

  function EligibleDays(days: map<int, Day>, today: int, n: nat): nat
    requires forall date :: date in days ==> Proper(days[date])
  {
    if n == 0 then 0 else EligibleDays(days, today, n - 1) + (if Counts(days, today, n - 1) then 1 else 0)
  }

  /** The most recent counted date is the one with the smallest index. */
  function Newest(days: map<int, Day>, today: int, n: nat): Option<int>
    requires forall date :: date in days ==> Proper(days[date])
  {
    if n == 0 then None
    else
      var rest := Newest(days, today, n - 1);
      if rest.Some? then rest else if Counts(days, today, n - 1) then Some(today - n) else None
  }

  predicate AlphaValid(alpha: real) { 0.6 <= alpha <= 0.9 }

  function QualityOf(count: nat, fraction: real, recent: bool): Quality {
    if count == DAYS then Complete
    else if count >= 3 && fraction >= 0.6 && recent then Partial
    else if count > 0 then Diagnostic else Unavailable
  }

  /** None for an alpha out of range or a repeated date, which are refused. */
  function Estimate(ds: seq<Day>, today: int, alpha: real): Option<Result>
    requires AllProper(ds)
  {
    var days := ByDate(ds);
    ByDateHolds(ds);
    if !AlphaValid(alpha) || |days| != |ds| then None
    else
      var mass := Mass(days, today, alpha, DAYS, false);
      var count := EligibleDays(days, today, DAYS);
      var fraction := mass / Denominator(alpha, DAYS);
      var quality := QualityOf(count, fraction, Counts(days, today, 0) || Counts(days, today, 1));
      var newest := Newest(days, today, DAYS);
      if mass > 0.0 then Some(Result(Some(Total(days, today, alpha, DAYS, false) / mass), quality, count, fraction, newest))
      else
        var light := Mass(days, today, alpha, DAYS, true);
        if light > 0.0 then
          Some(Result(Some(Total(days, today, alpha, DAYS, true) / light), Diagnostic, count, fraction, newest))
        else Some(Result(None, quality, count, fraction, newest))
  }

  // ---- what it promises --------------------------------------------------------------------------

  /** Every day with covered time has its mean within the bounds. */
  ghost predicate MeansWithin(ds: seq<Day>, lo: real, hi: real) {
    forall d :: d in ds && Mean(d).Some? ==> lo <= Mean(d).value <= hi
  }

  lemma WeightIsPositive(days: map<int, Day>, today: int, alpha: real, i: nat, estimate: bool)
    requires (forall date :: date in days ==> Proper(days[date])) && AlphaValid(alpha)
    ensures Weight(days, today, alpha, i, estimate) >= 0.0
    ensures Weight(days, today, alpha, i, estimate) > 0.0 <==>
            today - (i + 1) in days && Mean(days[today - (i + 1)]).Some? && (estimate || Eligible(days[today - (i + 1)]))
  {
    var date := today - (i + 1);
    if date in days && Mean(days[date]).Some? {
      Ratio(days[date].covered, Seconds(days[date].end - days[date].start));
      Product(Power(alpha, i), Coverage(days[date]));
    }
  }

  lemma Ratio(a: real, b: real)
    requires a > 0.0 && b > 0.0
    ensures a / b > 0.0
  {
  }

  lemma Product(a: real, b: real)
    requires a > 0.0 && b > 0.0
    ensures a * b > 0.0
  {
  }

  lemma {:induction false} MassIsPositive(days: map<int, Day>, today: int, alpha: real, n: nat, estimate: bool)
    requires (forall date :: date in days ==> Proper(days[date])) && AlphaValid(alpha)
    ensures Mass(days, today, alpha, n, estimate) >= 0.0
    ensures Mass(days, today, alpha, n, estimate) > 0.0
        <==> exists i: nat :: i < n && Weight(days, today, alpha, i, estimate) > 0.0
  {
    if n > 0 {
      MassIsPositive(days, today, alpha, n - 1, estimate);
      WeightIsPositive(days, today, alpha, n - 1, estimate);
    }
  }

  lemma TermBetween(
    days: map<int, Day>, today: int, alpha: real, i: nat, estimate: bool, lo: real, hi: real)
    requires (forall date :: date in days ==> Proper(days[date])) && AlphaValid(alpha)
    requires forall date :: date in days && Mean(days[date]).Some? ==> lo <= Mean(days[date]).value <= hi
    ensures Between(Term(days, today, alpha, i, estimate), Weight(days, today, alpha, i, estimate), lo, hi)
  {
    WeightIsPositive(days, today, alpha, i, estimate);
    if Weight(days, today, alpha, i, estimate) > 0.0 {
      WeightedBetween(MeanAt(days, today, i), lo, hi, Weight(days, today, alpha, i, estimate));
    }
  }

  lemma SumBetween(a: real, wa: real, b: real, wb: real, lo: real, hi: real)
    requires Between(a, wa, lo, hi) && Between(b, wb, lo, hi)
    ensures Between(a + b, wa + wb, lo, hi)
  {
    Distribute(lo, wa, wb);
    Distribute(hi, wa, wb);
  }

  lemma {:induction false} TotalBetween(
    days: map<int, Day>, today: int, alpha: real, n: nat, estimate: bool, lo: real, hi: real)
    requires (forall date :: date in days ==> Proper(days[date])) && AlphaValid(alpha)
    requires forall date :: date in days && Mean(days[date]).Some? ==> lo <= Mean(days[date]).value <= hi
    ensures Between(Total(days, today, alpha, n, estimate), Mass(days, today, alpha, n, estimate), lo, hi)
  {
    if n == 0 {
    } else {
      TotalBetween(days, today, alpha, n - 1, estimate, lo, hi);
      TermBetween(days, today, alpha, n - 1, estimate, lo, hi);
      SumBetween(Total(days, today, alpha, n - 1, estimate), Mass(days, today, alpha, n - 1, estimate),
                 Term(days, today, alpha, n - 1, estimate), Weight(days, today, alpha, n - 1, estimate), lo, hi);
    }
  }

  /** Main result. A running mean lies between the least and the greatest mean of the days it had to choose from, the
      diagnostic estimate included; and there is one exactly when any of the last seven days has covered time. */
  lemma RunningMeanIsBetween(ds: seq<Day>, today: int, alpha: real, lo: real, hi: real)
    requires AllProper(ds) && MeansWithin(ds, lo, hi) && Estimate(ds, today, alpha).Some?
    ensures var r := Estimate(ds, today, alpha).value;
      && (r.value.Some? ==> lo <= r.value.value <= hi)
      && (r.value.Some? <==> DayInWindow(ds, today))
  {
    var days := ByDate(ds);
    ByDateHolds(ds);
    TotalBetween(days, today, alpha, DAYS, false, lo, hi);
    TotalBetween(days, today, alpha, DAYS, true, lo, hi);
    var mass, light := Mass(days, today, alpha, DAYS, false), Mass(days, today, alpha, DAYS, true);
    if mass > 0.0 { MeanBetween(Total(days, today, alpha, DAYS, false), mass, lo, hi); }
    else if light > 0.0 { MeanBetween(Total(days, today, alpha, DAYS, true), light, lo, hi); }
    SomeDayCounts(ds, today, alpha);
  }

  ghost predicate DayInWindow(ds: seq<Day>, today: int) {
    exists d :: d in ds && today - 7 <= d.date < today && Mean(d).Some?
  }

  lemma WeighedDayExists(ds: seq<Day>, today: int, alpha: real, estimate: bool)
    requires AllProper(ds) && AlphaValid(alpha)
    requires forall date :: date in ByDate(ds) ==> Proper(ByDate(ds)[date])
    requires Mass(ByDate(ds), today, alpha, DAYS, estimate) > 0.0
    ensures DayInWindow(ds, today)
  {
    var days := ByDate(ds);
    ByDateHolds(ds);
    MassIsPositive(days, today, alpha, DAYS, estimate);
    var i: nat :| i < DAYS && Weight(days, today, alpha, i, estimate) > 0.0;
    WeightIsPositive(days, today, alpha, i, estimate);
    assert days[today - (i + 1)] in ds;
  }

  lemma WindowDayWeighs(ds: seq<Day>, today: int, alpha: real, d: Day)
    requires AllProper(ds) && AlphaValid(alpha) && DatesDiffer(ds)
    requires forall date :: date in ByDate(ds) ==> Proper(ByDate(ds)[date])
    requires d in ds && today - 7 <= d.date < today && Mean(d).Some?
    ensures Mass(ByDate(ds), today, alpha, DAYS, true) > 0.0
  {
    DistinctIsIndexed(ds, d);
    WeightIsPositive(ByDate(ds), today, alpha, today - 1 - d.date, true);
    MassIsPositive(ByDate(ds), today, alpha, DAYS, true);
  }

  lemma SomeDayCounts(ds: seq<Day>, today: int, alpha: real)
    requires AllProper(ds) && Estimate(ds, today, alpha).Some?
    ensures Estimate(ds, today, alpha).value.value.Some? <==> DayInWindow(ds, today)
  {
    var days := ByDate(ds);
    ByDateHolds(ds);
    RepeatsAreNoticed(ds);
    if Mass(days, today, alpha, DAYS, false) > 0.0 { WeighedDayExists(ds, today, alpha, false); }
    if Mass(days, today, alpha, DAYS, true) > 0.0 { WeighedDayExists(ds, today, alpha, true); }
    if DayInWindow(ds, today) {
      var d :| d in ds && today - 7 <= d.date < today && Mean(d).Some?;
      WindowDayWeighs(ds, today, alpha, d);
    }
  }

  lemma OneIndexPerDate(ds: seq<Day>, i: nat, j: nat)
    requires DatesDiffer(ds) && i < |ds| && j < |ds| && ds[i].date == ds[j].date
    ensures i == j
  {
  }

  lemma DistinctIsIndexed(ds: seq<Day>, d: Day)
    requires DatesDiffer(ds) && d in ds
    ensures d.date in ByDate(ds) && ByDate(ds)[d.date] == d
  {
    ByDateHolds(ds);
    var e := ByDate(ds)[d.date];
    var i :| 0 <= i < |ds| && ds[i] == d;
    var j :| 0 <= j < |ds| && ds[j] == e;
    OneIndexPerDate(ds, i, j);
  }

  /** From samples to control: a running mean over the days an integrator closed lies between the least and the greatest
      value it was ever given. */
  lemma RunningMeanStaysWithinSamples(
    m: Midnights, date: int, start: Time, maximumHold: Time, es: seq<Event>, lo: real, hi: real, today: int, alpha: real)
    requires Calendar(m) && m(date) <= start < m(date + 1)
    requires ValuesWithin(Counted(Start(m, date, start), m, maximumHold, es), lo, hi)
    ensures var ds := Run(Start(m, date, start), m, maximumHold, es).done;
      && AllProper(ds)
      && (Estimate(ds, today, alpha).Some? && Estimate(ds, today, alpha).value.value.Some? ==>
            lo <= Estimate(ds, today, alpha).value.value.value <= hi)
  {
    var s := Run(Start(m, date, start), m, maximumHold, es);
    assert AllSane(s, lo, hi) by { EveryDayIsSane(m, date, start, maximumHold, es, lo, hi); }
    SaneDaysBound(s.done, lo, hi);
    if Estimate(s.done, today, alpha).Some? { RunningMeanIsBetween(s.done, today, alpha, lo, hi); }
  }

  lemma SaneDaysBound(ds: seq<Day>, lo: real, hi: real)
    requires forall k :: 0 <= k < |ds| ==> Sane(ds[k], lo, hi)
    ensures AllProper(ds) && MeansWithin(ds, lo, hi)
  {
  }

  // ---- the loops of the program --------------------------------------------------------------------

  method ComputeRunningMean(ds: seq<Day>, today: int, alpha: real) returns (r: Option<Result>)
    requires AllProper(ds)
    ensures r == Estimate(ds, today, alpha)
  {
    ByDateHolds(ds);
    if !AlphaValid(alpha) { return None; }
    var days := ByDate(ds);
    if |days| != |ds| { return None; }
    var denominator := 0.0;
    for i := 0 to DAYS
      invariant denominator == Denominator(alpha, i)
    {
      denominator := denominator + Power(alpha, i);
    }
    var weighted, represented, count, newest, recent := WeighEligible(days, today, alpha);
    var fraction := represented / denominator;
    var quality := QualityOf(count, fraction, recent);
    if represented > 0.0 { return Some(Result(Some(weighted / represented), quality, count, fraction, newest)); }
    var total, mass := EstimateLightly(days, today, alpha);
    if mass > 0.0 { return Some(Result(Some(total / mass), Diagnostic, count, fraction, newest)); }
    return Some(Result(None, quality, count, fraction, newest));
  }

  lemma NoWeightNoTerm(days: map<int, Day>, today: int, alpha: real, i: nat, estimate: bool)
    requires forall date :: date in days ==> Proper(days[date])
    requires Weight(days, today, alpha, i, estimate) == 0.0
    ensures Term(days, today, alpha, i, estimate) == 0.0
  {
  }

  /** The weighted sum over the eligible days, how many there are, the newest, and whether one is recent. */
  method WeighEligible(days: map<int, Day>, today: int, alpha: real)
    returns (weighted: real, represented: real, count: nat, newest: Option<int>, recent: bool)
    requires forall date :: date in days ==> Proper(days[date])
    ensures weighted == Total(days, today, alpha, DAYS, false) && represented == Mass(days, today, alpha, DAYS, false)
    ensures count == EligibleDays(days, today, DAYS) && newest == Newest(days, today, DAYS)
    ensures recent == (Counts(days, today, 0) || Counts(days, today, 1))
  {
    weighted, represented, count, newest, recent := 0.0, 0.0, 0, None, false;
    for i := 0 to DAYS
      invariant represented == Mass(days, today, alpha, i, false) && weighted == Total(days, today, alpha, i, false)
      invariant count == EligibleDays(days, today, i) && newest == Newest(days, today, i)
      invariant recent == ((i > 0 && Counts(days, today, 0)) || (i > 1 && Counts(days, today, 1)))
    {
      var day := today - (i + 1);
      if day in days && Eligible(days[day]) && Mean(days[day]).Some? {
        var weight := Power(alpha, i);
        assert Term(days, today, alpha, i, false) == weight * Mean(days[day]).value;
        weighted := weighted + weight * Mean(days[day]).value;
        represented := represented + weight;
        count := count + 1;
        if newest.None? { newest := Some(day); }
        if i < 2 { recent := true; }
      } else {
        NoWeightNoTerm(days, today, alpha, i, false);
      }
    }
  }

  /** The diagnostic estimate, when no day qualifies. */
  method EstimateLightly(days: map<int, Day>, today: int, alpha: real) returns (total: real, mass: real)
    requires forall date :: date in days ==> Proper(days[date])
    ensures total == Total(days, today, alpha, DAYS, true) && mass == Mass(days, today, alpha, DAYS, true)
  {
    total, mass := 0.0, 0.0;
    for i := 0 to DAYS
      invariant total == Total(days, today, alpha, i, true) && mass == Mass(days, today, alpha, i, true)
    {
      var day := today - (i + 1);
      if day in days && Mean(days[day]).Some? {
        var weight := Power(alpha, i) * Coverage(days[day]);
        assert Weight(days, today, alpha, i, true) == weight && MeanAt(days, today, i) == Mean(days[day]).value;
        assert Term(days, today, alpha, i, true) == weight * Mean(days[day]).value;
        total := total + weight * Mean(days[day]).value;
        mass := mass + weight;
      } else {
        NoWeightNoTerm(days, today, alpha, i, true);
      }
    }
  }
}
