/** The stale-heat guard: heat asked for without fresh room readings is withdrawn along a ramp. */
module StaleHeating {
  import opened Contracts

  datatype Phase = Idle | Monitoring | StaleStart | Ramp | Exhausted

  datatype Guard = Guard(
    phase: Phase, startedAt: Option<Time>, reportAt: Option<Time>, rampAt: Option<Time>, rampStart: Option<real>,
    evidenceAt: Option<Time>)

  const FRESH := Guard(Idle, None, None, None, None, None)

  datatype Timing = Timing(active: Time, staleStart: Time, rampMaximum: Time)

  /** One evaluation: the clock, the newest room report, whether it is stale, whether heat is asked for, and the
      target. */
  datatype Look = Look(now: Time, report: Option<Time>, stale: bool, demand: bool, target: real)

  predicate Newer(g: Guard, x: Look) { x.report.Some? && g.evidenceAt.Some? && x.report.value > g.evidenceAt.value }

  predicate Withdrawing(g: Guard) { g.phase.Ramp? || g.phase.Exhausted? }

  function Later(a: Option<Time>, b: Option<Time>, default: Time): Time {
    if a.Some? && b.Some? then (if a.value >= b.value then a.value else b.value)
    else if a.Some? then a.value else if b.Some? then b.value else default
  }

  function Deadline(g: Guard, timing: Timing, now: Time): Time {
    if g.phase.StaleStart? && g.startedAt.Some? then g.startedAt.value + timing.staleStart
    else Later(g.startedAt, g.reportAt, now) + timing.active
  }

  /** A strictly newer report forgives everything. */
  function Forgiven(g: Guard, x: Look): Guard {
    if Newer(g, x) then
      Guard(if x.demand then Monitoring else Idle, if x.demand then Some(x.now) else None, x.report, None, None, x.report)
    else g
  }

  function Begun(g: Guard, x: Look): Guard {
    if g.phase.Idle? then
      g.(phase := if x.stale then StaleStart else Monitoring, startedAt := Some(x.now), reportAt := x.report,
          evidenceAt := x.report)
    else g
  }

  function Advance(guard: Guard, timing: Timing, x: Look): Guard {
    var forgiven := Forgiven(guard, x);
    if !x.demand then
      forgiven.(phase := if Withdrawing(forgiven) then Exhausted else Idle, startedAt := None,
                evidenceAt := if forgiven.evidenceAt.None? then x.report else forgiven.evidenceAt)
    else
      var g := Begun(forgiven, x);
      if g.phase.Exhausted? then g
      else if g.phase.Ramp? then
        if g.rampAt.None? || x.now >= g.rampAt.value + timing.rampMaximum then g.(phase := Exhausted) else g
      else if x.now >= Deadline(g, timing, x.now) then
        g.(phase := Ramp, rampAt := Some(Deadline(g, timing, x.now)), rampStart := Some(x.target))
      else g
  }

  function Minutes(t: Time): real { t as real / 60_000_000.0 }

  datatype Fallback = Fallback(target: real, minutesPerDegree: real)

  predicate Usable(f: Fallback, timing: Timing) { f.minutesPerDegree > 0.0 && timing.rampMaximum > 0 }

  /** Degrees a minute: the configured slope, or steeper when the whole withdrawal must fit the maximum. */
  function Slope(start: real, f: Fallback, timing: Timing): real
    requires Usable(f, timing)
  {
    Max(1.0 / f.minutesPerDegree, (start - f.target) / Minutes(timing.rampMaximum))
  }

  /** Minutes spent on the ramp. */
  function Elapsed(g: Guard, now: Time): real
    requires g.rampAt.Some?
  {
    Max(0.0, Minutes(now - g.rampAt.value))
  }

  /** Degrees withdrawn after some minutes on the ramp. */
  function Drop(start: real, f: Fallback, timing: Timing, minutes: real): real
    requires Usable(f, timing)
  {
    Slope(start, f, timing) * minutes
  }

  /** The target allowed while withdrawing; none otherwise. */
  function Target(g: Guard, f: Fallback, timing: Timing, now: Time): Option<real>
    requires Usable(f, timing)
  {
    if !Withdrawing(g) then None
    else if g.phase.Exhausted? || g.rampAt.None? || g.rampStart.None? then Some(f.target)
    else
      var start := Max(f.target, g.rampStart.value);
      Some(Max(f.target, start - Drop(start, f, timing, Elapsed(g, now))))
  }

  lemma TimesGrow(k: real, a: real, b: real)
    requires k >= 0.0 && a <= b
    ensures k * a <= k * b
  {
    assert k * (b - a) >= 0.0;
  }

  lemma SlopeIsEnough(start: real, f: Fallback, timing: Timing)
    requires Usable(f, timing) && start >= f.target
    ensures Slope(start, f, timing) > 0.0
    ensures Slope(start, f, timing) * Minutes(timing.rampMaximum) >= start - f.target
  {
    var m := Minutes(timing.rampMaximum);
    Steep((start - f.target) / m, Slope(start, f, timing), m, start - f.target);
    assert 1.0 / f.minutesPerDegree > 0.0;
  }

  lemma Steep(exact: real, slope: real, m: real, drop: real)
    requires m > 0.0 && exact == drop / m && slope >= exact
    ensures slope * m >= drop
  {
    assert exact * m == drop;
    TimesGrow(m, exact, slope);
  }

  lemma DropGrows(start: real, f: Fallback, timing: Timing, x: real, y: real)
    requires Usable(f, timing) && start >= f.target && x <= y
    ensures Drop(start, f, timing, x) <= Drop(start, f, timing, y)
  {
    SlopeIsEnough(start, f, timing);
    TimesGrow(Slope(start, f, timing), x, y);
  }

  lemma DropSuffices(start: real, f: Fallback, timing: Timing, y: real)
    requires Usable(f, timing) && start >= f.target && y >= Minutes(timing.rampMaximum)
    ensures Drop(start, f, timing, y) >= start - f.target
  {
    SlopeIsEnough(start, f, timing);
    DropGrows(start, f, timing, Minutes(timing.rampMaximum), y);
  }

  /** From the ramp's start plus the maximum on, nothing but the fallback is allowed. */
  lemma RampEnds(g: Guard, f: Fallback, timing: Timing, now: Time)
    requires Usable(f, timing) && Withdrawing(g)
    requires g.phase.Ramp? && g.rampAt.Some? ==> now >= g.rampAt.value + timing.rampMaximum
    ensures Target(g, f, timing, now) == Some(f.target)
  {
    if g.phase.Ramp? && g.rampAt.Some? && g.rampStart.Some? {
      DropSuffices(Max(f.target, g.rampStart.value), f, timing, Elapsed(g, now));
    }
  }

  lemma TargetFalls(g: Guard, f: Fallback, timing: Timing, earlier: Time, later: Time)
    requires Usable(f, timing) && Withdrawing(g) && earlier <= later
    ensures Target(g, f, timing, earlier).value >= Target(g, f, timing, later).value >= f.target
  {
    if g.phase.Ramp? && g.rampAt.Some? && g.rampStart.Some? {
      DropGrows(Max(f.target, g.rampStart.value), f, timing, Elapsed(g, earlier), Elapsed(g, later));
    }
  }

  // ---- runs --------------------------------------------------------------------------------------

  function Run(g: Guard, timing: Timing, xs: seq<Look>): Guard {
    if xs == [] then g else Advance(Run(g, timing, xs[..|xs| - 1]), timing, xs[|xs| - 1])
  }

  /** The clock never runs back, and no report is strictly newer than the guard's evidence when it is looked at. */
  ghost predicate Unforgiven(g: Guard, timing: Timing, xs: seq<Look>) {
    xs == [] || (Unforgiven(g, timing, xs[..|xs| - 1])
                 && !Newer(Run(g, timing, xs[..|xs| - 1]), xs[|xs| - 1])
                 && (|xs| > 1 ==> xs[|xs| - 2].now <= xs[|xs| - 1].now))
  }

  predicate Patient(timing: Timing) { timing.active > 0 && timing.staleStart > 0 }

  /** Once withdrawing, exactly a strictly newer report ends it; until then the ramp it follows is never restarted. */
  lemma OnlyNewsEndsWithdrawal(g: Guard, timing: Timing, x: Look)
    requires Withdrawing(g) && Patient(timing)
    ensures Withdrawing(Advance(g, timing, x)) <==> !Newer(g, x)
    ensures !Newer(g, x) ==>
      && Advance(g, timing, x).rampAt == g.rampAt && Advance(g, timing, x).rampStart == g.rampStart
      && (g.phase.Exhausted? ==> Advance(g, timing, x).phase.Exhausted?)
  {
  }

  /** Main result, along any run without news: the withdrawal goes on, its target never rises, and from the ramp's start
      plus the maximum on it is the fallback. */
  lemma {:induction false} WithdrawalIsMonotone(g: Guard, f: Fallback, timing: Timing, xs: seq<Look>, since: Time)
    requires Usable(f, timing) && Patient(timing) && Withdrawing(g)
    requires xs != [] && Unforgiven(g, timing, xs) && since <= xs[0].now
    ensures var h, now := Run(g, timing, xs), xs[|xs| - 1].now;
      && Withdrawing(h) && h.rampAt == g.rampAt && h.rampStart == g.rampStart && since <= now
      && (g.phase.Exhausted? ==> h.phase.Exhausted?)
      && Target(h, f, timing, now).value <= Target(g, f, timing, since).value
      && (g.rampAt.Some? && now >= g.rampAt.value + timing.rampMaximum ==> Target(h, f, timing, now) == Some(f.target))
  {
    var front, x := xs[..|xs| - 1], xs[|xs| - 1];
    var before := Run(g, timing, front);
    if front == [] {
      assert before == g;
      Settles(g, f, timing, x, since);
    } else {
      WithdrawalIsMonotone(g, f, timing, front, since);
      Settles(before, f, timing, x, front[|front| - 1].now);
    }
  }

  lemma Settles(g: Guard, f: Fallback, timing: Timing, x: Look, since: Time)
    requires Usable(f, timing) && Patient(timing) && Withdrawing(g) && !Newer(g, x) && since <= x.now
    ensures var h := Advance(g, timing, x);
      && Withdrawing(h) && h.rampAt == g.rampAt && h.rampStart == g.rampStart
      && (g.phase.Exhausted? ==> h.phase.Exhausted?)
      && Target(h, f, timing, x.now).value <= Target(g, f, timing, since).value
      && (g.rampAt.Some? && x.now >= g.rampAt.value + timing.rampMaximum ==> Target(h, f, timing, x.now) == Some(f.target))
  {
    var h := Advance(g, timing, x);
    OnlyNewsEndsWithdrawal(g, timing, x);
    TargetFalls(g, f, timing, since, x.now);
    if h.phase.Exhausted? { assert Target(h, f, timing, x.now) == Some(f.target); }
    if g.rampAt.Some? && x.now >= g.rampAt.value + timing.rampMaximum { RampEnds(h, f, timing, x.now); }
  }

  // ---- uninterrupted demand ----------------------------------------------------------------------

  ghost predicate Demanding(xs: seq<Look>) { forall k :: 0 <= k < |xs| ==> xs[k].demand }

  function MaxTime(a: Time, b: Time): Time { if a >= b then a else b }

  /** The latest moment a withdrawal can begin once heat is asked for: the longer of the two patience times. */
  function LatestRamp(timing: Timing, start: Time): Time { start + MaxTime(timing.active, timing.staleStart) }

  /** A trial under way, or a withdrawal that began in time. */
  ghost predicate OnTrack(g: Guard, timing: Timing, start: Time) {
    || (g.phase.Monitoring? && g.startedAt == Some(start) && (g.reportAt.Some? ==> g.reportAt.value <= start))
    || (g.phase.StaleStart? && g.startedAt == Some(start))
    || (g.phase.Exhausted? && g.rampAt.Some? && g.rampAt.value <= LatestRamp(timing, start))
    || (g.phase.Ramp? && g.rampAt.Some? && g.rampAt.value <= LatestRamp(timing, start))
  }

  lemma DemandStaysOnTrack(g: Guard, timing: Timing, x: Look, start: Time)
    requires Patient(timing) && OnTrack(g, timing, start) && !Newer(g, x) && x.demand
    ensures var h := Advance(g, timing, x);
      OnTrack(h, timing, start) && (x.now >= LatestRamp(timing, start) ==> Withdrawing(h))
  {
  }

  lemma DemandStarts(g: Guard, timing: Timing, x: Look)
    requires Patient(timing) && g.phase.Idle? && !Newer(g, x)
    requires x.demand && (x.report.Some? ==> x.report.value <= x.now)
    ensures OnTrack(Advance(g, timing, x), timing, x.now) && !Withdrawing(Advance(g, timing, x))
  {
  }

  /** Main result under uninterrupted demand and no news: heat asked for from an idle guard is at the fallback by the
      longer patience time plus the ramp's maximum, whichever of the two trials it got. */
  lemma {:induction false} HeatIsWithdrawn(g: Guard, f: Fallback, timing: Timing, xs: seq<Look>)
    requires Usable(f, timing) && Patient(timing) && g.phase.Idle?
    requires xs != [] && Unforgiven(g, timing, xs) && Demanding(xs)
    requires xs[0].report.Some? ==> xs[0].report.value <= xs[0].now
    ensures var h, now := Run(g, timing, xs), xs[|xs| - 1].now;
      && OnTrack(h, timing, xs[0].now) && xs[0].now <= now
      && (now >= LatestRamp(timing, xs[0].now) + timing.rampMaximum ==> Target(h, f, timing, now) == Some(f.target))
  {
    var front, x := xs[..|xs| - 1], xs[|xs| - 1];
    var before := Run(g, timing, front);
    if front == [] {
      assert before == g;
      DemandStarts(g, timing, x);
    } else {
      HeatIsWithdrawn(g, f, timing, front);
      DemandStaysOnTrack(before, timing, x, xs[0].now);
      var h := Run(g, timing, xs);
      if x.now >= LatestRamp(timing, xs[0].now) + timing.rampMaximum { RampEnds(h, f, timing, x.now); }
    }
  }

  // ---- trials --------------------------------------------------------------------------------------

  predicate InTrial(g: Guard) { g.phase.Monitoring? || g.phase.StaleStart? }

  function GuardAt(g: Guard, timing: Timing, xs: seq<Look>, k: nat): Guard
    requires k <= |xs|
  {
    Run(g, timing, xs[..k])
  }

  /** No report is dated after the look that brings it. */
  ghost predicate PastReports(xs: seq<Look>) {
    forall k :: 0 <= k < |xs| && xs[k].report.Some? ==> xs[k].report.value <= xs[k].now
  }

  /** Looks at one and the same report, or at none newer, from an idle guard. */
  ghost predicate SameEvidence(g: Guard, timing: Timing, xs: seq<Look>) {
    Patient(timing) && g.phase.Idle? && Unforgiven(g, timing, xs) && PastReports(xs)
  }

  ghost predicate BeginsAt(g: Guard, timing: Timing, xs: seq<Look>, k: nat)
    requires k < |xs|
  {
    !InTrial(GuardAt(g, timing, xs, k)) && InTrial(GuardAt(g, timing, xs, k + 1))
  }

  ghost predicate BeginsStaleAt(g: Guard, timing: Timing, xs: seq<Look>, k: nat)
    requires k < |xs|
  {
    BeginsAt(g, timing, xs, k) && GuardAt(g, timing, xs, k + 1).phase.StaleStart?
  }

  /** Heat is no longer asked for while a trial is under way. */
  ghost predicate DropsAt(g: Guard, timing: Timing, xs: seq<Look>, j: nat)
    requires j < |xs|
  {
    InTrial(GuardAt(g, timing, xs, j)) && !xs[j].demand
  }

  lemma {:induction false} UnforgivenAt(g: Guard, timing: Timing, xs: seq<Look>, k: nat)
    requires Unforgiven(g, timing, xs) && k < |xs|
    ensures !Newer(GuardAt(g, timing, xs, k), xs[k])
    ensures GuardAt(g, timing, xs, k + 1) == Advance(GuardAt(g, timing, xs, k), timing, xs[k])
    decreases |xs|
  {
    assert xs[..k + 1][..k] == xs[..k];
    if k + 1 < |xs| {
      var front := xs[..|xs| - 1];
      UnforgivenAt(g, timing, front, k);
      assert front[..k] == xs[..k] && front[k] == xs[k];
    }
  }

  /** What one look can do to a trial: a drop ends it, a deadline withdraws it, and only an idle guard begins one. */
  lemma TrialStep(g: Guard, timing: Timing, xs: seq<Look>, k: nat)
    requires SameEvidence(g, timing, xs) && k < |xs|
    ensures var a, b := GuardAt(g, timing, xs, k), GuardAt(g, timing, xs, k + 1);
      && (Withdrawing(a) ==> Withdrawing(b))
      && (InTrial(a) ==> if xs[k].demand then b.phase == a.phase || b.phase.Ramp? else b.phase.Idle?)
      && (a.phase.Idle? ==> if !xs[k].demand then b.phase.Idle?
                            else b.phase == if xs[k].stale then StaleStart else Monitoring)
  {
    UnforgivenAt(g, timing, xs, k);
  }

  lemma WithdrawsOn(g: Guard, timing: Timing, xs: seq<Look>, i: nat, j: nat)
    requires SameEvidence(g, timing, xs) && i <= j <= |xs| && Withdrawing(GuardAt(g, timing, xs, i))
    ensures Withdrawing(GuardAt(g, timing, xs, j))
  {
    var good := (k: nat) => k <= |xs| && Withdrawing(GuardAt(g, timing, xs, k));
    forall k: nat | i <= k < j && good(k) ensures good(k + 1) { TrialStep(g, timing, xs, k); }
    Chain(good, (k: nat) => 0, i, j);
  }

  lemma BeginsFromIdle(g: Guard, timing: Timing, xs: seq<Look>, k: nat)
    requires SameEvidence(g, timing, xs) && k < |xs| && BeginsAt(g, timing, xs, k)
    ensures GuardAt(g, timing, xs, k).phase.Idle? && xs[k].demand
    ensures BeginsStaleAt(g, timing, xs, k) <==> xs[k].stale
  {
    TrialStep(g, timing, xs, k);
  }

  /** A trial that has come to rest again was dropped. */
  lemma RestsAfterDrop(g: Guard, timing: Timing, xs: seq<Look>, i: nat, k: nat, phase: Phase) returns (j: nat)
    requires SameEvidence(g, timing, xs) && i <= k < |xs| && InTrial(GuardAt(g, timing, xs, i))
    requires GuardAt(g, timing, xs, i).phase == phase && GuardAt(g, timing, xs, k).phase.Idle?
    ensures i <= j < k && DropsAt(g, timing, xs, j) && GuardAt(g, timing, xs, j).phase == phase
  {
    j := Turns((n: nat) => n <= |xs| && GuardAt(g, timing, xs, n).phase != phase, i, k);
    TrialStep(g, timing, xs, j);
    if xs[j].demand { WithdrawsOn(g, timing, xs, j + 1, k); }
  }

  /** A trial under way has begun. */
  lemma HasBegun(g: Guard, timing: Timing, xs: seq<Look>, j: nat, phase: Phase) returns (i: nat)
    requires SameEvidence(g, timing, xs) && j <= |xs| && InTrial(GuardAt(g, timing, xs, j))
    requires GuardAt(g, timing, xs, j).phase == phase
    ensures i < j && BeginsAt(g, timing, xs, i) && GuardAt(g, timing, xs, i + 1).phase == phase
  {
    assert xs[..0] == [];
    i := Turns((n: nat) => n <= |xs| && GuardAt(g, timing, xs, n).phase == phase, 0, j);
    TrialStep(g, timing, xs, i);
  }

  /** Heat asked for again after a drop begins a trial somewhere. */
  lemma BeginsAgain(g: Guard, timing: Timing, xs: seq<Look>, j: nat, k: nat) returns (m: nat)
    requires SameEvidence(g, timing, xs) && j < k < |xs| && DropsAt(g, timing, xs, j) && xs[k].demand
    ensures j < m <= k && BeginsAt(g, timing, xs, m)
  {
    TrialStep(g, timing, xs, j);
    TrialStep(g, timing, xs, k);
    m := k;
    if !GuardAt(g, timing, xs, k).phase.Idle? {
      m := Turns((n: nat) => n <= |xs| && !GuardAt(g, timing, xs, n).phase.Idle?, j + 1, k);
      TrialStep(g, timing, xs, m);
    }
  }

  /** Main result on trials. Without news, a guard that starts idle grants a second trial exactly when heat stops being
      asked for during a trial, before any withdrawal, and is asked for again later. */
  lemma SecondTrialExactly(g: Guard, timing: Timing, xs: seq<Look>)
    requires SameEvidence(g, timing, xs)
    ensures (exists i, k :: 0 <= i < k < |xs| && BeginsAt(g, timing, xs, i) && BeginsAt(g, timing, xs, k))
        <==> (exists j, k :: 0 <= j < k < |xs| && DropsAt(g, timing, xs, j) && xs[k].demand)
  {
    if i, k :| 0 <= i < k < |xs| && BeginsAt(g, timing, xs, i) && BeginsAt(g, timing, xs, k) {
      BeginsFromIdle(g, timing, xs, k);
      var j := RestsAfterDrop(g, timing, xs, i + 1, k, GuardAt(g, timing, xs, i + 1).phase);
    }
    if j, k :| 0 <= j < k < |xs| && DropsAt(g, timing, xs, j) && xs[k].demand {
      var i := HasBegun(g, timing, xs, j, GuardAt(g, timing, xs, j).phase);
      var m := BeginsAgain(g, timing, xs, j, k);
      assert BeginsAt(g, timing, xs, i) && BeginsAt(g, timing, xs, m);
    }
  }

  /** After look j, heat is first asked for again at look k. */
  ghost predicate ReturnsAt(xs: seq<Look>, j: nat, k: nat)
    requires j < k < |xs|
  {
    xs[k].demand && forall n :: j < n < k ==> !xs[n].demand
  }

  ghost predicate DropsStaleAt(g: Guard, timing: Timing, xs: seq<Look>, j: nat)
    requires j < |xs|
  {
    DropsAt(g, timing, xs, j) && GuardAt(g, timing, xs, j).phase.StaleStart?
  }

  ghost predicate IdleUntil(g: Guard, timing: Timing, xs: seq<Look>, n: nat, k: nat)
    requires k <= |xs|
  {
    forall m :: n <= m <= k ==> GuardAt(g, timing, xs, m).phase.Idle?
  }

  lemma {:induction false} RestsUntilReturn(g: Guard, timing: Timing, xs: seq<Look>, j: nat, k: nat)
    requires SameEvidence(g, timing, xs) && j < k < |xs| && DropsAt(g, timing, xs, j)
    requires forall n :: j < n < k ==> !xs[n].demand
    ensures GuardAt(g, timing, xs, k).phase.Idle?
  {
    TrialStep(g, timing, xs, k - 1);
    if j < k - 1 { RestsUntilReturn(g, timing, xs, j, k - 1); }
  }

  /** The last drop before a rest. */
  lemma LastDrop(g: Guard, timing: Timing, xs: seq<Look>, j: nat, k: nat) returns (last: nat)
    requires SameEvidence(g, timing, xs) && j < k < |xs| && DropsAt(g, timing, xs, j)
    requires GuardAt(g, timing, xs, k).phase.Idle? && xs[k].demand
    ensures j <= last < k && DropsAt(g, timing, xs, last) && ReturnsAt(xs, last, k)
  {
    last := Turns((n: nat) => n <= k && IdleUntil(g, timing, xs, n, k), j, k);
    TrialStep(g, timing, xs, last);
    if Withdrawing(GuardAt(g, timing, xs, last)) { WithdrawsOn(g, timing, xs, last, k); }
    forall n | last < n < k ensures !xs[n].demand { TrialStep(g, timing, xs, n); }
  }

  /** The promise itself, no second stale trial for the same report: it is broken exactly when heat stops being asked
      for during a stale trial and, after that or a later dropped trial, is first asked for again while the source is
      stale. */
  lemma SecondStaleTrialExactly(g: Guard, timing: Timing, xs: seq<Look>)
    requires SameEvidence(g, timing, xs)
    ensures (exists i, k :: 0 <= i < k < |xs| && BeginsStaleAt(g, timing, xs, i) && BeginsStaleAt(g, timing, xs, k))
        <==> (exists i, j, k :: 0 <= i <= j < k < |xs| && DropsStaleAt(g, timing, xs, i) && DropsAt(g, timing, xs, j)
                                && ReturnsAt(xs, j, k) && xs[k].stale)
  {
    if i, k :| 0 <= i < k < |xs| && BeginsStaleAt(g, timing, xs, i) && BeginsStaleAt(g, timing, xs, k) {
      BeginsFromIdle(g, timing, xs, k);
      var first := RestsAfterDrop(g, timing, xs, i + 1, k, StaleStart);
      var last := LastDrop(g, timing, xs, first, k);
      assert DropsStaleAt(g, timing, xs, first) && DropsAt(g, timing, xs, last) && ReturnsAt(xs, last, k);
    }
    if i, j, k :| 0 <= i <= j < k < |xs| && DropsStaleAt(g, timing, xs, i) && DropsAt(g, timing, xs, j)
                  && ReturnsAt(xs, j, k) && xs[k].stale {
      var first := HasBegun(g, timing, xs, i, StaleStart);
      RestsUntilReturn(g, timing, xs, j, k);
      TrialStep(g, timing, xs, k);
      assert BeginsStaleAt(g, timing, xs, first) && BeginsStaleAt(g, timing, xs, k);
    }
  }

  /** So dropping the demand for a moment before the deadline buys another full trial on the same stale report: asked
      for at 0, dropped and asked for again at 59 minutes, heat is still unrestricted at 110. */
  lemma DroppedDemandBuysAnotherTrial()
    ensures var m := 60 * SECOND;
      var timing := Timing(30 * m, 60 * m, 30 * m);
      var at := (t: int, demand: bool) => Look(t * m, Some(-120 * m), true, demand, 21.0);
      var xs := [at(0, true), at(59, false), at(59, true), at(110, true)];
      Unforgiven(FRESH, timing, xs) && Run(FRESH, timing, xs).phase.StaleStart?
  {
    var m := 60 * SECOND;
    var timing := Timing(30 * m, 60 * m, 30 * m);
    var at := (t: int, demand: bool) => Look(t * m, Some(-120 * m), true, demand, 21.0);
    var xs := [at(0, true), at(59, false), at(59, true), at(110, true)];
    assert xs[..3][..2] == xs[..2] && xs[..2][..1] == xs[..1] && xs[..1][..0] == [];
    assert Run(FRESH, timing, xs[..1][..0]) == FRESH;
    var a := Run(FRESH, timing, xs[..1]);
    assert a == Advance(FRESH, timing, xs[0]);
    var b := Run(FRESH, timing, xs[..2]);
    assert b == Advance(a, timing, xs[1]);
    var c := Run(FRESH, timing, xs[..3]);
    assert c == Advance(b, timing, xs[2]);
    assert Unforgiven(FRESH, timing, xs[..1]);
    assert Unforgiven(FRESH, timing, xs[..2]);
    assert Unforgiven(FRESH, timing, xs[..3]);
  }

  // ---- how long a trial lasts ----------------------------------------------------------------------

  /** A trial under way: since when, and on what report. */
  predicate Trial(g: Guard, stale: bool, start: Time, report: Option<Time>) {
    g.phase == (if stale then StaleStart else Monitoring) && g.startedAt == Some(start) && g.reportAt == report
  }

  /** A stale trial lasts its own patience; any other one is counted from its start or its report, whichever is later. */
  function TrialEnd(timing: Timing, stale: bool, start: Time, report: Option<Time>): Time {
    if stale then start + timing.staleStart
    else if report.Some? && report.value > start then report.value + timing.active
    else start + timing.active
  }

  /** Heat asked for of an idle guard starts a trial on the report it finds, stale or not; a newer report starts a
      fresh one whatever went before, and the guard remembers that report as its evidence. */
  lemma TrialStarts(g: Guard, timing: Timing, x: Look)
    requires Patient(timing) && x.demand && (g.phase.Idle? || Newer(g, x))
    ensures var h := Advance(g, timing, x);
      && Trial(h, x.stale && !Newer(g, x), x.now, x.report) && h.evidenceAt == x.report && !Withdrawing(h)
      && (Newer(g, x) ==> h.rampAt.None? && h.rampStart.None?)
  {
  }

  /** Without news and under demand, a trial goes on unchanged until its end, and then becomes a ramp from the target
      of that look, dated back to the end. */
  lemma TrialGoesOn(g: Guard, timing: Timing, x: Look, stale: bool, start: Time, report: Option<Time>)
    requires Trial(g, stale, start, report) && x.demand && !Newer(g, x)
    ensures var h, end := Advance(g, timing, x), TrialEnd(timing, stale, start, report);
      if x.now < end then h == g
      else h == g.(phase := Ramp, rampAt := Some(end), rampStart := Some(x.target))
  {
  }

  /** A ramp ends at its maximum, and where it ended it stays until there is news. */
  lemma RampGoesOn(g: Guard, timing: Timing, x: Look)
    requires Withdrawing(g) && x.demand && !Newer(g, x)
    ensures var h := Advance(g, timing, x);
      h == g.(phase := if g.phase.Ramp? && g.rampAt.Some? && x.now < g.rampAt.value + timing.rampMaximum then Ramp
                       else Exhausted)
  {
  }

  /** Heat no longer asked for: a withdrawal is over but not forgotten, anything else rests; without evidence the
      report at hand becomes it. */
  lemma DropRests(g: Guard, timing: Timing, x: Look)
    requires !x.demand
    ensures var h := Advance(g, timing, x);
      && h.startedAt.None?
      && (h.phase.Exhausted? <==> Withdrawing(g) && !Newer(g, x)) && (h.phase.Idle? <==> !Withdrawing(g) || Newer(g, x))
      && (!Newer(g, x) ==> h.reportAt == g.reportAt && h.rampAt == g.rampAt && h.rampStart == g.rampStart)
      && h.evidenceAt == if Newer(g, x) || g.evidenceAt.None? then x.report else g.evidenceAt
  {
  }

  /** What counts as news: a report strictly later than the evidence. */
  lemma NewsIsLater(g: Guard, x: Look)
    ensures Newer(g, x) <==>
      exists seen, report :: g.evidenceAt == Some(seen) && x.report == Some(report) && seen < report
  {
  }

  ghost predicate OnSchedule(g: Guard, h: Guard, timing: Timing, stale: bool, start: Time, report: Option<Time>, now: Time) {
    var end := TrialEnd(timing, stale, start, report);
    && h.evidenceAt == g.evidenceAt
    && if now < end then h == g else Withdrawing(h) && h.rampAt == Some(end)
  }

  /** Main result on patience, over runs: under uninterrupted demand and without news, a trial is withdrawn exactly
      from its end on, never before; the ramp is dated to that end. */
  lemma {:induction false} PatienceIsExact(g: Guard, timing: Timing, xs: seq<Look>, stale: bool, start: Time,
                                           report: Option<Time>)
    requires Trial(g, stale, start, report) && xs != [] && Demanding(xs) && Unforgiven(g, timing, xs)
    ensures OnSchedule(g, Run(g, timing, xs), timing, stale, start, report, xs[|xs| - 1].now)
  {
    var front, x := xs[..|xs| - 1], xs[|xs| - 1];
    var before := Run(g, timing, front);
    if front == [] {
      assert before == g;
      TrialGoesOn(g, timing, x, stale, start, report);
    } else {
      PatienceIsExact(g, timing, front, stale, start, report);
      if Withdrawing(before) { RampGoesOn(before, timing, x); }
      else { TrialGoesOn(before, timing, x, stale, start, report); }
    }
  }

  /** While nothing is withdrawn no target is imposed. On the ramp it falls from where the withdrawal began, or from
      the fallback if that is higher, by the configured minutes a degree or faster to make the maximum, and no lower
      than the fallback. */
  lemma RampTarget(g: Guard, f: Fallback, timing: Timing, now: Time)
    requires Usable(f, timing)
    ensures var t := Target(g, f, timing, now);
      && (t.None? <==> !Withdrawing(g))
      && (g.phase.Exhausted? ==> t == Some(f.target))
      && (g.phase.Ramp? && (g.rampAt.None? || g.rampStart.None?) ==> t == Some(f.target))
      && (g.phase.Ramp? && g.rampAt.Some? && g.rampStart.Some? ==>
            var start := Max(f.target, g.rampStart.value);
            var minutes := if now > g.rampAt.value then (now - g.rampAt.value) as real / 60_000_000.0 else 0.0;
            var rate := Max(1.0 / f.minutesPerDegree, (start - f.target) / (timing.rampMaximum as real / 60_000_000.0));
            t == Some(Max(f.target, start - rate * minutes)))
  {
  }
}
