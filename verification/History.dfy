/** Outdoor history: the incremental day-by-day integral and the declarative sum it must equal.
    Local midnights are any strictly increasing function of the date, so 23 and 25 hour days are covered. */
module History {
  import opened Contracts

  type Midnights = int -> Time

  ghost predicate Calendar(m: Midnights) {
    forall d, e :: d < e ==> m(d) < m(e)
  }

  datatype Sample = Sample(at: Time, value: Option<real>, valid: bool, synthetic: bool, hold: Option<Time>,
      provenance: string)

  /** A day in progress; `start` and `end` are its real midnights. */
  datatype Day = Day(date: int, start: Time, end: Time, integral: real, covered: real, observations: nat,
                     largestGap: real, currentGap: real, provenance: string)

  datatype State = State(
    cursor: Time, day: Day, value: Option<real>, holdUntil: Option<Time>, observedAt: Option<Time>,
    holdLength: Option<Time>, done: seq<Day>)

  function Seconds(t: Time): real { t as real / 1000000.0 }

  function MinT(a: Time, b: Time): Time { if a <= b then a else b }

  function MaxT(a: Time, b: Time): Time { if a >= b then a else b }

  function NewDay(m: Midnights, date: int): Day { Day(date, m(date), m(date + 1), 0.0, 0.0, 0, 0.0, 0.0, "measured") }

  function Add(d: Day, span: Time, value: Option<real>): Day {
    if span <= 0 then d
    else if value.None? then
      var gap := d.currentGap + Seconds(span);
      d.(currentGap := gap, largestGap := Max(d.largestGap, gap))
    else d.(currentGap := 0.0, integral := d.integral + value.value * Seconds(span), covered := d.covered + Seconds(span))
  }

  ghost predicate Valid(s: State, m: Midnights) {
    && s.day.start == m(s.day.date) && s.day.end == m(s.day.date + 1)
    && s.day.start <= s.cursor < s.day.end
  }

  /** Either no hold is kept at all, or it ends its own length after the observation it belongs to. */
  predicate HoldIsWhole(s: State) {
    if s.holdUntil.None? then s.observedAt.None? && s.holdLength.None?
    else
      && s.value.Some? && s.observedAt.Some? && s.holdLength.Some?
      && s.holdUntil.value == s.observedAt.value + s.holdLength.value
  }

  function Start(m: Midnights, date: int, start: Time): State {
    State(start, Add(NewDay(m, date), start - m(date), None), None, None, None, None, [])
  }

  /** Where the held value stops covering, between the cursor and a boundary. */
  function CoveredEnd(s: State, boundary: Time): Time {
    if s.value.None? || s.holdUntil.None? then s.cursor
    else MaxT(s.cursor, MinT(boundary, s.holdUntil.value))
  }

  function Cover(s: State, boundary: Time): State {
    var e := CoveredEnd(s, boundary);
    s.(day := Add(Add(s.day, e - s.cursor, s.value), boundary - e, None), cursor := boundary)
  }

  function Roll(s: State, m: Midnights): State {
    if s.cursor == s.day.end then s.(done := s.done + [s.day], day := NewDay(m, s.day.date + 1)) else s
  }

  /** One pass of the loop: to the end asked for or to midnight, whichever is first. */
  function Pass(s: State, m: Midnights, end: Time): State { Roll(Cover(s, MinT(end, s.day.end)), m) }

  lemma PassIsValid(s: State, m: Midnights, end: Time)
    requires Calendar(m) && Valid(s, m) && s.cursor < end
    ensures Valid(Pass(s, m, end), m) && s.cursor < Pass(s, m, end).cursor <= end
  {
  }

  ghost function Advance(s: State, m: Midnights, end: Time): State
    requires Calendar(m) && Valid(s, m)
    decreases end - s.cursor
  {
    if s.cursor >= end then s
    else
      PassIsValid(s, m, end);
      Advance(Pass(s, m, end), m, end)
  }

  lemma {:induction false} AdvanceIsValid(s: State, m: Midnights, end: Time)
    requires Calendar(m) && Valid(s, m)
    ensures var t := Advance(s, m, end);
      && Valid(t, m) && t.cursor == MaxT(s.cursor, end)
      && t.value == s.value && t.holdUntil == s.holdUntil && t.observedAt == s.observedAt && t.holdLength == s.holdLength
      && s.done <= t.done
    decreases end - s.cursor
  {
    if s.cursor < end {
      PassIsValid(s, m, end);
      AdvanceIsValid(Pass(s, m, end), m, end);
    }
  }

  // ---- events ------------------------------------------------------------------------------------

  datatype Event = Observe(sample: Sample) | AdvanceTo(end: Time)

  datatype Verdict = Accepted | OutOfOrder | BadHold

  function HoldOf(x: Sample, maximumHold: Time): Time { if x.hold.Some? then x.hold.value else maximumHold }

  predicate Carries(x: Sample) { x.valid && x.value.Some? }

  /** What a sample changes once the integral has been brought up to its timestamp. A bad hold is noticed only
      after the value has been replaced. */
  function Take(s: State, x: Sample, maximumHold: Time): (State, Verdict) {
    if !Carries(x) then (s.(value := None, holdUntil := None, observedAt := None, holdLength := None), Accepted)
    else
      var hold := HoldOf(x, maximumHold);
      if hold <= 0 then (s.(value := x.value), BadHold)
      else
        (s.(value := x.value, holdUntil := Some(x.at + hold), observedAt := Some(x.at), holdLength := Some(hold),
            day := s.day.(observations := s.day.observations + (if x.synthetic then 0 else 1), provenance := x.provenance)),
         Accepted)
  }

  ghost function Handle(s: State, m: Midnights, maximumHold: Time, e: Event): (State, Verdict)
    requires Calendar(m) && Valid(s, m)
  {
    match e
    case Observe(x) => if x.at < s.cursor then (s, OutOfOrder) else Take(Advance(s, m, x.at), x, maximumHold)
    case AdvanceTo(end) => if end < s.cursor then (s, OutOfOrder) else (Advance(s, m, end), Accepted)
  }

  lemma HandleIsValid(s: State, m: Midnights, maximumHold: Time, e: Event)
    requires Calendar(m) && Valid(s, m)
    ensures Valid(Handle(s, m, maximumHold, e).0, m)
  {
    AdvanceIsValid(s, m, if e.Observe? then e.sample.at else e.end);
  }

  /** State and accepted samples after a run of events. */
  ghost function Run(s: State, m: Midnights, maximumHold: Time, es: seq<Event>): (t: State)
    requires Calendar(m) && Valid(s, m)
    ensures Valid(t, m)
  {
    if es == [] then s
    else
      var before := Run(s, m, maximumHold, es[..|es| - 1]);
      HandleIsValid(before, m, maximumHold, es[|es| - 1]);
      Handle(before, m, maximumHold, es[|es| - 1]).0
  }

  /** What a sample offered at the cursor amounts to. One refused for its hold still replaces the held value,
      unobserved, for what is left of the hold already running, if any. */
  function Effect(s: State, x: Sample, maximumHold: Time): Sample {
    if !Carries(x) || HoldOf(x, maximumHold) > 0 then x
    else if s.holdUntil.Some? then x.(synthetic := true, hold := Some(s.holdUntil.value - x.at))
    else x.(valid := false)
  }

  /** The samples of a run as they count: every one that was not out of order. */
  ghost function Counted(s: State, m: Midnights, maximumHold: Time, es: seq<Event>): seq<Sample>
    requires Calendar(m) && Valid(s, m)
  {
    if es == [] then []
    else
      var front, e := es[..|es| - 1], es[|es| - 1];
      var before := Run(s, m, maximumHold, front);
      Counted(s, m, maximumHold, front)
      + (if e.Observe? && before.cursor <= e.sample.at
         then [Effect(Advance(before, m, e.sample.at), e.sample, maximumHold)] else [])
  }

  /** Every usable sample offered has a positive hold. */
  predicate GoodHolds(es: seq<Event>, maximumHold: Time) {
    forall k :: 0 <= k < |es| && es[k].Observe? && Carries(es[k].sample) ==> HoldOf(es[k].sample, maximumHold) > 0
  }

  /** The samples that were not refused. */
  ghost function Taken(s: State, m: Midnights, maximumHold: Time, es: seq<Event>): seq<Sample>
    requires Calendar(m) && Valid(s, m)
  {
    if es == [] then []
    else
      var front, e := es[..|es| - 1], es[|es| - 1];
      Taken(s, m, maximumHold, front)
      + (if e.Observe? && Handle(Run(s, m, maximumHold, front), m, maximumHold, e).1.Accepted? then [e.sample] else [])
  }

  /** With positive holds the samples count as themselves, and exactly those that were taken. */
  lemma {:induction false} GoodHoldsCountAsTaken(s: State, m: Midnights, maximumHold: Time, es: seq<Event>)
    requires Calendar(m) && Valid(s, m) && GoodHolds(es, maximumHold)
    ensures Counted(s, m, maximumHold, es) == Taken(s, m, maximumHold, es)
  {
    if es == [] {
    } else {
      GoodHoldsCountAsTaken(s, m, maximumHold, es[..|es| - 1]);
      if es[|es| - 1].Observe? && Carries(es[|es| - 1].sample) { assert HoldOf(es[|es| - 1].sample, maximumHold) > 0; }
    }
  }

  // ---- the declarative sum -----------------------------------------------------------------------

  /** Length of the part of [a, b) inside [from, to). */
  function Overlap(a: Time, b: Time, from: Time, to: Time): Time { MaxT(0, MinT(b, to) - MaxT(a, from)) }

  /** End of a sample's window: the next sample or the horizon, or its hold, whichever is first. */
  function WindowEnd(x: Sample, next: Time, maximumHold: Time): Time { MinT(next, x.at + HoldOf(x, maximumHold)) }

  /** Seconds of [t_i, min(t_i+1, t_i + hold_i)) inside [from, to), and value times those seconds. */
  function Share(x: Sample, next: Time, maximumHold: Time, from: Time, to: Time): real {
    if Carries(x) then Seconds(Overlap(x.at, WindowEnd(x, next, maximumHold), from, to)) else 0.0
  }

  function Part(x: Sample, next: Time, maximumHold: Time, from: Time, to: Time): real {
    if Carries(x) then x.value.value * Share(x, next, maximumHold, from, to) else 0.0
  }

  /** The sum of the parts, in C seconds; the last window ends at the horizon. */
  ghost function Integral(xs: seq<Sample>, maximumHold: Time, horizon: Time, from: Time, to: Time): real {
    if xs == [] then 0.0
    else
      var x := xs[|xs| - 1];
      Integral(xs[..|xs| - 1], maximumHold, x.at, from, to) + Part(x, horizon, maximumHold, from, to)
  }

  /** The sum of the shares: the seconds covered. */
  ghost function Covered(xs: seq<Sample>, maximumHold: Time, horizon: Time, from: Time, to: Time): real {
    if xs == [] then 0.0
    else
      var x := xs[|xs| - 1];
      Covered(xs[..|xs| - 1], maximumHold, x.at, from, to) + Share(x, horizon, maximumHold, from, to)
  }

  ghost function Observed(xs: seq<Sample>, from: Time, to: Time): nat {
    if xs == [] then 0
    else
      var x := xs[|xs| - 1];
      Observed(xs[..|xs| - 1], from, to) + (if Carries(x) && !x.synthetic && from <= x.at < to then 1 else 0)
  }

  ghost predicate Ordered(xs: seq<Sample>, horizon: Time) {
    xs == [] || (xs[|xs| - 1].at <= horizon && Ordered(xs[..|xs| - 1], xs[|xs| - 1].at))
  }

  /** A day record says exactly what the declarative sum says of its own day. */
  ghost predicate DayIs(d: Day, date: int, m: Midnights, xs: seq<Sample>, maximumHold: Time, horizon: Time) {
    && d.date == date && d.start == m(date) && d.end == m(date + 1)
    && d.integral == Integral(xs, maximumHold, horizon, d.start, d.end)
    && d.covered == Covered(xs, maximumHold, horizon, d.start, d.end)
    && d.observations == Observed(xs, d.start, d.end)
  }

  /** What is held is the last sample's. */
  ghost predicate HoldsLast(s: State, xs: seq<Sample>, maximumHold: Time) {
    if xs == [] || !Carries(xs[|xs| - 1]) then s.holdUntil.None?
    else
      var x := xs[|xs| - 1];
      s.value == x.value && s.holdUntil == Some(x.at + HoldOf(x, maximumHold))
  }

  /** Every day closed so far, numbered from the first date without a gap. */
  ghost predicate DoneAre(done: seq<Day>, first: int, m: Midnights, xs: seq<Sample>, maximumHold: Time, horizon: Time) {
    forall k :: 0 <= k < |done| ==> DayIs(done[k], first + k, m, xs, maximumHold, horizon)
  }

  ghost predicate Tallies(s: State, first: int, m: Midnights, xs: seq<Sample>, maximumHold: Time) {
    && Ordered(xs, s.cursor) && HoldsLast(s, xs, maximumHold)
    && s.day.date == first + |s.done|
    && DayIs(s.day, s.day.date, m, xs, maximumHold, s.cursor)
    && DoneAre(s.done, first, m, xs, maximumHold, s.cursor)
  }

  /** The integrator's state is the declarative sum over the samples seen, for every day from the first. */
  ghost predicate Refines(s: State, first: int, m: Midnights, xs: seq<Sample>, maximumHold: Time) {
    Valid(s, m) && Tallies(s, first, m, xs, maximumHold)
  }

  /** Moving the horizon past a whole day changes nothing in it; before it, everything is still to come. */
  lemma {:induction false} HorizonOutside(xs: seq<Sample>, maximumHold: Time, h1: Time, h2: Time, from: Time, to: Time)
    requires Ordered(xs, h1) && h1 <= h2
    ensures to <= h1 ==> Integral(xs, maximumHold, h1, from, to) == Integral(xs, maximumHold, h2, from, to)
                         && Covered(xs, maximumHold, h1, from, to) == Covered(xs, maximumHold, h2, from, to)
    ensures h1 <= from ==> Integral(xs, maximumHold, h1, from, to) == 0.0 && Covered(xs, maximumHold, h1, from, to) == 0.0
  {
    if xs != [] {
      var x := xs[|xs| - 1];
      HorizonOutside(xs[..|xs| - 1], maximumHold, x.at, x.at, from, to);
      if h1 <= from { assert Overlap(x.at, WindowEnd(x, h1, maximumHold), from, to) == 0; }
      if to <= h1 {
        assert Overlap(x.at, WindowEnd(x, h1, maximumHold), from, to)
            == Overlap(x.at, WindowEnd(x, h2, maximumHold), from, to);
      }
    }
  }

  lemma {:induction false} NothingObservedBefore(xs: seq<Sample>, horizon: Time, from: Time, to: Time)
    requires Ordered(xs, horizon)
    ensures horizon < from ==> Observed(xs, from, to) == 0
  {
    if xs != [] { NothingObservedBefore(xs[..|xs| - 1], xs[|xs| - 1].at, from, to); }
  }

  lemma SplitProduct(v: real, a: Time, b: Time)
    ensures v * Seconds(a + b) == v * Seconds(a) + v * Seconds(b)
  {
    assert Seconds(a + b) == Seconds(a) + Seconds(b);
  }

  /** How far a held sample reaches between two horizons. */
  function Reach(x: Sample, maximumHold: Time, h1: Time, h2: Time): Time {
    MaxT(h1, MinT(h2, x.at + HoldOf(x, maximumHold))) - h1
  }

  lemma WindowGrows(x: Sample, maximumHold: Time, h1: Time, h2: Time, from: Time, to: Time)
    requires x.at <= h1 && from <= h1 <= h2 <= to
    ensures Overlap(x.at, WindowEnd(x, h2, maximumHold), from, to)
         == Overlap(x.at, WindowEnd(x, h1, maximumHold), from, to) + Reach(x, maximumHold, h1, h2)
  {
  }

  lemma ShareGrows(x: Sample, maximumHold: Time, h1: Time, h2: Time, from: Time, to: Time)
    requires x.at <= h1 && from <= h1 <= h2 <= to && Carries(x)
    ensures var k := Seconds(Reach(x, maximumHold, h1, h2));
      && Share(x, h2, maximumHold, from, to) == Share(x, h1, maximumHold, from, to) + k
      && Part(x, h2, maximumHold, from, to) == Part(x, h1, maximumHold, from, to) + x.value.value * k
  {
    WindowGrows(x, maximumHold, h1, h2, from, to);
    SplitProduct(x.value.value, Overlap(x.at, WindowEnd(x, h1, maximumHold), from, to), Reach(x, maximumHold, h1, h2));
  }

  /** What moving the horizon inside a day adds to that day's sums: only the last sample's window grows. */
  lemma LastWindowGrows(xs: seq<Sample>, maximumHold: Time, h1: Time, h2: Time, from: Time, to: Time)
    requires xs != [] && Ordered(xs, h1) && from <= h1 <= h2 <= to
    ensures var x := xs[|xs| - 1];
      var k := if Carries(x) then Seconds(Reach(x, maximumHold, h1, h2)) else 0.0;
      && Integral(xs, maximumHold, h2, from, to)
         == Integral(xs, maximumHold, h1, from, to) + (if Carries(x) then x.value.value * k else 0.0)
      && Covered(xs, maximumHold, h2, from, to) == Covered(xs, maximumHold, h1, from, to) + k
  {
    var x := xs[|xs| - 1];
    if Carries(x) { ShareGrows(x, maximumHold, h1, h2, from, to); }
  }

  lemma DoneStay(done: seq<Day>, first: int, m: Midnights, xs: seq<Sample>, maximumHold: Time, h1: Time, h2: Time)
    requires Calendar(m) && Ordered(xs, h1) && h1 <= h2 && m(first + |done|) <= h1
    requires DoneAre(done, first, m, xs, maximumHold, h1)
    ensures DoneAre(done, first, m, xs, maximumHold, h2)
  {
    forall k | 0 <= k < |done| ensures DayIs(done[k], first + k, m, xs, maximumHold, h2) {
      assert DayIs(done[k], first + k, m, xs, maximumHold, h1);
      assert m(first + k + 1) <= m(first + |done|);
      HorizonOutside(xs, maximumHold, h1, h2, m(first + k), m(first + k + 1));
    }
  }

  lemma CoverTallies(s: State, first: int, m: Midnights, xs: seq<Sample>, maximumHold: Time, boundary: Time)
    requires Calendar(m) && Refines(s, first, m, xs, maximumHold) && s.cursor < boundary <= s.day.end
    ensures Tallies(Cover(s, boundary), first, m, xs, maximumHold)
  {
    DoneStay(s.done, first, m, xs, maximumHold, s.cursor, boundary);
    if xs != [] { LastWindowGrows(xs, maximumHold, s.cursor, boundary, s.day.start, s.day.end); }
  }

  lemma RollTallies(s: State, first: int, m: Midnights, xs: seq<Sample>, maximumHold: Time, before: Time)
    requires Calendar(m) && Tallies(s, first, m, xs, maximumHold) && s.cursor == s.day.end
    requires Ordered(xs, before) && before < s.cursor
    ensures Tallies(Roll(s, m), first, m, xs, maximumHold)
  {
    var t := Roll(s, m);
    HorizonOutside(xs, maximumHold, s.cursor, s.cursor, t.day.start, t.day.end);
    NothingObservedBefore(xs, before, t.day.start, t.day.end);
    forall k | 0 <= k < |t.done| ensures DayIs(t.done[k], first + k, m, xs, maximumHold, t.cursor) {
      if k < |s.done| { assert t.done[k] == s.done[k]; }
    }
  }

  lemma {:induction false} AdvanceRefines(s: State, first: int, m: Midnights, xs: seq<Sample>, maximumHold: Time,
      end: Time)
    requires Calendar(m) && Refines(s, first, m, xs, maximumHold)
    ensures Refines(Advance(s, m, end), first, m, xs, maximumHold)
    decreases end - s.cursor
  {
    if s.cursor < end {
      PassIsValid(s, m, end);
      var boundary := MinT(end, s.day.end);
      CoverTallies(s, first, m, xs, maximumHold, boundary);
      if boundary == s.day.end { RollTallies(Cover(s, boundary), first, m, xs, maximumHold, s.cursor); }
      AdvanceRefines(Pass(s, m, end), first, m, xs, maximumHold, end);
    }
  }

  /** A sample that arrives at the cursor has an empty window so far, and closes its predecessor's there. */
  lemma AppendAtHorizon(xs: seq<Sample>, x: Sample, maximumHold: Time, from: Time, to: Time)
    ensures Integral(xs + [x], maximumHold, x.at, from, to) == Integral(xs, maximumHold, x.at, from, to)
    ensures Covered(xs + [x], maximumHold, x.at, from, to) == Covered(xs, maximumHold, x.at, from, to)
    ensures Observed(xs + [x], from, to)
         == Observed(xs, from, to) + (if Carries(x) && !x.synthetic && from <= x.at < to then 1 else 0)
    ensures Ordered(xs + [x], x.at) == Ordered(xs, x.at)
  {
    assert (xs + [x])[..|xs|] == xs;
  }

  lemma DoneAppend(done: seq<Day>, first: int, m: Midnights, xs: seq<Sample>, y: Sample, maximumHold: Time)
    requires Calendar(m) && DoneAre(done, first, m, xs, maximumHold, y.at) && m(first + |done|) <= y.at
    ensures DoneAre(done, first, m, xs + [y], maximumHold, y.at)
  {
    forall k | 0 <= k < |done| ensures DayIs(done[k], first + k, m, xs + [y], maximumHold, y.at) {
      assert DayIs(done[k], first + k, m, xs, maximumHold, y.at);
      assert m(first + k + 1) <= m(first + |done|);
      AppendAtHorizon(xs, y, maximumHold, m(first + k), m(first + k + 1));
    }
  }

  lemma TakeHoldsLast(s: State, xs: seq<Sample>, x: Sample, maximumHold: Time)
    ensures HoldsLast(Take(s, x, maximumHold).0, xs + [Effect(s, x, maximumHold)], maximumHold)
  {
  }

  /** A sample changes neither the cursor nor any sum, and is counted when it is observed. */
  lemma TakeCounts(s: State, m: Midnights, x: Sample, maximumHold: Time)
    requires Valid(s, m) && x.at == s.cursor
    ensures var t, y := Take(s, x, maximumHold).0, Effect(s, x, maximumHold);
      && Valid(t, m) && t.cursor == s.cursor && t.done == s.done && y.at == x.at
      && t.day.observations == s.day.observations + (if Carries(y) && !y.synthetic then 1 else 0)
      && t.day == s.day.(observations := t.day.observations, provenance := t.day.provenance)
  {
  }

  lemma TakeRefines(s: State, first: int, m: Midnights, xs: seq<Sample>, x: Sample, maximumHold: Time)
    requires Calendar(m) && Refines(s, first, m, xs, maximumHold) && x.at == s.cursor
    ensures Refines(Take(s, x, maximumHold).0, first, m, xs + [Effect(s, x, maximumHold)], maximumHold)
  {
    var y := Effect(s, x, maximumHold);
    TakeHoldsLast(s, xs, x, maximumHold);
    TakeCounts(s, m, x, maximumHold);
    AppendAtHorizon(xs, y, maximumHold, s.day.start, s.day.end);
    DoneAppend(s.done, first, m, xs, y, maximumHold);
  }

  lemma EventRefines(s: State, first: int, m: Midnights, xs: seq<Sample>, maximumHold: Time, e: Event)
    requires Calendar(m) && Refines(s, first, m, xs, maximumHold)
    ensures var more :=
      if e.Observe? && s.cursor <= e.sample.at then [Effect(Advance(s, m, e.sample.at), e.sample, maximumHold)] else [];
      Refines(Handle(s, m, maximumHold, e).0, first, m, xs + more, maximumHold)
  {
    var end := if e.Observe? then e.sample.at else e.end;
    AdvanceIsValid(s, m, end);
    AdvanceRefines(s, first, m, xs, maximumHold, end);
    assert xs + [] == xs;
    if e.Observe? && s.cursor <= end { TakeRefines(Advance(s, m, end), first, m, xs, e.sample, maximumHold); }
  }

  /** Main result. Whatever samples and advances arrive, refused ones of either kind included, every day closed and
      the day in progress hold exactly the declarative sums over the samples as they count. */
  lemma {:induction false} RunIsTheSum(m: Midnights, date: int, start: Time, maximumHold: Time, es: seq<Event>)
    requires Calendar(m) && m(date) <= start < m(date + 1)
    ensures var s := Start(m, date, start);
      Refines(Run(s, m, maximumHold, es), date, m, Counted(s, m, maximumHold, es), maximumHold)
  {
    if es != [] {
      var front, e := es[..|es| - 1], es[|es| - 1];
      var s0 := Start(m, date, start);
      RunIsTheSum(m, date, start, maximumHold, front);
      EventRefines(Run(s0, m, maximumHold, front), date, m, Counted(s0, m, maximumHold, front), maximumHold, e);
    }
  }

  /** A sample refused for its hold is not wholly ignored: its value replaces the held one for the rest of the old hold.
      Up to any boundary within the day, the integral differs from never having seen the sample exactly when some of the
      old hold is still to come and the two values differ. */
  lemma RefusedHoldStillCounts(s: State, x: Sample, maximumHold: Time, boundary: Time)
    requires Carries(x) && HoldOf(x, maximumHold) <= 0 && s.cursor == x.at && HoldIsWhole(s)
    ensures Take(s, x, maximumHold).1.BadHold?
    ensures Cover(Take(s, x, maximumHold).0, boundary).day.integral != Cover(s, boundary).day.integral
        <==> s.value.Some? && s.holdUntil.Some? && s.cursor < MinT(boundary, s.holdUntil.value) && s.value != x.value
  {
    var span := Seconds(CoveredEnd(s, boundary) - s.cursor);
    if s.value.Some? && span > 0.0 && x.value != s.value { DifferentProducts(x.value.value, s.value.value, span); }
  }

  lemma DifferentProducts(a: real, b: real, k: real)
    requires a != b && k > 0.0
    ensures a * k != b * k
  {
    if a < b { WeightedStrict(a, b, k); } else { WeightedStrict(b, a, k); }
  }

  // ---- bounds ------------------------------------------------------------------------------------

  lemma {:induction false} CoverageFits(xs: seq<Sample>, maximumHold: Time, horizon: Time, from: Time, to: Time)
    requires Ordered(xs, horizon)
    ensures 0.0 <= Covered(xs, maximumHold, horizon, from, to) <= Seconds(MaxT(0, MinT(horizon, to) - from))
  {
    if xs != [] {
      var x := xs[|xs| - 1];
      CoverageFits(xs[..|xs| - 1], maximumHold, x.at, from, to);
      assert MaxT(0, MinT(x.at, to) - from) + Overlap(x.at, WindowEnd(x, horizon, maximumHold), from, to)
          <= MaxT(0, MinT(horizon, to) - from);
    }
  }

  ghost predicate ValuesWithin(xs: seq<Sample>, lo: real, hi: real) {
    forall k :: 0 <= k < |xs| && Carries(xs[k]) ==> lo <= xs[k].value.value <= hi
  }

  lemma WeightedBetween(v: real, lo: real, hi: real, k: real)
    requires lo <= v <= hi && k >= 0.0
    ensures lo * k <= v * k <= hi * k
  {
    assert (v - lo) * k >= 0.0 && (hi - v) * k >= 0.0;
  }

  lemma Distribute(a: real, c: real, k: real)
    ensures a * (c + k) == a * c + a * k
  {
  }

  lemma PartBetween(x: Sample, next: Time, maximumHold: Time, from: Time, to: Time, lo: real, hi: real)
    requires Carries(x) ==> lo <= x.value.value <= hi
    ensures var k := Share(x, next, maximumHold, from, to);
      lo * k <= Part(x, next, maximumHold, from, to) <= hi * k
  {
    if Carries(x) { WeightedBetween(x.value.value, lo, hi, Share(x, next, maximumHold, from, to)); }
  }

  /** The sum lies between the covered seconds weighed by the two bounds. */
  predicate Between(sum: real, c: real, lo: real, hi: real) { lo * c <= sum <= hi * c }

  lemma AppendedBetween(
    sum: real, c: real, x: Sample, next: Time, maximumHold: Time, from: Time, to: Time, lo: real, hi: real)
    requires Between(sum, c, lo, hi) && (Carries(x) ==> lo <= x.value.value <= hi)
    ensures Between(sum + Part(x, next, maximumHold, from, to), c + Share(x, next, maximumHold, from, to), lo, hi)
  {
    PartBetween(x, next, maximumHold, from, to, lo, hi);
    Distribute(lo, c, Share(x, next, maximumHold, from, to));
    Distribute(hi, c, Share(x, next, maximumHold, from, to));
  }

  lemma {:induction false} IntegralBetween(
    xs: seq<Sample>, maximumHold: Time, horizon: Time, from: Time, to: Time, lo: real, hi: real)
    requires ValuesWithin(xs, lo, hi)
    ensures Between(Integral(xs, maximumHold, horizon, from, to), Covered(xs, maximumHold, horizon, from, to), lo, hi)
  {
    if xs == [] {
    } else {
      var front, x := xs[..|xs| - 1], xs[|xs| - 1];
      IntegralBetween(front, maximumHold, x.at, from, to, lo, hi);
      AppendedBetween(Integral(front, maximumHold, x.at, from, to), Covered(front, maximumHold, x.at, from, to),
                      x, horizon, maximumHold, from, to, lo, hi);
    }
  }

  lemma MeanBetween(integral: real, covered: real, lo: real, hi: real)
    requires covered > 0.0 && Between(integral, covered, lo, hi)
    ensures lo <= integral / covered <= hi
  {
    var q := integral / covered;
    assert q * covered == integral;
    if q < lo { WeightedStrict(q, lo, covered); }
    if q > hi { WeightedStrict(hi, q, covered); }
  }

  lemma WeightedStrict(a: real, b: real, k: real)
    requires a < b && k > 0.0
    ensures a * k < b * k
  {
    assert (b - a) * k > 0.0;
  }

  /** A day is never covered for longer than it lasts, and its mean lies between the least and the greatest value. */
  ghost predicate Sane(d: Day, lo: real, hi: real) {
    && d.start < d.end && 0.0 <= d.covered <= Seconds(d.end - d.start)
    && (d.covered > 0.0 ==> lo <= d.integral / d.covered <= hi)
  }

  lemma DayIsSane(d: Day, date: int, m: Midnights, xs: seq<Sample>, maximumHold: Time, horizon: Time, lo: real,
      hi: real)
    requires Calendar(m) && DayIs(d, date, m, xs, maximumHold, horizon)
    requires Ordered(xs, horizon) && ValuesWithin(xs, lo, hi)
    ensures Sane(d, lo, hi)
  {
    assert d.start < d.end;
    CoverageFits(xs, maximumHold, horizon, d.start, d.end);
    IntegralBetween(xs, maximumHold, horizon, d.start, d.end, lo, hi);
    if d.covered > 0.0 { MeanBetween(d.integral, d.covered, lo, hi); }
  }

  ghost predicate AllSane(s: State, lo: real, hi: real) {
    Sane(s.day, lo, hi) && forall k :: 0 <= k < |s.done| ==> Sane(s.done[k], lo, hi)
  }

  lemma SumsAreSane(s: State, date: int, m: Midnights, xs: seq<Sample>, maximumHold: Time, lo: real, hi: real)
    requires Calendar(m) && Refines(s, date, m, xs, maximumHold) && ValuesWithin(xs, lo, hi)
    ensures AllSane(s, lo, hi)
  {
    DayIsSane(s.day, s.day.date, m, xs, maximumHold, s.cursor, lo, hi);
    forall k | 0 <= k < |s.done| ensures Sane(s.done[k], lo, hi) {
      DayIsSane(s.done[k], date + k, m, xs, maximumHold, s.cursor, lo, hi);
    }
  }

  lemma EveryDayIsSane(m: Midnights, date: int, start: Time, maximumHold: Time, es: seq<Event>, lo: real, hi: real)
    requires Calendar(m) && m(date) <= start < m(date + 1)
    requires ValuesWithin(Counted(Start(m, date, start), m, maximumHold, es), lo, hi)
    ensures AllSane(Run(Start(m, date, start), m, maximumHold, es), lo, hi)
  {
    var s, xs := Run(Start(m, date, start), m, maximumHold, es), Counted(Start(m, date, start), m, maximumHold, es);
    assert Refines(s, date, m, xs, maximumHold) by { RunIsTheSum(m, date, start, maximumHold, es); }
    SumsAreSane(s, date, m, xs, maximumHold, lo, hi);
  }

  // ---- splitting an advance ----------------------------------------------------------------------

  lemma AddTwice(d: Day, a: Time, b: Time, value: Option<real>)
    requires a >= 0 && b >= 0
    ensures Add(Add(d, a, value), b, value) == Add(d, a + b, value)
  {
    if value.Some? { SplitProduct(value.value, a, b); }
  }

  lemma CoverTwice(s: State, middle: Time, boundary: Time)
    requires s.cursor <= middle <= boundary
    ensures Cover(Cover(s, middle), boundary) == Cover(s, boundary)
  {
    var e, f := CoveredEnd(s, middle), CoveredEnd(s, boundary);
    AddTwice(s.day, e - s.cursor, f - e, s.value);
    if f <= middle { AddTwice(Add(s.day, f - s.cursor, s.value), middle - f, boundary - middle, None); }
  }

  /** Stopping anywhere on the way changes nothing at all, gaps included. */
  lemma {:induction false} AdvanceSplits(s: State, m: Midnights, middle: Time, end: Time)
    requires Calendar(m) && Valid(s, m) && middle <= end
    requires Valid(Advance(s, m, middle), m)
    ensures Advance(Advance(s, m, middle), m, end) == Advance(s, m, end)
    decreases end - s.cursor
  {
    if s.cursor < middle {
      PassIsValid(s, m, middle);
      PassIsValid(s, m, end);
      if s.day.end <= middle {
        AdvanceSplits(Pass(s, m, middle), m, middle, end);
      } else {
        CoverTwice(s, middle, MinT(end, s.day.end));
        assert Advance(s, m, middle) == Cover(s, middle);
        if middle < end { PassIsValid(Cover(s, middle), m, end); }
      }
    }
  }

  // ---- checkpoint and restore --------------------------------------------------------------------

  /** What is stored: the day's summary, the last valid observation with its hold, and the cursor. */
  datatype Checkpoint = Checkpoint(
    date: int, start: Time, end: Time, integral: real, covered: real, observations: nat, largestGap: real,
    provenance: string, last: Option<Sample>, cursor: Time)

  function LastValid(s: State): Option<Sample> {
    if s.value.None? || s.holdUntil.None? || s.observedAt.None? then None
    else Some(Sample(s.observedAt.value, s.value, true, false, s.holdLength, s.day.provenance))
  }

  function Save(s: State): Checkpoint {
    var d := s.day;
    Checkpoint(d.date, d.start, d.end, d.integral, d.covered, d.observations, d.largestGap, d.provenance,
               LastValid(s), s.cursor)
  }

  /** None when the stored day and cursor contradict each other. The cursor's local date is the date whose midnights
      enclose it. */
  function Restore(c: Checkpoint, m: Midnights, maximumHold: Time): Option<State> {
    if c.cursor < c.start || c.cursor > c.end || !(m(c.date) <= c.cursor < m(c.date + 1)) then None
    else
      var day := Day(c.date, c.start, c.end, c.integral, c.covered, c.observations, c.largestGap, 0.0, c.provenance);
      var idle := State(c.cursor, day, None, None, None, None, []);
      if c.last.None? || c.last.value.value.None? then Some(idle)
      else
        var hold := HoldOf(c.last.value, maximumHold);
        var until := c.last.value.at + hold;
        if until >= c.cursor then
          Some(State(c.cursor, day, c.last.value.value, Some(until), Some(c.last.value.at), Some(hold), []))
        else Some(idle.(day := day.(currentGap := Max(c.largestGap, Seconds(c.cursor - until)))))
  }

  predicate SameDay(a: Day, b: Day) {
    && a.date == b.date && a.start == b.start && a.end == b.end && a.integral == b.integral && a.covered == b.covered
    && a.observations == b.observations && a.provenance == b.provenance
  }

  /** Nothing is held any more, so no later boundary is covered. */
  predicate Spent(s: State) { s.holdUntil.None? || s.holdUntil.value <= s.cursor }

  /** Two integrators that differ only in gap bookkeeping, in an expired hold, and in the first `n` days already
      closed. */
  ghost predicate Twins(s: State, t: State, n: nat) {
    && s.cursor == t.cursor && SameDay(s.day, t.day)
    && ((s.value == t.value && s.holdUntil == t.holdUntil) || (Spent(s) && Spent(t)))
    && |s.done| == n + |t.done|
    && forall k :: 0 <= k < |t.done| ==> SameDay(s.done[n + k], t.done[k])
  }

  lemma TwinsPass(s: State, t: State, n: nat, m: Midnights, end: Time)
    requires Calendar(m) && Valid(s, m) && Valid(t, m) && Twins(s, t, n) && s.cursor < end
    ensures Twins(Pass(s, m, end), Pass(t, m, end), n)
  {
    var boundary := MinT(end, s.day.end);
    assert CoveredEnd(s, boundary) == CoveredEnd(t, boundary);
    assert SameDay(Cover(s, boundary).day, Cover(t, boundary).day);
  }

  lemma {:induction false} TwinsAdvance(s: State, t: State, n: nat, m: Midnights, end: Time)
    requires Calendar(m) && Valid(s, m) && Valid(t, m) && Twins(s, t, n)
    ensures Twins(Advance(s, m, end), Advance(t, m, end), n)
    decreases end - s.cursor
  {
    if s.cursor < end {
      PassIsValid(s, m, end);
      PassIsValid(t, m, end);
      TwinsPass(s, t, n, m, end);
      TwinsAdvance(Pass(s, m, end), Pass(t, m, end), n, m, end);
    }
  }

  lemma TwinsHandle(s: State, t: State, n: nat, m: Midnights, maximumHold: Time, e: Event)
    requires Calendar(m) && Valid(s, m) && Valid(t, m) && Twins(s, t, n)
    ensures Twins(Handle(s, m, maximumHold, e).0, Handle(t, m, maximumHold, e).0, n)
    ensures Handle(s, m, maximumHold, e).1 == Handle(t, m, maximumHold, e).1
  {
    var end := if e.Observe? then e.sample.at else e.end;
    TwinsAdvance(s, t, n, m, end);
  }

  lemma {:induction false} TwinsRun(s: State, t: State, n: nat, m: Midnights, maximumHold: Time, es: seq<Event>)
    requires Calendar(m) && Valid(s, m) && Valid(t, m) && Twins(s, t, n)
    ensures Twins(Run(s, m, maximumHold, es), Run(t, m, maximumHold, es), n)
  {
    if es != [] {
      var front := es[..|es| - 1];
      TwinsRun(s, t, n, m, maximumHold, front);
      TwinsHandle(Run(s, m, maximumHold, front), Run(t, m, maximumHold, front), n, m, maximumHold, es[|es| - 1]);
    }
  }

  lemma HandleKeepsHoldWhole(s: State, m: Midnights, maximumHold: Time, e: Event)
    requires Calendar(m) && Valid(s, m) && HoldIsWhole(s)
    ensures HoldIsWhole(Handle(s, m, maximumHold, e).0)
  {
    AdvanceIsValid(s, m, if e.Observe? then e.sample.at else e.end);
  }

  lemma {:induction false} RunKeepsHoldWhole(s: State, m: Midnights, maximumHold: Time, es: seq<Event>)
    requires Calendar(m) && Valid(s, m) && HoldIsWhole(s)
    ensures HoldIsWhole(Run(s, m, maximumHold, es))
  {
    if es != [] {
      var front, e := es[..|es| - 1], es[|es| - 1];
      RunKeepsHoldWhole(s, m, maximumHold, front);
      HandleKeepsHoldWhole(Run(s, m, maximumHold, front), m, maximumHold, e);
    }
  }

  /** Main result. Stopping anywhere in a run and restoring from the checkpoint always succeeds, and whatever follows,
      the restored integrator closes the same days with the same sums, coverage, observation counts and midnights as one
      that never stopped, and refuses the same events. */
  lemma RestartIsInvisible(
    m: Midnights, date: int, start: Time, maximumHold: Time, before: seq<Event>, after: seq<Event>, next: Event)
    requires Calendar(m) && m(date) <= start < m(date + 1)
    ensures var s := Run(Start(m, date, start), m, maximumHold, before);
      var t := Restore(Save(s), m, maximumHold);
      && t.Some? && Valid(t.value, m) && HoldIsWhole(t.value)
      && var kept, restored := Run(s, m, maximumHold, after), Run(t.value, m, maximumHold, after);
      && Twins(kept, restored, |s.done|)
      && Handle(kept, m, maximumHold, next).1 == Handle(restored, m, maximumHold, next).1
  {
    var s := Run(Start(m, date, start), m, maximumHold, before);
    RunKeepsHoldWhole(Start(m, date, start), m, maximumHold, before);
    RestoredIsTwin(s, m, maximumHold);
    var t := Restore(Save(s), m, maximumHold).value;
    TwinsRun(s, t, |s.done|, m, maximumHold, after);
    TwinsHandle(Run(s, m, maximumHold, after), Run(t, m, maximumHold, after), |s.done|, m, maximumHold, next);
  }

  lemma RestoredIsTwin(s: State, m: Midnights, maximumHold: Time)
    requires Calendar(m) && Valid(s, m) && HoldIsWhole(s)
    ensures var t := Restore(Save(s), m, maximumHold);
      t.Some? && Valid(t.value, m) && HoldIsWhole(t.value) && Twins(s, t.value, |s.done|)
  {
  }
}
