/** The gaps of a day, and what a sample, a start and a restore do to what is held. */
module HistoryLaw {
  import opened Contracts
  import opened History

  // ---- gaps --------------------------------------------------------------------------------------

  /** Covered time ends a gap and adds to the integral; uncovered time makes the gap longer, and the longest one is
      kept. */
  lemma GapExactly(d: Day, span: Time, value: Option<real>)
    ensures var t := Add(d, span, value);
      && t == d.(currentGap := t.currentGap, largestGap := t.largestGap, integral := t.integral, covered := t.covered)
      && (span <= 0 ==> t == d)
      && (span > 0 && value.Some? ==>
            && t.currentGap == 0.0 && t.largestGap == d.largestGap && t.covered - d.covered == span as real / 1_000_000.0
            && t.integral - d.integral == value.value * (span as real / 1_000_000.0))
      && (span > 0 && value.None? ==>
            && t.currentGap - d.currentGap == span as real / 1_000_000.0
            && t.largestGap >= d.largestGap && t.largestGap >= t.currentGap
            && (t.largestGap == d.largestGap || t.largestGap == t.currentGap)
            && t.covered == d.covered && t.integral == d.integral)
  {
  }

  /** The gap in progress is no longer than the longest one, which together with what is covered fits into the time gone
      by. */
  predicate GapsFit(d: Day, upTo: Time) {
    0.0 <= d.currentGap <= d.largestGap && 0.0 <= d.covered && d.covered + d.largestGap <= Seconds(upTo - d.start)
  }

  lemma AddFits(d: Day, span: Time, value: Option<real>, upTo: Time)
    requires GapsFit(d, upTo) && span >= 0
    ensures GapsFit(Add(d, span, value), upTo + span)
  {
  }

  ghost predicate AllFit(s: State) {
    GapsFit(s.day, s.cursor) && forall k :: 0 <= k < |s.done| ==> GapsFit(s.done[k], s.done[k].end)
  }

  lemma CoverFits(s: State, boundary: Time)
    requires AllFit(s) && s.cursor <= boundary
    ensures AllFit(Cover(s, boundary))
  {
    var e := CoveredEnd(s, boundary);
    AddFits(s.day, e - s.cursor, s.value, s.cursor);
    AddFits(Add(s.day, e - s.cursor, s.value), boundary - e, None, e);
  }

  lemma {:induction false} AdvanceFits(s: State, m: Midnights, end: Time)
    requires Calendar(m) && Valid(s, m) && AllFit(s)
    ensures AllFit(Advance(s, m, end))
    decreases end - s.cursor
  {
    if s.cursor < end {
      PassIsValid(s, m, end);
      CoverFits(s, MinT(end, s.day.end));
      AdvanceFits(Pass(s, m, end), m, end);
    }
  }

  lemma HandleFits(s: State, m: Midnights, maximumHold: Time, e: Event)
    requires Calendar(m) && Valid(s, m) && AllFit(s)
    ensures AllFit(Handle(s, m, maximumHold, e).0)
  {
    AdvanceFits(s, m, if e.Observe? then e.sample.at else e.end);
  }

  lemma {:induction false} RunFits(s: State, m: Midnights, maximumHold: Time, es: seq<Event>)
    requires Calendar(m) && Valid(s, m) && AllFit(s)
    ensures AllFit(Run(s, m, maximumHold, es))
  {
    if es != [] {
      RunFits(s, m, maximumHold, es[..|es| - 1]);
      HandleFits(Run(s, m, maximumHold, es[..|es| - 1]), m, maximumHold, es[|es| - 1]);
    }
  }

  /** A first day begins with the gap since its midnight. */
  lemma StartsWithGap(m: Midnights, date: int, start: Time)
    requires m(date) <= start
    ensures var s := Start(m, date, start);
      && s.cursor == start && s.day.date == date && s.day.start == m(date) && s.day.end == m(date + 1)
      && s.day.largestGap == s.day.currentGap == Seconds(start - m(date)) && s.day.covered == 0.0 && s.day.integral == 0.0
      && s.day.observations == 0 && s.value.None? && s.holdUntil.None? && s.observedAt.None? && s.done == []
  {
  }

  /** Main result on gaps: in every day of every run, closed or in progress, the longest gap and the covered time fit
      into the time gone by. */
  lemma GapsAlwaysFit(m: Midnights, date: int, start: Time, maximumHold: Time, es: seq<Event>)
    requires Calendar(m) && m(date) <= start < m(date + 1)
    ensures AllFit(Run(Start(m, date, start), m, maximumHold, es))
  {
    StartsWithGap(m, date, start);
    RunFits(Start(m, date, start), m, maximumHold, es);
  }

  // ---- samples -----------------------------------------------------------------------------------

  /** Which events are refused: those before the cursor, which change nothing, and usable samples whose hold is not
      positive. */
  lemma RefusedExactly(s: State, m: Midnights, maximumHold: Time, e: Event)
    requires Calendar(m) && Valid(s, m)
    ensures var (t, verdict) := Handle(s, m, maximumHold, e);
      var at := if e.Observe? then e.sample.at else e.end;
      && (verdict.OutOfOrder? <==> at < s.cursor) && (verdict.OutOfOrder? ==> t == s)
      && (verdict.BadHold? <==>
            at >= s.cursor && e.Observe? && e.sample.valid && e.sample.value.Some?
            && (match e.sample.hold case Some(hold) => hold case None => maximumHold) <= 0)
  {
  }

  /** What is held after a sample: its value for its own hold, or the longest allowed; nothing, and no expiry, after
      one that is not usable. */
  lemma HeldExactly(s: State, x: Sample, maximumHold: Time)
    ensures var t := Take(s, x, maximumHold).0;
      var hold := match x.hold case Some(hold) => hold case None => maximumHold;
      && (!x.valid || x.value.None? ==>
            t == s.(value := None, holdUntil := None, observedAt := None, holdLength := None))
      && (x.valid && x.value.Some? && hold > 0 ==>
            && t.value == x.value && t.holdUntil == Some(x.at + hold) && t.observedAt == Some(x.at)
            && t.holdLength == Some(hold) && t.day.provenance == x.provenance
            && t.day.observations == s.day.observations + (if x.synthetic then 0 else 1))
      && (x.valid && x.value.Some? && hold <= 0 ==> t == s.(value := x.value))
  {
  }

  // ---- checkpoints -------------------------------------------------------------------------------

  /** A checkpoint keeps the day, the cursor and the last usable sample with its own hold. */
  lemma SavedExactly(s: State)
    ensures var c := Save(s);
      && c.date == s.day.date && c.start == s.day.start && c.end == s.day.end && c.integral == s.day.integral
      && c.covered == s.day.covered && c.observations == s.day.observations && c.largestGap == s.day.largestGap
      && c.provenance == s.day.provenance && c.cursor == s.cursor
      && (c.last.Some? <==> s.value.Some? && s.holdUntil.Some? && s.observedAt.Some?)
      && (c.last.Some? ==> c.last.value.at == s.observedAt.value && c.last.value.value == s.value && c.last.value.valid
                           && c.last.value.hold == s.holdLength && !c.last.value.synthetic)
  {
  }

  /** A checkpoint that contradicts its own day or the calendar is refused; any other one is taken up with its hold if
      that still runs, and otherwise with the gap since it ran out. */
  lemma RestoredExactly(c: Checkpoint, m: Midnights, maximumHold: Time)
    ensures var r := Restore(c, m, maximumHold);
      && (r.None? <==> c.cursor < c.start || c.cursor > c.end || c.cursor < m(c.date) || c.cursor >= m(c.date + 1))
      && (r.Some? ==>
            && r.value.cursor == c.cursor && r.value.done == [] && r.value.day.date == c.date
            && r.value.day.start == c.start && r.value.day.end == c.end && r.value.day.integral == c.integral
            && r.value.day.covered == c.covered && r.value.day.observations == c.observations
            && r.value.day.largestGap == c.largestGap && r.value.day.provenance == c.provenance)
      && (r.Some? && c.last.Some? && c.last.value.value.Some? ==>
            var hold := match c.last.value.hold case Some(hold) => hold case None => maximumHold;
            var until := c.last.value.at + hold;
            if until >= c.cursor then
              && r.value.value == c.last.value.value && r.value.holdUntil == Some(until)
              && r.value.observedAt == Some(c.last.value.at) && r.value.holdLength == Some(hold)
              && r.value.day.currentGap == 0.0
            else
              && r.value.value.None? && r.value.holdUntil.None? && r.value.observedAt.None? && r.value.holdLength.None?
              && r.value.day.currentGap == Max(c.largestGap, (c.cursor - until) as real / 1_000_000.0))
      && (r.Some? && (c.last.None? || c.last.value.value.None?) ==>
            && r.value.value.None? && r.value.holdUntil.None? && r.value.observedAt.None? && r.value.holdLength.None?
            && r.value.day.currentGap == 0.0)
  {
  }
}
