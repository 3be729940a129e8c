/** The integrator as the program keeps it: fields updated in place, and a loop that walks midnight by midnight. */
module HistoryIntegrator {
  import opened Contracts
  import opened History

  class Accumulator {
    var date: int
    var start: Time
    var end: Time
    var integral: real
    var covered: real
    var observations: nat
    var largestGap: real
    var currentGap: real
    var provenance: string

    constructor (midnights: Midnights, date: int)
      ensures View() == NewDay(midnights, date)
    {
      this.date, start, end := date, midnights(date), midnights(date + 1);
      integral, covered, observations, largestGap, currentGap, provenance := 0.0, 0.0, 0, 0.0, 0.0, "measured";
    }

    ghost function View(): Day
      reads this
    {
      Day(date, start, end, integral, covered, observations, largestGap, currentGap, provenance)
    }

    method AddSpan(span: Time, value: Option<real>)
      modifies this
      ensures View() == Add(old(View()), span, value)
    {
      if span <= 0 { return; }
      if value.None? {
        currentGap := currentGap + Seconds(span);
        largestGap := Max(largestGap, currentGap);
      } else {
        currentGap := 0.0;
        integral := integral + value.value * Seconds(span);
        covered := covered + Seconds(span);
      }
    }

    method Summary() returns (d: Day)
      ensures d == View()
    {
      d := Day(date, start, end, integral, covered, observations, largestGap, currentGap, provenance);
    }
  }

  class DailyHistoryIntegrator {
    const midnights: Midnights
    const maximumHold: Time
    var cursor: Time
    var accumulator: Accumulator
    var lastValue: Option<real>
    var holdUntil: Option<Time>
    var lastObservedAt: Option<Time>
    var lastHold: Option<Time>
    var summaries: seq<Day>

    ghost function View(): State
      reads this, accumulator
    {
      State(cursor, accumulator.View(), lastValue, holdUntil, lastObservedAt, lastHold, summaries)
    }

    ghost predicate Ready()
      reads this, accumulator
    {
      Calendar(midnights) && Valid(View(), midnights)
    }

    constructor (midnights: Midnights, maximumHold: Time, date: int, start: Time)
      requires Calendar(midnights) && midnights(date) <= start < midnights(date + 1)
      ensures this.midnights == midnights && this.maximumHold == maximumHold
      ensures Ready() && View() == Start(midnights, date, start) && fresh(accumulator)
    {
      this.midnights, this.maximumHold := midnights, maximumHold;
      cursor := start;
      accumulator := new Accumulator(midnights, date);
      lastValue, holdUntil, lastObservedAt, lastHold, summaries := None, None, None, None, [];
      new;
      accumulator.AddSpan(start - midnights(date), None);
    }

    /** Integrate what the held value covers up to a boundary, and the rest of the way as a gap. */
    method CoverTo(boundary: Time)
      modifies this, accumulator
      ensures View() == Cover(old(View()), boundary) && accumulator == old(accumulator)
    {
      var coveredEnd := boundary;
      if lastValue.None? || holdUntil.None? {
        coveredEnd := cursor;
      } else {
        coveredEnd := MaxT(cursor, MinT(boundary, holdUntil.value));
      }
      if coveredEnd > cursor { accumulator.AddSpan(coveredEnd - cursor, lastValue); }
      if boundary > coveredEnd { accumulator.AddSpan(boundary - coveredEnd, None); }
      cursor := boundary;
    }

    /** At midnight, keep the day's summary and start the next day. */
    method CloseDayAtMidnight()
      modifies this
      ensures View() == Roll(old(View()), midnights)
      ensures accumulator == old(accumulator) || fresh(accumulator)
    {
      if cursor == accumulator.end {
        var closed := accumulator.Summary();
        summaries := summaries + [closed];
        accumulator := new Accumulator(midnights, accumulator.date + 1);
      }
    }

    method AdvanceSegment(end: Time)
      requires Ready()
      modifies this, accumulator
      ensures Ready() && View() == Advance(old(View()), midnights, end)
      ensures accumulator == old(accumulator) || fresh(accumulator)
    {
      while cursor < end
        invariant Ready()
        invariant Advance(View(), midnights, end) == Advance(old(View()), midnights, end)
        invariant accumulator == old(accumulator) || fresh(accumulator)
        decreases end - cursor
      {
        PassIsValid(View(), midnights, end);
        CoverTo(MinT(end, accumulator.end));
        CloseDayAtMidnight();
      }
    }

    /** The second half of adding a sample, once the integral has reached its timestamp. */
    method Adopt(x: Sample) returns (verdict: Verdict)
      modifies this, accumulator
      ensures accumulator == old(accumulator) && (View(), verdict) == Take(old(View()), x, maximumHold)
    {
      if x.valid && x.value.Some? {
        lastValue := x.value;
        var hold := if x.hold.None? then maximumHold else x.hold.value;
        if hold <= 0 { return BadHold; }
        holdUntil, lastObservedAt, lastHold := Some(x.at + hold), Some(x.at), Some(hold);
        if !x.synthetic { accumulator.observations := accumulator.observations + 1; }
        accumulator.provenance := x.provenance;
      } else {
        lastValue, holdUntil, lastObservedAt, lastHold := None, None, None, None;
      }
      return Accepted;
    }

    method AddSample(x: Sample) returns (verdict: Verdict)
      requires Ready()
      modifies this, accumulator
      ensures Ready() && (View(), verdict) == Handle(old(View()), midnights, maximumHold, Observe(x))
      ensures accumulator == old(accumulator) || fresh(accumulator)
    {
      HandleIsValid(View(), midnights, maximumHold, Observe(x));
      if x.at < cursor { return OutOfOrder; }
      AdvanceSegment(x.at);
      verdict := Adopt(x);
    }

    method AdvanceTo(end: Time) returns (verdict: Verdict)
      requires Ready()
      modifies this, accumulator
      ensures Ready() && (View(), verdict) == Handle(old(View()), midnights, maximumHold, History.AdvanceTo(end))
      ensures accumulator == old(accumulator) || fresh(accumulator)
    {
      if end < cursor { return OutOfOrder; }
      AdvanceSegment(end);
      return Accepted;
    }
  }
}
