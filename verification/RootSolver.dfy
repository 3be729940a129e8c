/** The solver as it runs: a shared mutable budget, the sampling loop and the bisection loop. */
module RootSolver {
  import opened Contracts
  import opened Inverse

  class EvaluationBudget {
    const limit: nat
    var used: nat

    constructor (limit: nat)
      ensures this.limit == limit && used == 0
    {
      this.limit := limit;
      used := 0;
    }

    method Consume() returns (ok: bool)
      modifies this
      ensures ok <==> old(used) < limit
      ensures used == old(used) + (if ok then 1 else 0)
    {
      if used >= limit { return false; }
      used := used + 1;
      ok := true;
    }

    method Try(e: Evaluator, x: real, ghost halvings: nat) returns (c: Candidate)
      modifies this
      ensures (c, used) == Evaluate(e, Limits(limit, halvings), old(used), x)
    {
      var ok := Consume();
      c := if ok then e(x) else Missed(BudgetExceeded);
    }
  }

  method FinishRoot(e: Evaluator, b: EvaluationBudget, vote: real, x: real, width: real, ghost halvings: nat)
      returns (r: Root)
    modifies b
    ensures r == Finish(e, Limits(b.limit, halvings), old(b.used), vote, x, width) && b.used == r.used
  {
    var c := b.Try(e, x, halvings);
    if c.Missed? { return Unsolved(c.code, b.used); }
    if width > WIDTH_TOLERANCE || Abs(c.point.vote - vote) > RESIDUAL_TOLERANCE {
      return Unsolved(IterationLimit, b.used);
    }
    r := Solved(c.point.room, c.point.local, c.point.vote - vote, width, b.used);
  }

  /** The bisection loop, from the bracket it is given. */
  method BisectRoot(e: Evaluator, b: EvaluationBudget, vote: real, first: Point, second: Point, halvings: nat)
      returns (r: Root)
    modifies b
    ensures var l := Limits(b.limit, halvings);
      r == (match Bisect(e, l, old(b.used), vote, first, second, 0)
            case Stopped(code, u) => Unsolved(code, u)
            case Narrowed(left, right, u) => Finish(e, l, u, vote, Middle(left, right), right.room - left.room))
    ensures b.used == r.used
  {
    ghost var l := Limits(b.limit, halvings);
    var left, right, k := first, second, 0;
    while right.room - left.room > WIDTH_TOLERANCE
      invariant k <= halvings
      invariant Bisect(e, l, b.used, vote, left, right, k) == Bisect(e, l, old(b.used), vote, first, second, 0)
      decreases halvings - k
    {
      if k >= halvings { return Unsolved(IterationLimit, b.used); }
      var m := b.Try(e, Middle(left, right), halvings);
      if m.Missed? { return Unsolved(m.code, b.used); }
      if m.point.vote < vote { left := m.point; }
      else if m.point.vote > vote { right := m.point; }
      else { left, right := m.point, m.point; }
      k := k + 1;
    }
    r := FinishRoot(e, b, vote, Middle(left, right), right.room - left.room, halvings);
  }

  method SolveOneRoot(e: Evaluator, b: EvaluationBudget, vote: real, s: seq<Point>, moist: bool) returns (r: Root)
    requires s != []
    modifies b
    ensures r == SolveWithin(e, Limits(b.limit, ZONE_LIMITS.halvings), old(b.used), vote, s, moist)
    ensures b.used == r.used
  {
    if b.used >= b.limit { return Unsolved(BudgetExceeded, b.used); }
    var exact := ExactIn(s, vote, |s|);
    var brackets := BracketsIn(s, vote, |s| - 1);
    if exact != [] {
      if |exact| > 1 || brackets != [] { return Unsolved(MultipleBrackets, b.used); }
      assert exact[0] in exact;
      r := FinishRoot(e, b, vote, s[exact[0]].room, 0.0, ZONE_LIMITS.halvings);
    } else if |brackets| > 1 {
      r := Unsolved(MultipleBrackets, b.used);
    } else if brackets == [] {
      r := Unsolved(NoBracketCode(s, vote, moist), b.used);
    } else {
      assert brackets[0] in brackets;
      r := BisectRoot(e, b, vote, s[brackets[0]], s[brackets[0] + 1], ZONE_LIMITS.halvings);
    }
  }

  /** The whole solve: empty interval, scan, monotonicity screen, then the five votes in order. */
  method SolveRequestedRoots(e: Evaluator, b: EvaluationBudget, v: Votes, low: real, high: real, moist: bool)
      returns (r: Roots)
    modifies b
    ensures (r, b.used) == Solve(e, Limits(b.limit, ZONE_LIMITS.halvings), old(b.used), v, low, high, moist)
  {
    if low >= high { return AllFail(OutsideDomain, b.used); }
    ghost var l := Limits(b.limit, ZONE_LIMITS.halvings);
    var step := SearchStep(low, high);
    var s: seq<Point> := [];
    for k := 0 to SAMPLE_COUNT
      invariant ScanFrom(e, l, old(b.used), low, step, k) == Scanned(s, b.used)
    {
      ghost var before := b.used;
      var c := b.Try(e, Place(low, step, k), ZONE_LIMITS.halvings);
      ScanNext(e, l, old(b.used), low, step, k, s, before, c, b.used);
      if c.Missed? {
        ScanStaysFailed(e, l, old(b.used), low, step, k + 1, SAMPLE_COUNT);
        return AllFail(c.code, b.used);
      }
      s := s + [c.point];
    }
    if Decreases(s) { return AllFail(NonMonotonic, b.used); }
    var r1 := SolveOneRoot(e, b, v.lower, s, moist);
    var r2 := SolveOneRoot(e, b, v.heating, s, moist);
    var r3 := SolveOneRoot(e, b, v.neutral, s, moist);
    var r4 := SolveOneRoot(e, b, v.cooling, s, moist);
    var r5 := SolveOneRoot(e, b, v.upper, s, moist);
    r := Roots(r1, r2, r3, r4, r5);
  }

  lemma ScanNext(e: Evaluator, l: Limits, used: nat, low: real, step: real, k: nat,
                 s: seq<Point>, before: nat, c: Candidate, after: nat)
    requires ScanFrom(e, l, used, low, step, k) == Scanned(s, before)
    requires Evaluate(e, l, before, Place(low, step, k)) == (c, after)
    ensures ScanFrom(e, l, used, low, step, k + 1) ==
      match c case Missed(code) => ScanFailed(code, after) case Found(p) => Scanned(s + [p], after)
  {
  }

  lemma {:induction false} ScanStaysFailed(e: Evaluator, l: Limits, used: nat, low: real, step: real, k: nat, n: nat)
    requires k <= n && ScanFrom(e, l, used, low, step, k).ScanFailed?
    ensures ScanFrom(e, l, used, low, step, n) == ScanFrom(e, l, used, low, step, k)
  {
    if k < n { ScanStaysFailed(e, l, used, low, step, k, n - 1); }
  }
}
