/** The inverse solver: a shared 33-point scan, one bisection per vote, one evaluation budget.
    The forward comfort model is any deterministic evaluator. */
module Inverse {
  import opened Contracts

  const SAMPLE_COUNT: nat := 33
  const DECREASE_TOLERANCE := 0.0001
  const WIDTH_TOLERANCE := 0.005
  const RESIDUAL_TOLERANCE := 0.002

  datatype Code =
    | BelowSearchDomain | AboveSearchDomain | MoistureLimited | NoBracket | MultipleBrackets | NonMonotonic
    | IterationLimit | BudgetExceeded | OutsideDomain | NotFinite | HeatBalance

  datatype Point = Point(room: real, local: real, vote: real)

  datatype Candidate = Found(point: Point) | Missed(code: Code)

  type Evaluator = real -> Candidate

  datatype Root = Solved(room: real, local: real, residual: real, width: real, used: nat) | Unsolved(code: Code, used: nat)

  datatype Votes = Votes(lower: real, heating: real, neutral: real, cooling: real, upper: real)

  datatype Roots = Roots(lower: Root, heating: Root, neutral: Root, cooling: Root, upper: Root)

  /** Caps on the evaluations of a zone and on the halvings of a root. */
  datatype Limits = Limits(budget: nat, halvings: nat)

  const ZONE_LIMITS := Limits(3000, 48)

  datatype Strategy = Eco | Efficient | Balanced | Comfort | NearNeutral

  function Fraction(s: Strategy): real {
    match s case Eco => 0.1 case Efficient => 0.3 case Balanced => 0.5 case Comfort => 0.7 case NearNeutral => 0.9
  }

  function StrategyVotes(s: Strategy, lower: real, upper: real): Option<Votes> {
    if !(lower < 0.0 < upper) then None
    else Some(Votes(lower, lower + Fraction(s) * (0.0 - lower), 0.0, upper + Fraction(s) * (0.0 - upper), upper))
  }

  predicate Increasing(v: Votes) { v.lower < v.heating < v.neutral < v.cooling < v.upper }

  /** Every strategy keeps the five votes strictly apart. */
  lemma StrategyVotesIncrease(s: Strategy, lower: real, upper: real)
    ensures StrategyVotes(s, lower, upper).Some? <==> lower < 0.0 < upper
    ensures lower < 0.0 < upper ==> Increasing(StrategyVotes(s, lower, upper).value)
  {
  }

  function Evaluate(e: Evaluator, l: Limits, used: nat, x: real): (Candidate, nat) {
    if used >= l.budget then (Missed(BudgetExceeded), used) else (e(x), used + 1)
  }

  /** Where the k-th sample is taken. */
  function Place(low: real, step: real, k: int): real { low + k as real * step }

  datatype Scan = Scanned(samples: seq<Point>, used: nat) | ScanFailed(code: Code, used: nat)

  function ScanFrom(e: Evaluator, l: Limits, used: nat, low: real, step: real, n: nat): (r: Scan)
    ensures r.Scanned? ==> |r.samples| == n
  {
    if n == 0 then Scanned([], used)
    else
      match ScanFrom(e, l, used, low, step, n - 1)
      case ScanFailed(code, u) => ScanFailed(code, u)
      case Scanned(samples, u) =>
        match Evaluate(e, l, u, Place(low, step, n - 1))
        case (Missed(code), u') => ScanFailed(code, u')
        case (Found(p), u') => Scanned(samples + [p], u')
  }

  predicate Brackets(s: seq<Point>, vote: real, k: int) {
    0 <= k < |s| - 1 && (s[k].vote - vote) * (s[k + 1].vote - vote) < 0.0
  }

  /** Indices of the samples that hit a vote exactly, and of the adjacent pairs that change sign around it. */
  function ExactIn(s: seq<Point>, vote: real, n: nat): (r: seq<nat>)
    requires n <= |s|
    ensures forall k :: k in r <==> 0 <= k < n && s[k].vote == vote
  {
    if n == 0 then []
    else ExactIn(s, vote, n - 1) + (if s[n - 1].vote == vote then [n - 1] else [])
  }

  function BracketsIn(s: seq<Point>, vote: real, n: nat): (r: seq<nat>)
    ensures forall k :: k in r <==> 0 <= k < n && Brackets(s, vote, k)
  {
    if n == 0 then []
    else BracketsIn(s, vote, n - 1) + (if Brackets(s, vote, n - 1) then [n - 1] else [])
  }

  datatype Bisected = Narrowed(left: Point, right: Point, used: nat) | Stopped(code: Code, used: nat)

  function Middle(left: Point, right: Point): real { (left.room + right.room) / 2.0 }

  function Bisect(e: Evaluator, l: Limits, used: nat, vote: real, left: Point, right: Point, k: nat): Bisected
    requires k <= l.halvings
    decreases l.halvings - k
  {
    if right.room - left.room <= WIDTH_TOLERANCE then Narrowed(left, right, used)
    else if k >= l.halvings then Stopped(IterationLimit, used)
    else
      match Evaluate(e, l, used, Middle(left, right))
      case (Missed(code), u) => Stopped(code, u)
      case (Found(m), u) =>
        if m.vote < vote then Bisect(e, l, u, vote, m, right, k + 1)
        else if m.vote > vote then Bisect(e, l, u, vote, left, m, k + 1)
        else Bisect(e, l, u, vote, m, m, k + 1)
  }

  function Finish(e: Evaluator, l: Limits, used: nat, vote: real, x: real, width: real): Root {
    match Evaluate(e, l, used, x)
    case (Missed(code), u) => Unsolved(code, u)
    case (Found(p), u) =>
      if width > WIDTH_TOLERANCE || Abs(p.vote - vote) > RESIDUAL_TOLERANCE then Unsolved(IterationLimit, u)
      else Solved(p.room, p.local, p.vote - vote, width, u)
  }

  function NoBracketCode(s: seq<Point>, vote: real, moist: bool): Code
    requires s != []
  {
    if vote < s[0].vote then if moist then MoistureLimited else BelowSearchDomain
    else if vote > s[|s| - 1].vote then AboveSearchDomain
    else NoBracket
  }

  function SolveOne(e: Evaluator, l: Limits, used: nat, vote: real, s: seq<Point>, moist: bool): Root
    requires s != []
  {
    var exact := ExactIn(s, vote, |s|);
    var brackets := BracketsIn(s, vote, |s| - 1);
    if exact != [] then
      assert exact[0] in exact;
      if |exact| > 1 || brackets != [] then Unsolved(MultipleBrackets, used)
      else Finish(e, l, used, vote, s[exact[0]].room, 0.0)
    else if |brackets| > 1 then Unsolved(MultipleBrackets, used)
    else if brackets == [] then Unsolved(NoBracketCode(s, vote, moist), used)
    else
      assert brackets[0] in brackets;
      match Bisect(e, l, used, vote, s[brackets[0]], s[brackets[0] + 1], 0)
      case Stopped(code, u) => Unsolved(code, u)
      case Narrowed(left, right, u) => Finish(e, l, u, vote, Middle(left, right), right.room - left.room)
  }

  function SolveWithin(e: Evaluator, l: Limits, used: nat, vote: real, s: seq<Point>, moist: bool): Root
    requires s != []
  {
    if used >= l.budget then Unsolved(BudgetExceeded, used) else SolveOne(e, l, used, vote, s, moist)
  }

  function AllFail(code: Code, used: nat): Roots {
    var f := Unsolved(code, used);
    Roots(f, f, f, f, f)
  }

  predicate Decreases(s: seq<Point>) {
    exists k | 0 <= k < |s| - 1 :: s[k + 1].vote < s[k].vote - DECREASE_TOLERANCE
  }

  function SearchStep(low: real, high: real): real { (high - low) / (SAMPLE_COUNT - 1) as real }

  function SolveFive(e: Evaluator, l: Limits, used: nat, v: Votes, s: seq<Point>, moist: bool): (Roots, nat)
    requires s != []
  {
    var r1 := SolveWithin(e, l, used, v.lower, s, moist);
    var r2 := SolveWithin(e, l, r1.used, v.heating, s, moist);
    var r3 := SolveWithin(e, l, r2.used, v.neutral, s, moist);
    var r4 := SolveWithin(e, l, r3.used, v.cooling, s, moist);
    var r5 := SolveWithin(e, l, r4.used, v.upper, s, moist);
    (Roots(r1, r2, r3, r4, r5), r5.used)
  }

  function Solve(e: Evaluator, l: Limits, used: nat, v: Votes, low: real, high: real, moist: bool): (Roots, nat) {
    if low >= high then (AllFail(OutsideDomain, used), used)
    else
      match ScanFrom(e, l, used, low, SearchStep(low, high), SAMPLE_COUNT)
      case ScanFailed(code, u) => (AllFail(code, u), u)
      case Scanned(s, u) =>
        if Decreases(s) then (AllFail(NonMonotonic, u), u) else SolveFive(e, l, u, v, s, moist)
  }

  // ---- order -------------------------------------------------------------------------------------

  /** Evaluations report the temperature they were asked about. */
  ghost predicate Echoes(e: Evaluator) {
    forall x :: e(x).Found? ==> e(x).point.room == x
  }

  ghost predicate Nondecreasing(e: Evaluator) {
    forall x, y :: x <= y && e(x).Found? && e(y).Found? ==> e(x).point.vote <= e(y).point.vote
  }

  lemma {:induction false} BisectStaysInside(e: Evaluator, l: Limits, used: nat, vote: real, left: Point,
      right: Point, k: nat)
    requires k <= l.halvings && Echoes(e) && left.room <= right.room
    requires Bisect(e, l, used, vote, left, right, k).Narrowed?
    ensures var b := Bisect(e, l, used, vote, left, right, k);
      left.room <= b.left.room <= b.right.room <= right.room && b.right.room - b.left.room <= WIDTH_TOLERANCE
    decreases l.halvings - k
  {
    if right.room - left.room > WIDTH_TOLERANCE {
      var (c, u) := Evaluate(e, l, used, Middle(left, right));
      var m := c.point;
      if m.vote < vote { BisectStaysInside(e, l, u, vote, m, right, k + 1); }
      else if m.vote > vote { BisectStaysInside(e, l, u, vote, left, m, k + 1); }
      else { BisectStaysInside(e, l, u, vote, m, m, k + 1); }
    }
  }

  /** Two votes bisected from one bracket visit the same dyadic cells until they part, and they part in order. */
  lemma {:induction false} BisectKeepsOrder(e: Evaluator, l: Limits, u1: nat, u2: nat, v: real, w: real,
                                            left: Point, right: Point, k: nat)
    requires k <= l.halvings && Echoes(e) && v < w && left.room <= right.room
    requires Bisect(e, l, u1, v, left, right, k).Narrowed? && Bisect(e, l, u2, w, left, right, k).Narrowed?
    ensures var a, b := Bisect(e, l, u1, v, left, right, k), Bisect(e, l, u2, w, left, right, k);
      a.left.room <= b.left.room && a.right.room <= b.right.room
    decreases l.halvings - k
  {
    if right.room - left.room > WIDTH_TOLERANCE {
      var (c, x1) := Evaluate(e, l, u1, Middle(left, right));
      var (_, x2) := Evaluate(e, l, u2, Middle(left, right));
      var m := c.point;
      if m.vote < v { BisectKeepsOrder(e, l, x1, x2, v, w, m, right, k + 1); }
      else if m.vote > w { BisectKeepsOrder(e, l, x1, x2, v, w, left, m, k + 1); }
      else {
        if m.vote > v { BisectStaysInside(e, l, x1, v, left, m, k + 1); }
        else { BisectStaysInside(e, l, x1, v, m, m, k + 1); }
        if m.vote < w { BisectStaysInside(e, l, x2, w, m, right, k + 1); }
        else { BisectStaysInside(e, l, x2, w, m, m, k + 1); }
      }
    }
  }

  ghost predicate SortedScan(s: seq<Point>) {
    forall i, j :: 0 <= i <= j < |s| ==> s[i].room <= s[j].room && s[i].vote <= s[j].vote
  }

  lemma {:induction false} ScanPlaces(e: Evaluator, l: Limits, used: nat, low: real, step: real, n: nat)
    requires Echoes(e) && ScanFrom(e, l, used, low, step, n).Scanned?
    ensures var s := ScanFrom(e, l, used, low, step, n).samples;
      forall k :: 0 <= k < n ==> s[k].room == Place(low, step, k) && e(s[k].room) == Found(s[k])
  {
    if n > 0 { ScanPlaces(e, l, used, low, step, n - 1); }
  }

  lemma PlacesIncrease(low: real, step: real, i: int, j: int)
    requires i <= j && step >= 0.0
    ensures Place(low, step, i) <= Place(low, step, j)
  {
    assert (j - i) as real * step >= 0.0;
  }

  lemma ScanIsSorted(e: Evaluator, l: Limits, used: nat, low: real, step: real, n: nat)
    requires Echoes(e) && Nondecreasing(e) && step >= 0.0 && ScanFrom(e, l, used, low, step, n).Scanned?
    ensures SortedScan(ScanFrom(e, l, used, low, step, n).samples)
  {
    var s := ScanFrom(e, l, used, low, step, n).samples;
    ScanPlaces(e, l, used, low, step, n);
    forall i, j | 0 <= i <= j < |s| ensures s[i].room <= s[j].room && s[i].vote <= s[j].vote {
      PlacesIncrease(low, step, i, j);
      assert e(s[i].room) == Found(s[i]) && e(s[j].room) == Found(s[j]);
    }
  }

  lemma SignChange(a: real, b: real)
    requires a * b < 0.0 && a <= b
    ensures a < 0.0 < b
  {
  }

  /** On a sorted scan a sign change is a strict crossing. */
  lemma BracketCrosses(s: seq<Point>, vote: real, k: int)
    requires SortedScan(s) && Brackets(s, vote, k)
    ensures s[k].vote < vote < s[k + 1].vote
  {
    SignChange(s[k].vote - vote, s[k + 1].vote - vote);
  }

  /** The scan interval a successful root lies in: one sample, or one pair of neighbours, around its vote. */
  lemma RootCell(e: Evaluator, l: Limits, used: nat, vote: real, s: seq<Point>, moist: bool) returns (i: nat, j: nat)
    requires Echoes(e) && s != [] && SortedScan(s) && SolveOne(e, l, used, vote, s, moist).Solved?
    ensures i <= j <= i + 1 && j < |s|
    ensures s[i].room <= SolveOne(e, l, used, vote, s, moist).room <= s[j].room
    ensures if i == j then s[i].vote == vote else s[i].vote < vote < s[j].vote
    ensures i == j ==> SolveOne(e, l, used, vote, s, moist).room == s[i].room
    ensures i < j ==> Bisect(e, l, used, vote, s[i], s[j], 0).Narrowed?
    ensures i < j ==>
      var b := Bisect(e, l, used, vote, s[i], s[j], 0);
      SolveOne(e, l, used, vote, s, moist).room == Middle(b.left, b.right)
  {
    var exact := ExactIn(s, vote, |s|);
    if exact != [] {
      assert exact[0] in exact;
      i, j := exact[0], exact[0];
    } else {
      var brackets := BracketsIn(s, vote, |s| - 1);
      assert brackets[0] in brackets;
      i, j := brackets[0], brackets[0] + 1;
      BracketCrosses(s, vote, i);
      BisectStaysInside(e, l, used, vote, s[i], s[j], 0);
    }
  }

  lemma PairInOrder(e: Evaluator, l: Limits, u1: nat, u2: nat, v: real, w: real, s: seq<Point>, moist: bool)
    requires Echoes(e) && s != [] && SortedScan(s) && v < w
    requires SolveWithin(e, l, u1, v, s, moist).Solved? && SolveWithin(e, l, u2, w, s, moist).Solved?
    ensures SolveWithin(e, l, u1, v, s, moist).room <= SolveWithin(e, l, u2, w, s, moist).room
  {
    var i1, j1 := RootCell(e, l, u1, v, s, moist);
    var i2, j2 := RootCell(e, l, u2, w, s, moist);
    if i1 == i2 && j1 == j2 && i1 < j1 {
      BisectKeepsOrder(e, l, u1, u2, v, w, s[i1], s[j1], 0);
    }
  }

  ghost predicate InOrder(a: Root, b: Root) { a.Solved? && b.Solved? ==> a.room <= b.room }

  /** For a nondecreasing evaluator, all roots that succeed in one solve are in semantic order. */
  lemma RootsAreOrdered(e: Evaluator, l: Limits, used: nat, v: Votes, low: real, high: real, moist: bool)
    requires Echoes(e) && Nondecreasing(e) && Increasing(v)
    ensures var r := Solve(e, l, used, v, low, high, moist).0;
      && InOrder(r.lower, r.heating) && InOrder(r.lower, r.neutral)
      && InOrder(r.lower, r.cooling) && InOrder(r.lower, r.upper)
      && InOrder(r.heating, r.neutral) && InOrder(r.heating, r.cooling) && InOrder(r.heating, r.upper)
      && InOrder(r.neutral, r.cooling) && InOrder(r.neutral, r.upper) && InOrder(r.cooling, r.upper)
  {
    if low < high {
      var scan := ScanFrom(e, l, used, low, SearchStep(low, high), SAMPLE_COUNT);
      if scan.Scanned? && !Decreases(scan.samples) {
        var s, u := scan.samples, scan.used;
        ScanIsSorted(e, l, used, low, SearchStep(low, high), SAMPLE_COUNT);
        forall u1: nat, u2: nat, a, b | a < b && SolveWithin(e, l, u1, a, s, moist).Solved?
                                        && SolveWithin(e, l, u2, b, s, moist).Solved?
          ensures SolveWithin(e, l, u1, a, s, moist).room <= SolveWithin(e, l, u2, b, s, moist).room
        {
          PairInOrder(e, l, u1, u2, a, b, s, moist);
        }
      }
    }
  }

  // ---- cost --------------------------------------------------------------------------------------

  function PowerOfTwo(n: nat): real { if n == 0 then 1.0 else 2.0 * PowerOfTwo(n - 1) }

  /** With evaluations to spare, bisection narrows within n halvings, and no cap it has not reached can matter. */
  lemma {:induction false} BisectIsShort(e: Evaluator, l: Limits, m: Limits, used: nat, vote: real,
                                         left: Point, right: Point, k: nat, n: nat)
    requires Echoes(e) && left.room <= right.room && right.room - left.room <= WIDTH_TOLERANCE * PowerOfTwo(n)
    requires k + n <= l.halvings && k + n <= m.halvings && used + n <= l.budget && used + n <= m.budget
    ensures Bisect(e, l, used, vote, left, right, k) == Bisect(e, m, used, vote, left, right, k)
    ensures Bisect(e, l, used, vote, left, right, k).used <= used + n
    decreases n
  {
    if right.room - left.room > WIDTH_TOLERANCE {
      var (c, u) := Evaluate(e, l, used, Middle(left, right));
      if c.Found? {
        var p := c.point;
        if p.vote < vote { BisectIsShort(e, l, m, u, vote, p, right, k + 1, n - 1); }
        else if p.vote > vote { BisectIsShort(e, l, m, u, vote, left, p, k + 1, n - 1); }
        else { BisectIsShort(e, l, m, u, vote, p, p, k + 1, n - 1); }
      }
    }
  }

  lemma {:induction false} ScanCost(e: Evaluator, l: Limits, m: Limits, used: nat, low: real, step: real, n: nat)
    requires used + n <= l.budget && used + n <= m.budget
    ensures ScanFrom(e, l, used, low, step, n) == ScanFrom(e, m, used, low, step, n)
    ensures ScanFrom(e, l, used, low, step, n).used <= used + n
  {
    if n > 0 { ScanCost(e, l, m, used, low, step, n - 1); }
  }

  const HALVINGS: nat := 8
  const ROOT_COST: nat := HALVINGS + 1
  const SOLVE_COST: nat := SAMPLE_COUNT + 5 * ROOT_COST

  ghost predicate CellsAtMost(s: seq<Point>, width: real) {
    forall k :: 0 <= k < |s| - 1 ==> 0.0 <= s[k + 1].room - s[k].room <= width
  }

  lemma RootCost(e: Evaluator, l: Limits, m: Limits, used: nat, vote: real, s: seq<Point>, moist: bool)
    requires Echoes(e) && s != [] && CellsAtMost(s, WIDTH_TOLERANCE * PowerOfTwo(HALVINGS))
    requires l.halvings >= HALVINGS && m.halvings >= HALVINGS
    requires used + ROOT_COST <= l.budget && used + ROOT_COST <= m.budget
    ensures SolveWithin(e, l, used, vote, s, moist) == SolveWithin(e, m, used, vote, s, moist)
    ensures SolveWithin(e, l, used, vote, s, moist).used <= used + ROOT_COST
  {
    var brackets := BracketsIn(s, vote, |s| - 1);
    if brackets != [] {
      assert brackets[0] in brackets;
      BisectIsShort(e, l, m, used, vote, s[brackets[0]], s[brackets[0] + 1], 0, HALVINGS);
    }
  }

  lemma PlacesAdvance(low: real, step: real, k: int)
    ensures Place(low, step, k + 1) == Place(low, step, k) + step
  {
  }

  lemma ScanCellsAreNarrow(e: Evaluator, l: Limits, used: nat, low: real, high: real)
    requires Echoes(e) && low < high <= low + 35.0
    requires ScanFrom(e, l, used, low, SearchStep(low, high), SAMPLE_COUNT).Scanned?
    ensures CellsAtMost(ScanFrom(e, l, used, low, SearchStep(low, high), SAMPLE_COUNT).samples,
                        WIDTH_TOLERANCE * PowerOfTwo(HALVINGS))
  {
    var step := SearchStep(low, high);
    var s := ScanFrom(e, l, used, low, step, SAMPLE_COUNT).samples;
    ScanPlaces(e, l, used, low, step, SAMPLE_COUNT);
    assert PowerOfTwo(HALVINGS) == 256.0 by {
      assert PowerOfTwo(4) == 16.0;
    }
    forall k | 0 <= k < |s| - 1 ensures 0.0 <= s[k + 1].room - s[k].room <= WIDTH_TOLERANCE * 256.0 {
      PlacesAdvance(low, step, k);
    }
  }

  /** For any evaluator at all, a search of at most 35 degrees spends at most 78 evaluations, and gives the same
      answer under every cap of 78 evaluations and 8 halvings or more: neither the 48 halvings nor the zone's
      3000 evaluations ever decide it. */
  lemma SolveIsCheap(e: Evaluator, l: Limits, m: Limits, used: nat, v: Votes, low: real, high: real, moist: bool)
    requires Echoes(e) && high <= low + 35.0
    requires l.halvings >= HALVINGS && m.halvings >= HALVINGS
    requires used + SOLVE_COST <= l.budget && used + SOLVE_COST <= m.budget
    ensures Solve(e, l, used, v, low, high, moist) == Solve(e, m, used, v, low, high, moist)
    ensures Solve(e, l, used, v, low, high, moist).1 <= used + SOLVE_COST
  {
    if low < high {
      var step := SearchStep(low, high);
      ScanCost(e, l, m, used, low, step, SAMPLE_COUNT);
      var scan := ScanFrom(e, l, used, low, step, SAMPLE_COUNT);
      if scan.Scanned? && !Decreases(scan.samples) {
        var s, u := scan.samples, scan.used;
        ScanCellsAreNarrow(e, l, used, low, high);
        RootCost(e, l, m, u, v.lower, s, moist);
        var u1 := SolveWithin(e, l, u, v.lower, s, moist).used;
        RootCost(e, l, m, u1, v.heating, s, moist);
        var u2 := SolveWithin(e, l, u1, v.heating, s, moist).used;
        RootCost(e, l, m, u2, v.neutral, s, moist);
        var u3 := SolveWithin(e, l, u2, v.neutral, s, moist).used;
        RootCost(e, l, m, u3, v.cooling, s, moist);
        var u4 := SolveWithin(e, l, u3, v.cooling, s, moist).used;
        RootCost(e, l, m, u4, v.upper, s, moist);
      }
    }
  }
}
