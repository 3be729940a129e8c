/** That the solver does solve: which votes get a root, how close it is, and why the others do not. */
module RootExistence {
  import opened Contracts
  import opened Inverse

  /** Every temperature of the interval can be evaluated. */
  ghost predicate FoundOn(e: Evaluator, low: real, high: real) { forall x :: low <= x <= high ==> e(x).Found? }

  /** The evaluator moves at most the residual tolerance over any width tolerance of the interval. */
  ghost predicate Steady(e: Evaluator, low: real, high: real) {
    forall x, y :: low <= x <= y <= high && y <= x + WIDTH_TOLERANCE && e(x).Found? && e(y).Found? ==>
      e(y).point.vote - e(x).point.vote <= RESIDUAL_TOLERANCE
  }

  ghost predicate StrictlyIncreasing(e: Evaluator, low: real, high: real) {
    forall x, y :: low <= x < y <= high && e(x).Found? && e(y).Found? ==> e(x).point.vote < e(y).point.vote
  }

  ghost predicate IsEvaluated(e: Evaluator, p: Point) { e(p.room) == Found(p) }

  // ---- how close ---------------------------------------------------------------------------------

  /** A root is a point the evaluator really has, within both tolerances of the vote. */
  ghost predicate IsRootOf(e: Evaluator, vote: real, r: Root) {
    && r.Solved? && e(r.room).Found? && e(r.room).point.local == r.local
    && r.residual == e(r.room).point.vote - vote && Abs(r.residual) <= RESIDUAL_TOLERANCE && r.width <= WIDTH_TOLERANCE
  }

  /** Whatever the evaluator, every root that succeeds is one. */
  lemma SolvedIsRoot(e: Evaluator, l: Limits, used: nat, vote: real, s: seq<Point>, moist: bool)
    requires Echoes(e) && s != [] && SolveWithin(e, l, used, vote, s, moist).Solved?
    ensures IsRootOf(e, vote, SolveWithin(e, l, used, vote, s, moist))
  {
  }

  // ---- where a vote lies on the scan -----------------------------------------------------------------

  lemma SameSide(a: real, b: real)
    requires (a < 0.0 && b < 0.0) || (a > 0.0 && b > 0.0)
    ensures a * b > 0.0
  {
  }

  lemma OppositeSides(a: real, b: real)
    requires a < 0.0 < b
    ensures a * b < 0.0
  {
  }

  lemma SignsOppose(a: real, b: real)
    ensures a * b < 0.0 <==> (a < 0.0 < b) || (b < 0.0 < a)
  {
    if (a < 0.0 < b) || (b < 0.0 < a) {
      if a < 0.0 { OppositeSides(a, b); } else { OppositeSides(b, a); }
    } else if a == 0.0 || b == 0.0 {
      assert a * b == 0.0;
    } else {
      SameSide(a, b);
    }
  }

  /** A pair of neighbours brackets a vote exactly when it lies strictly between theirs, either way round. */
  lemma BracketExactly(s: seq<Point>, vote: real, k: int)
    requires 0 <= k < |s| - 1
    ensures Brackets(s, vote, k)
        <==> s[k].vote < vote < s[k + 1].vote || s[k + 1].vote < vote < s[k].vote
  {
    SignsOppose(s[k].vote - vote, s[k + 1].vote - vote);
  }

  lemma BracketsOnly(s: seq<Point>, vote: real, k: nat, j: int)
    requires SortedScan(s) && k + 1 < |s| && s[k].vote < vote < s[k + 1].vote
    ensures Brackets(s, vote, j) <==> j == k
  {
    if 0 <= j < |s| - 1 {
      BracketExactly(s, vote, j);
      if j < k { assert s[j].vote <= s[k].vote && s[j + 1].vote <= s[k].vote; }
      if j > k { assert s[k + 1].vote <= s[j].vote && s[k + 1].vote <= s[j + 1].vote; }
    }
  }

  /** A vote strictly between two neighbours hits no sample and is bracketed once. */
  lemma {:induction false} OneBracket(s: seq<Point>, vote: real, k: nat, n: nat)
    requires SortedScan(s) && k + 1 < |s| && s[k].vote < vote < s[k + 1].vote && n < |s|
    ensures BracketsIn(s, vote, n) == if k < n then [k] else []
  {
    if n > 0 {
      OneBracket(s, vote, k, n - 1);
      BracketsOnly(s, vote, k, n - 1);
    }
  }

  lemma {:induction false} NoExact(s: seq<Point>, vote: real, n: nat)
    requires n <= |s| && forall j :: 0 <= j < n ==> s[j].vote != vote
    ensures ExactIn(s, vote, n) == []
  {
    if n > 0 { NoExact(s, vote, n - 1); }
  }

  ghost predicate HitsOnly(s: seq<Point>, vote: real, k: nat) {
    k < |s| && forall j :: 0 <= j < |s| ==> (s[j].vote == vote <==> j == k)
  }

  lemma {:induction false} OneExact(s: seq<Point>, vote: real, k: nat, n: nat)
    requires HitsOnly(s, vote, k) && n <= |s|
    ensures ExactIn(s, vote, n) == if k < n then [k] else []
  {
    if n > 0 { OneExact(s, vote, k, n - 1); }
  }

  lemma ExactIsNotBracketed(s: seq<Point>, vote: real, k: nat)
    requires SortedScan(s) && k < |s| && s[k].vote == vote
    ensures BracketsIn(s, vote, |s| - 1) == []
  {
    var brackets := BracketsIn(s, vote, |s| - 1);
    if brackets != [] {
      assert brackets[0] in brackets;
      BracketCrosses(s, vote, brackets[0]);
    }
  }

  lemma OutsideIsNotBracketed(s: seq<Point>, vote: real)
    requires SortedScan(s) && s != [] && (vote < s[0].vote || vote > s[|s| - 1].vote)
    ensures ExactIn(s, vote, |s|) == [] && BracketsIn(s, vote, |s| - 1) == []
  {
    NoExact(s, vote, |s|);
    var brackets := BracketsIn(s, vote, |s| - 1);
    if brackets != [] {
      assert brackets[0] in brackets;
      BracketCrosses(s, vote, brackets[0]);
    }
  }

  // ---- bisection succeeds ------------------------------------------------------------------------

  /** The vote lies between the two ends, both of which were evaluated. */
  ghost predicate Straddles(e: Evaluator, vote: real, left: Point, right: Point) {
    && IsEvaluated(e, left) && IsEvaluated(e, right) && left.room <= right.room && left.vote <= vote <= right.vote
    && FoundOn(e, left.room, right.room)
  }

  /** With halvings and evaluations to spare, bisection always narrows, around the vote. */
  lemma {:induction false} BisectFinds(e: Evaluator, l: Limits, used: nat, vote: real, left: Point, right: Point,
                                       k: nat, n: nat)
    requires Echoes(e) && Straddles(e, vote, left, right)
    requires right.room - left.room <= WIDTH_TOLERANCE * PowerOfTwo(n) && k + n <= l.halvings && used + n <= l.budget
    ensures var b := Bisect(e, l, used, vote, left, right, k);
      && b.Narrowed? && Straddles(e, vote, b.left, b.right) && b.right.room - b.left.room <= WIDTH_TOLERANCE
      && left.room <= b.left.room && b.right.room <= right.room && b.used <= used + n
    decreases n
  {
    if right.room - left.room > WIDTH_TOLERANCE {
      var m := e(Middle(left, right)).point;
      if m.vote < vote { BisectFinds(e, l, used + 1, vote, m, right, k + 1, n - 1); }
      else if m.vote > vote { BisectFinds(e, l, used + 1, vote, left, m, k + 1, n - 1); }
      else { BisectFinds(e, l, used + 1, vote, m, m, k + 1, n - 1); }
    }
  }

  /** A steady evaluator is within the residual tolerance of the vote in the middle of a narrow straddle. */
  lemma MiddleIsClose(e: Evaluator, vote: real, left: Point, right: Point)
    requires Echoes(e) && Nondecreasing(e) && Steady(e, left.room, right.room)
    requires Straddles(e, vote, left, right) && right.room - left.room <= WIDTH_TOLERANCE
    ensures Abs(e(Middle(left, right)).point.vote - vote) <= RESIDUAL_TOLERANCE
  {
    var m := Middle(left, right);
    assert left.room <= m <= right.room;
    assert e(left.room).point.vote <= e(m).point.vote <= e(right.room).point.vote;
    assert e(right.room).point.vote - e(left.room).point.vote <= RESIDUAL_TOLERANCE;
  }

  lemma SteadyWithin(e: Evaluator, low: real, high: real, left: real, right: real)
    requires low <= left && right <= high
    ensures Steady(e, low, high) ==> Steady(e, left, right)
    ensures FoundOn(e, low, high) ==> FoundOn(e, left, right)
  {
  }

  // ---- one vote ----------------------------------------------------------------------------------

  /** Samples of a nondecreasing evaluator that can be evaluated between them, at most 1.28 C apart. */
  ghost predicate GoodScan(e: Evaluator, s: seq<Point>) {
    && Echoes(e) && Nondecreasing(e) && s != [] && SortedScan(s) && CellsAtMost(s, WIDTH_TOLERANCE * PowerOfTwo(HALVINGS))
    && (forall k :: 0 <= k < |s| ==> IsEvaluated(e, s[k]))
    && FoundOn(e, s[0].room, s[|s| - 1].room)
  }

  predicate Affordable(l: Limits, used: nat, cost: nat) { used + cost <= l.budget && l.halvings >= HALVINGS }

  lemma FinishFinds(e: Evaluator, l: Limits, used: nat, vote: real, x: real, width: real)
    requires used < l.budget && e(x).Found? && e(x).point.room == x && width <= WIDTH_TOLERANCE
    requires Abs(e(x).point.vote - vote) <= RESIDUAL_TOLERANCE
    ensures var r := Finish(e, l, used, vote, x, width);
      IsRootOf(e, vote, r) && r.room == x && r.residual == e(x).point.vote - vote && r.width == width
  {
  }

  lemma OneBracketIsBisected(e: Evaluator, l: Limits, used: nat, vote: real, s: seq<Point>, moist: bool, k: nat)
    requires k + 1 < |s| && ExactIn(s, vote, |s|) == [] && BracketsIn(s, vote, |s| - 1) == [k]
    ensures SolveOne(e, l, used, vote, s, moist)
         == match Bisect(e, l, used, vote, s[k], s[k + 1], 0)
            case Stopped(code, u) => Unsolved(code, u)
            case Narrowed(left, right, u) => Finish(e, l, u, vote, Middle(left, right), right.room - left.room)
  {
  }

  lemma BracketIsBisected(e: Evaluator, l: Limits, used: nat, vote: real, s: seq<Point>, moist: bool, k: nat, b: Bisected)
    requires used < l.budget && k + 1 < |s|
    requires ExactIn(s, vote, |s|) == [] && BracketsIn(s, vote, |s| - 1) == [k]
    requires b == Bisect(e, l, used, vote, s[k], s[k + 1], 0) && b.Narrowed?
    ensures SolveWithin(e, l, used, vote, s, moist)
         == Finish(e, l, b.used, vote, Middle(b.left, b.right), b.right.room - b.left.room)
  {
    OneBracketIsBisected(e, l, used, vote, s, moist, k);
  }

  lemma CellBisects(e: Evaluator, l: Limits, used: nat, vote: real, left: Point, right: Point) returns (b: Bisected)
    requires Echoes(e) && Nondecreasing(e) && Straddles(e, vote, left, right) && Steady(e, left.room, right.room)
    requires right.room - left.room <= WIDTH_TOLERANCE * PowerOfTwo(HALVINGS) && Affordable(l, used, ROOT_COST)
    ensures b == Bisect(e, l, used, vote, left, right, 0) && b.Narrowed?
    ensures b.right.room - b.left.room <= WIDTH_TOLERANCE && b.used < l.budget
    ensures var m := Middle(b.left, b.right);
      left.room <= m <= right.room && e(m).Found? && Abs(e(m).point.vote - vote) <= RESIDUAL_TOLERANCE
  {
    BisectFinds(e, l, used, vote, left, right, 0, HALVINGS);
    b := Bisect(e, l, used, vote, left, right, 0);
    SteadyWithin(e, left.room, right.room, b.left.room, b.right.room);
    MiddleIsClose(e, vote, b.left, b.right);
  }

  lemma NarrowedSolves(e: Evaluator, l: Limits, used: nat, vote: real, s: seq<Point>, moist: bool, k: nat, b: Bisected)
    requires k + 1 < |s| && used < l.budget && ExactIn(s, vote, |s|) == [] && BracketsIn(s, vote, |s| - 1) == [k]
    requires b == Bisect(e, l, used, vote, s[k], s[k + 1], 0) && b.Narrowed? && b.used < l.budget
    requires b.right.room - b.left.room <= WIDTH_TOLERANCE
    requires var m := Middle(b.left, b.right);
      e(m).Found? && e(m).point.room == m && Abs(e(m).point.vote - vote) <= RESIDUAL_TOLERANCE
    ensures var r := SolveWithin(e, l, used, vote, s, moist);
      IsRootOf(e, vote, r) && r.room == Middle(b.left, b.right)
  {
    BracketIsBisected(e, l, used, vote, s, moist, k, b);
    FinishFinds(e, l, b.used, vote, Middle(b.left, b.right), b.right.room - b.left.room);
  }

  lemma CellStraddles(e: Evaluator, s: seq<Point>, vote: real, k: nat)
    requires GoodScan(e, s) && k + 1 < |s| && s[k].vote < vote < s[k + 1].vote
    ensures Straddles(e, vote, s[k], s[k + 1])
    ensures s[k + 1].room - s[k].room <= WIDTH_TOLERANCE * PowerOfTwo(HALVINGS)
  {
    assert IsEvaluated(e, s[k]) && IsEvaluated(e, s[k + 1]);
    assert s[0].room <= s[k].room && s[k + 1].room <= s[|s| - 1].room;
    SteadyWithin(e, s[0].room, s[|s| - 1].room, s[k].room, s[k + 1].room);
  }

  lemma BetweenHitsNothing(s: seq<Point>, vote: real, k: nat)
    requires SortedScan(s) && k + 1 < |s| && s[k].vote < vote < s[k + 1].vote
    ensures ExactIn(s, vote, |s|) == []
  {
    forall j | 0 <= j < |s| ensures s[j].vote != vote {
      if j <= k { assert s[j].vote <= s[k].vote; } else { assert s[k + 1].vote <= s[j].vote; }
    }
    NoExact(s, vote, |s|);
  }

  lemma CellIsBracketed(s: seq<Point>, vote: real, k: nat)
    requires SortedScan(s) && k + 1 < |s| && s[k].vote < vote < s[k + 1].vote
    ensures ExactIn(s, vote, |s|) == [] && BracketsIn(s, vote, |s| - 1) == [k]
  {
    BetweenHitsNothing(s, vote, k);
    OneBracket(s, vote, k, |s| - 1);
  }

  /** A vote strictly between two neighbouring samples is solved between them. */
  lemma CellSolves(e: Evaluator, l: Limits, used: nat, vote: real, s: seq<Point>, moist: bool, k: nat)
    requires GoodScan(e, s) && Affordable(l, used, ROOT_COST)
    requires k + 1 < |s| && s[k].vote < vote < s[k + 1].vote && Steady(e, s[k].room, s[k + 1].room)
    ensures var r := SolveWithin(e, l, used, vote, s, moist);
      IsRootOf(e, vote, r) && s[k].room <= r.room <= s[k + 1].room
  {
    CellIsBracketed(s, vote, k);
    CellStraddles(e, s, vote, k);
    var b := CellBisects(e, l, used, vote, s[k], s[k + 1]);
    NarrowedSolves(e, l, used, vote, s, moist, k, b);
  }

  lemma HitIsFinished(e: Evaluator, l: Limits, used: nat, vote: real, s: seq<Point>, moist: bool, k: nat)
    requires k < |s| && used < l.budget && ExactIn(s, vote, |s|) == [k] && BracketsIn(s, vote, |s| - 1) == []
    ensures SolveWithin(e, l, used, vote, s, moist) == Finish(e, l, used, vote, s[k].room, 0.0)
  {
  }

  /** A vote one sample hits is solved there, exactly; one that several hit is refused as ambiguous. */
  lemma HitSolves(e: Evaluator, l: Limits, used: nat, vote: real, s: seq<Point>, moist: bool, k: nat)
    requires GoodScan(e, s) && Affordable(l, used, ROOT_COST) && HitsOnly(s, vote, k)
    ensures var r := SolveWithin(e, l, used, vote, s, moist);
      IsRootOf(e, vote, r) && r.room == s[k].room && r.residual == 0.0 && r.width == 0.0
  {
    OneExact(s, vote, k, |s|);
    ExactIsNotBracketed(s, vote, k);
    assert IsEvaluated(e, s[k]);
    HitIsFinished(e, l, used, vote, s, moist, k);
    FinishFinds(e, l, used, vote, s[k].room, 0.0);
  }

  lemma PlateauIsRefused(e: Evaluator, l: Limits, used: nat, vote: real, s: seq<Point>, moist: bool, j: nat, k: nat)
    requires s != [] && used < l.budget && j < k < |s| && s[j].vote == vote == s[k].vote
    ensures SolveWithin(e, l, used, vote, s, moist) == Unsolved(MultipleBrackets, used)
  {
    var exact := ExactIn(s, vote, |s|);
    assert j in exact && k in exact;
  }

  /** The votes of two neighbours lie strictly on either side of this one. */
  predicate Crosses(s: seq<Point>, vote: real, k: nat) {
    k + 1 < |s| && (s[k].vote < vote < s[k + 1].vote || s[k + 1].vote < vote < s[k].vote)
  }

  /** Two crossings, or a hit and a crossing, are ambiguous as well, on any scan. */
  lemma AmbiguityIsRefused(e: Evaluator, l: Limits, used: nat, vote: real, s: seq<Point>, moist: bool, j: nat, k: nat)
    requires s != [] && used < l.budget && Crosses(s, vote, k)
    requires (j < |s| && s[j].vote == vote) || (j != k && Crosses(s, vote, j))
    ensures SolveWithin(e, l, used, vote, s, moist) == Unsolved(MultipleBrackets, used)
  {
    var brackets := BracketsIn(s, vote, |s| - 1);
    BracketExactly(s, vote, k);
    assert k in brackets;
    if j != k && Crosses(s, vote, j) {
      BracketExactly(s, vote, j);
      assert j in brackets;
    }
    if j < |s| && s[j].vote == vote { assert j in ExactIn(s, vote, |s|); }
  }

  /** A vote between the first and the last sample is hit or crossed somewhere, on any scan. */
  lemma {:induction false} VoteIsCrossed(s: seq<Point>, vote: real, n: nat) returns (k: nat)
    requires n < |s| && s[0].vote <= vote <= s[n].vote
    ensures k < |s| && (s[k].vote == vote || Crosses(s, vote, k))
  {
    k := n;
    if n > 0 && s[n].vote != vote {
      k := n - 1;
      if s[n - 1].vote > vote { k := VoteIsCrossed(s, vote, n - 1); }
    }
  }

  lemma InsideIsHitOrCrossed(s: seq<Point>, vote: real)
    requires s != [] && s[0].vote <= vote <= s[|s| - 1].vote
    ensures ExactIn(s, vote, |s|) != [] || BracketsIn(s, vote, |s| - 1) != []
  {
    var k := VoteIsCrossed(s, vote, |s| - 1);
    if s[k].vote == vote {
      assert k in ExactIn(s, vote, |s|);
    } else {
      BracketExactly(s, vote, k);
      assert k in BracketsIn(s, vote, |s| - 1);
    }
  }

  /** So a root never fails for want of a bracket between its ends: without hit or crossing it lies outside. */
  lemma NoBracketMeansOutside(s: seq<Point>, vote: real, moist: bool)
    requires s != [] && ExactIn(s, vote, |s|) == [] && BracketsIn(s, vote, |s| - 1) == []
    ensures NoBracketCode(s, vote, moist) == if vote < s[0].vote then (if moist then MoistureLimited else BelowSearchDomain)
                                             else AboveSearchDomain
    ensures vote < s[0].vote || vote > s[|s| - 1].vote
  {
    if s[0].vote <= vote <= s[|s| - 1].vote { InsideIsHitOrCrossed(s, vote); }
  }

  /** A vote outside the samples is told which way out, without an evaluation. */
  lemma OutsideIsTold(e: Evaluator, l: Limits, used: nat, vote: real, s: seq<Point>, moist: bool)
    requires SortedScan(s) && s != [] && used < l.budget && (vote < s[0].vote || vote > s[|s| - 1].vote)
    ensures SolveWithin(e, l, used, vote, s, moist)
         == Unsolved(if vote > s[|s| - 1].vote then AboveSearchDomain
                     else if moist then MoistureLimited else BelowSearchDomain, used)
  {
    OutsideIsNotBracketed(s, vote);
  }

  /** A vote within the samples hits one or lies strictly between two neighbours. */
  lemma {:induction false} VoteHasCell(s: seq<Point>, vote: real, n: nat) returns (k: nat)
    requires SortedScan(s) && 0 < n <= |s| && s[0].vote <= vote <= s[n - 1].vote
    ensures k < n && (s[k].vote == vote || (k + 1 < n && s[k].vote < vote < s[k + 1].vote))
  {
    k := n - 1;
    if s[n - 1].vote != vote {
      k := n - 2;
      if s[n - 2].vote >= vote { k := VoteHasCell(s, vote, n - 1); }
    }
  }

  // ---- the whole solve ---------------------------------------------------------------------------

  /** The answer to one vote of a solve over an interval. */
  ghost predicate Answers(e: Evaluator, low: real, high: real, vote: real, moist: bool, r: Root) {
    && e(low).Found? && e(high).Found?
    && (r.Solved? <==> e(low).point.vote <= vote <= e(high).point.vote)
    && (r.Solved? ==> IsRootOf(e, vote, r) && low <= r.room <= high)
    && (vote > e(high).point.vote ==> r.Unsolved? && r.code == AboveSearchDomain)
    && (vote < e(low).point.vote ==> r.Unsolved? && r.code == if moist then MoistureLimited else BelowSearchDomain)
  }

  ghost predicate Distinct(s: seq<Point>) { forall i, j :: 0 <= i < j < |s| ==> s[i].vote < s[j].vote }

  ghost predicate Covers(e: Evaluator, s: seq<Point>, low: real, high: real) {
    && GoodScan(e, s) && Distinct(s) && s[0].room == low && s[|s| - 1].room == high && Steady(e, low, high)
  }

  lemma VoteIsAnswered(e: Evaluator, l: Limits, used: nat, vote: real, s: seq<Point>, low: real, high: real, moist: bool)
    requires Covers(e, s, low, high) && Affordable(l, used, ROOT_COST)
    ensures Answers(e, low, high, vote, moist, SolveWithin(e, l, used, vote, s, moist))
    ensures SolveWithin(e, l, used, vote, s, moist).used <= used + ROOT_COST
  {
    assert IsEvaluated(e, s[0]) && IsEvaluated(e, s[|s| - 1]);
    RootCost(e, l, l, used, vote, s, moist);
    if s[0].vote <= vote <= s[|s| - 1].vote {
      var k := VoteHasCell(s, vote, |s|);
      if s[k].vote == vote {
        HitSolves(e, l, used, vote, s, moist, k);
      } else {
        SteadyWithin(e, low, high, s[k].room, s[k + 1].room);
        CellSolves(e, l, used, vote, s, moist, k);
      }
    } else {
      OutsideIsTold(e, l, used, vote, s, moist);
    }
  }

  lemma {:induction false} ScanSucceeds(e: Evaluator, l: Limits, used: nat, low: real, step: real, n: nat)
    requires used + n <= l.budget && step >= 0.0 && forall k :: 0 <= k < n ==> e(Place(low, step, k)).Found?
    ensures var r := ScanFrom(e, l, used, low, step, n);
      r.Scanned? && r.used == used + n
  {
    if n > 0 { ScanSucceeds(e, l, used, low, step, n - 1); }
  }

  lemma PlacesInside(low: real, high: real, k: nat)
    requires low < high && k < SAMPLE_COUNT
    ensures low <= Place(low, SearchStep(low, high), k) <= high
    ensures Place(low, SearchStep(low, high), 0) == low && Place(low, SearchStep(low, high), SAMPLE_COUNT - 1) == high
    ensures k + 1 < SAMPLE_COUNT ==> Place(low, SearchStep(low, high), k) < Place(low, SearchStep(low, high), k + 1)
  {
    var step := SearchStep(low, high);
    PlacesIncrease(low, step, 0, k);
    PlacesIncrease(low, step, k, SAMPLE_COUNT - 1);
    PlacesAdvance(low, step, k);
  }

  lemma PlacesApart(low: real, high: real, i: nat, j: nat)
    requires low < high && i < j < SAMPLE_COUNT
    ensures Place(low, SearchStep(low, high), i) < Place(low, SearchStep(low, high), j)
  {
    PlacesInside(low, high, i);
    PlacesIncrease(low, SearchStep(low, high), i + 1, j);
  }

  ghost predicate WellBehaved(e: Evaluator, low: real, high: real) {
    && Echoes(e) && Nondecreasing(e) && FoundOn(e, low, high) && StrictlyIncreasing(e, low, high) && Steady(e, low, high)
  }

  lemma ScanCovers(e: Evaluator, l: Limits, used: nat, low: real, high: real) returns (s: seq<Point>)
    requires WellBehaved(e, low, high) && low < high <= low + 35.0 && used + SAMPLE_COUNT <= l.budget
    ensures ScanFrom(e, l, used, low, SearchStep(low, high), SAMPLE_COUNT) == Scanned(s, used + SAMPLE_COUNT)
    ensures |s| == SAMPLE_COUNT && Covers(e, s, low, high)
  {
    var step := SearchStep(low, high);
    forall k: nat | k < SAMPLE_COUNT ensures e(Place(low, step, k)).Found? { PlacesInside(low, high, k); }
    ScanSucceeds(e, l, used, low, step, SAMPLE_COUNT);
    s := ScanFrom(e, l, used, low, step, SAMPLE_COUNT).samples;
    ScanPlaces(e, l, used, low, step, SAMPLE_COUNT);
    ScanIsSorted(e, l, used, low, step, SAMPLE_COUNT);
    ScanCellsAreNarrow(e, l, used, low, high);
    PlacesInside(low, high, 0);
    forall i, j | 0 <= i < j < |s| ensures s[i].vote < s[j].vote {
      PlacesApart(low, high, i, j);
      PlacesInside(low, high, i);
      PlacesInside(low, high, j);
    }
  }

  lemma SortedIsScreened(s: seq<Point>)
    requires SortedScan(s)
    ensures !Decreases(s)
  {
  }

  ghost predicate AllAnswered(e: Evaluator, low: real, high: real, v: Votes, moist: bool, r: Roots) {
    && Answers(e, low, high, v.lower, moist, r.lower) && Answers(e, low, high, v.heating, moist, r.heating)
    && Answers(e, low, high, v.neutral, moist, r.neutral) && Answers(e, low, high, v.cooling, moist, r.cooling)
    && Answers(e, low, high, v.upper, moist, r.upper)
  }

  lemma FiveAnswers(e: Evaluator, l: Limits, used: nat, v: Votes, s: seq<Point>, low: real, high: real, moist: bool)
    requires Covers(e, s, low, high) && Affordable(l, used, 5 * ROOT_COST)
    ensures AllAnswered(e, low, high, v, moist, SolveFive(e, l, used, v, s, moist).0)
  {
    VoteIsAnswered(e, l, used, v.lower, s, low, high, moist);
    var u1 := SolveWithin(e, l, used, v.lower, s, moist).used;
    VoteIsAnswered(e, l, u1, v.heating, s, low, high, moist);
    var u2 := SolveWithin(e, l, u1, v.heating, s, moist).used;
    VoteIsAnswered(e, l, u2, v.neutral, s, low, high, moist);
    var u3 := SolveWithin(e, l, u2, v.neutral, s, moist).used;
    VoteIsAnswered(e, l, u3, v.cooling, s, low, high, moist);
    var u4 := SolveWithin(e, l, u3, v.cooling, s, moist).used;
    VoteIsAnswered(e, l, u4, v.upper, s, low, high, moist);
  }

  /** Main result. For an evaluator that increases steadily over the search interval, each of the five votes is solved
      if and only if the evaluator reaches it between the two ends; a vote it does not reach is told which way it
      lies, or that moisture limits it; and 78 evaluations are always enough. */
  lemma EveryReachableVoteIsSolved(e: Evaluator, l: Limits, used: nat, v: Votes, low: real, high: real, moist: bool)
    requires WellBehaved(e, low, high) && low < high <= low + 35.0 && Affordable(l, used, SOLVE_COST)
    ensures AllAnswered(e, low, high, v, moist, Solve(e, l, used, v, low, high, moist).0)
  {
    var s := ScanCovers(e, l, used, low, high);
    SortedIsScreened(s);
    FiveAnswers(e, l, used + SAMPLE_COUNT, v, s, low, high, moist);
  }

  // ---- what fails the whole solve ----------------------------------------------------------------

  /** A sample that cannot be evaluated fails all five votes with its own code, and nothing after it is evaluated. */
  lemma {:induction false} MissStopsTheScan(e: Evaluator, l: Limits, used: nat, low: real, step: real, k: nat, n: nat)
    requires k < n && used + k < l.budget && (forall j :: 0 <= j < k ==> e(Place(low, step, j)).Found?)
    requires e(Place(low, step, k)).Missed?
    ensures ScanFrom(e, l, used, low, step, n) == ScanFailed(e(Place(low, step, k)).code, used + k + 1)
  {
    if n == k + 1 { CleanScan(e, l, used, low, step, k); } else { MissStopsTheScan(e, l, used, low, step, k, n - 1); }
  }

  lemma {:induction false} CleanScan(e: Evaluator, l: Limits, used: nat, low: real, step: real, n: nat)
    requires used + n <= l.budget && forall j :: 0 <= j < n ==> e(Place(low, step, j)).Found?
    ensures ScanFrom(e, l, used, low, step, n).Scanned? && ScanFrom(e, l, used, low, step, n).used == used + n
  {
    if n > 0 { CleanScan(e, l, used, low, step, n - 1); }
  }

  lemma FirstMissFailsAll(e: Evaluator, l: Limits, used: nat, v: Votes, low: real, high: real, moist: bool, k: nat)
    requires low < high && k < SAMPLE_COUNT && used + k < l.budget
    requires forall j :: 0 <= j < k ==> e(Place(low, SearchStep(low, high), j)).Found?
    requires e(Place(low, SearchStep(low, high), k)).Missed?
    ensures Solve(e, l, used, v, low, high, moist)
         == (AllFail(e(Place(low, SearchStep(low, high), k)).code, used + k + 1), used + k + 1)
  {
    MissStopsTheScan(e, l, used, low, SearchStep(low, high), k, SAMPLE_COUNT);
  }

  /** A fall of more than a ten-thousandth between two neighbouring samples fails all five as not monotonic. */
  lemma FallFailsAll(e: Evaluator, l: Limits, used: nat, v: Votes, low: real, high: real, moist: bool, k: nat)
    requires low < high && k + 1 < SAMPLE_COUNT && used + SAMPLE_COUNT <= l.budget && Echoes(e)
    requires forall j :: 0 <= j < SAMPLE_COUNT ==> e(Place(low, SearchStep(low, high), j)).Found?
    requires e(Place(low, SearchStep(low, high), k + 1)).point.vote
           < e(Place(low, SearchStep(low, high), k)).point.vote - 0.0001
    ensures Solve(e, l, used, v, low, high, moist)
         == (AllFail(NonMonotonic, used + SAMPLE_COUNT), used + SAMPLE_COUNT)
  {
    var step := SearchStep(low, high);
    CleanScan(e, l, used, low, step, SAMPLE_COUNT);
    ScanPlaces(e, l, used, low, step, SAMPLE_COUNT);
    var s := ScanFrom(e, l, used, low, step, SAMPLE_COUNT).samples;
    assert s[k + 1].vote < s[k].vote - DECREASE_TOLERANCE;
  }

  /** No solve spends more than the budget it is given. */
  lemma {:induction false} ScanKeepsBudget(e: Evaluator, l: Limits, used: nat, low: real, step: real, n: nat)
    requires used <= l.budget
    ensures used <= ScanFrom(e, l, used, low, step, n).used <= l.budget
  {
    if n > 0 { ScanKeepsBudget(e, l, used, low, step, n - 1); }
  }

  lemma {:induction false} BisectKeepsBudget(e: Evaluator, l: Limits, used: nat, vote: real, left: Point, right: Point, k: nat)
    requires k <= l.halvings && used <= l.budget
    ensures used <= Bisect(e, l, used, vote, left, right, k).used <= l.budget
    decreases l.halvings - k
  {
    if right.room - left.room > WIDTH_TOLERANCE && k < l.halvings {
      var (c, u) := Evaluate(e, l, used, Middle(left, right));
      if c.Found? {
        var m := c.point;
        if m.vote < vote { BisectKeepsBudget(e, l, u, vote, m, right, k + 1); }
        else if m.vote > vote { BisectKeepsBudget(e, l, u, vote, left, m, k + 1); }
        else { BisectKeepsBudget(e, l, u, vote, m, m, k + 1); }
      }
    }
  }

  lemma RootKeepsBudget(e: Evaluator, l: Limits, used: nat, vote: real, s: seq<Point>, moist: bool)
    requires s != [] && used <= l.budget
    ensures used <= SolveWithin(e, l, used, vote, s, moist).used <= l.budget
    ensures used == l.budget ==> SolveWithin(e, l, used, vote, s, moist) == Unsolved(BudgetExceeded, used)
  {
    var brackets := BracketsIn(s, vote, |s| - 1);
    if brackets != [] {
      assert brackets[0] in brackets;
      BisectKeepsBudget(e, l, used, vote, s[brackets[0]], s[brackets[0] + 1], 0);
    }
  }

  lemma SolveKeepsBudget(e: Evaluator, l: Limits, used: nat, v: Votes, low: real, high: real, moist: bool)
    requires used <= l.budget
    ensures used <= Solve(e, l, used, v, low, high, moist).1 <= l.budget
    ensures used == l.budget && low < high ==> Solve(e, l, used, v, low, high, moist) == (AllFail(BudgetExceeded, used), used)
  {
    if low < high {
      ScanKeepsBudget(e, l, used, low, SearchStep(low, high), SAMPLE_COUNT);
      if used == l.budget { SpentScan(e, l, used, low, SearchStep(low, high), SAMPLE_COUNT); }
      var scan := ScanFrom(e, l, used, low, SearchStep(low, high), SAMPLE_COUNT);
      if scan.Scanned? {
        var s, u := scan.samples, scan.used;
        RootKeepsBudget(e, l, u, v.lower, s, moist);
        var u1 := SolveWithin(e, l, u, v.lower, s, moist).used;
        RootKeepsBudget(e, l, u1, v.heating, s, moist);
        var u2 := SolveWithin(e, l, u1, v.heating, s, moist).used;
        RootKeepsBudget(e, l, u2, v.neutral, s, moist);
        var u3 := SolveWithin(e, l, u2, v.neutral, s, moist).used;
        RootKeepsBudget(e, l, u3, v.cooling, s, moist);
        var u4 := SolveWithin(e, l, u3, v.cooling, s, moist).used;
        RootKeepsBudget(e, l, u4, v.upper, s, moist);
      }
    }
  }

  lemma {:induction false} SpentScan(e: Evaluator, l: Limits, used: nat, low: real, step: real, n: nat)
    requires used == l.budget && n > 0
    ensures ScanFrom(e, l, used, low, step, n) == ScanFailed(BudgetExceeded, used)
  {
    if n > 1 { SpentScan(e, l, used, low, step, n - 1); }
  }

  /** An empty interval is outside the domain, and costs nothing. */
  lemma EmptyIntervalIsOutside(e: Evaluator, l: Limits, used: nat, v: Votes, low: real, high: real, moist: bool)
    requires low >= high
    ensures Solve(e, l, used, v, low, high, moist) == (AllFail(OutsideDomain, used), used)
  {
  }
}
