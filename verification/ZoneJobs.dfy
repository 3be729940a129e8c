/** The zone's calculation jobs as a step system: requests, invalidations and a stop may fall at every await of a
    job. */
module ZoneJobs {
  import opened Contracts

  datatype CalculationRequest<S> = CalculationRequest(generation: nat, snapshot: S)

  /** A task that has not run yet, one waiting for its result, and one that has returned or was cancelled. */
  datatype Task<S> = Created(request: CalculationRequest<S>) | Working(request: CalculationRequest<S>) | Ended

  /** `published` and `newest` record the history: what was published, and the last request accepted. */
  datatype State<S> = State(
    generation: nat, latest: Option<CalculationRequest<S>>, running: Option<nat>, stopped: bool, maximumPending: nat,
    tasks: seq<Task<S>>, published: seq<CalculationRequest<S>>, newest: Option<CalculationRequest<S>>)

  datatype Label<S> = Ask(snapshot: S) | Invalidate | Proceed(task: nat) | Stop | Cancelled(task: nat)

  function Initial<S>(): State<S> { State(0, None, None, false, 0, [], [], None) }

  /** The controller's own test: a task exists and is not done. */
  predicate Busy<S>(s: State<S>) { s.running.Some? && s.running.value < |s.tasks| && !s.tasks[s.running.value].Ended? }

  function Asked<S>(s: State<S>, snapshot: S): State<S> {
    if s.stopped then s
    else
      var r := CalculationRequest(s.generation + 1, snapshot);
      var t := s.(generation := s.generation + 1, newest := Some(r));
      if Busy(s) then t.(latest := Some(r), maximumPending := if s.maximumPending >= 1 then s.maximumPending else 1)
      else t.(running := Some(|s.tasks|), tasks := s.tasks + [Created(r)])
  }

  function Invalidated<S>(s: State<S>): State<S> { s.(generation := s.generation + 1, latest := None) }

  /** The task's first segment: into the executor, unless stopped. */
  function Begun<S>(s: State<S>, k: nat, r: CalculationRequest<S>): State<S>
    requires k < |s.tasks|
  {
    s.(tasks := s.tasks[k := if s.stopped then Ended else Working(r)])
  }

  /** A result arrives: publish it if nothing newer exists, then take the waiting request or end. */
  function Finished<S>(s: State<S>, k: nat, r: CalculationRequest<S>): State<S>
    requires k < |s.tasks|
  {
    s.(published := if !s.stopped && r.generation == s.generation then s.published + [r] else s.published,
       latest := None,
       tasks := s.tasks[k := if s.latest.Some? && !s.stopped then Working(s.latest.value) else Ended])
  }

  function Step<S>(s: State<S>, l: Label<S>): State<S> {
    match l
    case Ask(snapshot) => Asked(s, snapshot)
    case Invalidate => Invalidated(s)
    case Stop => Invalidated(s.(stopped := true))
    case Cancelled(k) => if s.stopped && k < |s.tasks| then s.(tasks := s.tasks[k := Ended]) else s
    case Proceed(k) =>
      if k >= |s.tasks| || s.tasks[k].Ended? then s
      else if s.tasks[k].Created? then Begun(s, k, s.tasks[k].request)
      else Finished(s, k, s.tasks[k].request)
  }

  function Run<S>(ls: seq<Label<S>>): State<S> {
    if ls == [] then Initial() else Step(Run(ls[..|ls| - 1]), ls[|ls| - 1])
  }

  // ---- the invariant -----------------------------------------------------------------------------

  ghost predicate Increasing<S>(rs: seq<CalculationRequest<S>>, limit: nat) {
    && (forall i, j :: 0 <= i < j < |rs| ==> rs[i].generation < rs[j].generation)
    && forall i :: 0 <= i < |rs| ==> rs[i].generation <= limit
  }

  /** Only the task the controller remembers can still be at work. */
  ghost predicate OneTask<S>(s: State<S>) {
    && (s.running.Some? ==> s.running.value < |s.tasks|)
    && forall k :: 0 <= k < |s.tasks| && !s.tasks[k].Ended? ==> s.running == Some(k)
  }

  /** The newest request that was not invalidated is waiting, at work, or the last one published. */
  ghost predicate NotLost<S>(s: State<S>) {
    !s.stopped && s.newest.Some? && s.newest.value.generation == s.generation ==>
      || s.latest == s.newest
      || (s.latest.None? && Busy(s) && s.tasks[s.running.value].request == s.newest.value)
      || (s.latest.None? && !Busy(s) && s.published != [] && s.published[|s.published| - 1] == s.newest.value)
  }

  ghost predicate BusyIsYounger<S>(s: State<S>) {
    Busy(s) ==>
      var r := s.tasks[s.running.value].request;
      && s.newest.Some? && r.generation <= s.newest.value.generation
      && (r.generation == s.newest.value.generation ==> s.newest.value == r)
      && forall i :: 0 <= i < |s.published| ==> s.published[i].generation < r.generation
  }

  ghost predicate Inv<S>(s: State<S>) {
    && OneTask(s) && NotLost(s) && BusyIsYounger(s) && (s.stopped ==> s.latest.None?)
    && Increasing(s.published, s.generation)
    && (s.newest.Some? ==> s.newest.value.generation <= s.generation)
    && (s.latest.Some? ==> Busy(s) && s.newest == s.latest
                           && s.tasks[s.running.value].request.generation < s.latest.value.generation)
  }

  lemma AskKeeps<S>(s: State<S>, snapshot: S)
    requires Inv(s)
    ensures Inv(Asked(s, snapshot))
  {
  }

  lemma InvalidateKeeps<S>(s: State<S>)
    requires Inv(s)
    ensures Inv(Invalidated(s))
  {
  }

  lemma FinishKeeps<S>(s: State<S>, k: nat, r: CalculationRequest<S>)
    requires Inv(s) && k < |s.tasks| && s.tasks[k] == Working(r)
    ensures Inv(Finished(s, k, r))
  {
  }

  lemma StepKeeps<S>(s: State<S>, l: Label<S>)
    requires Inv(s)
    ensures Inv(Step(s, l))
  {
    match l
    case Ask(snapshot) => AskKeeps(s, snapshot);
    case Invalidate => InvalidateKeeps(s);
    case Stop => InvalidateKeeps(s);
    case Cancelled(k) =>
    case Proceed(k) => if k < |s.tasks| && s.tasks[k].Working? { FinishKeeps(s, k, s.tasks[k].request); }
  }

  lemma {:induction false} RunKeeps<S>(ls: seq<Label<S>>)
    ensures Inv(Run(ls))
  {
    if ls == [] {
    } else {
      RunKeeps(ls[..|ls| - 1]);
      StepKeeps(Run(ls[..|ls| - 1]), ls[|ls| - 1]);
    }
  }

  // ---- what it gives -----------------------------------------------------------------------------

  predicate Quiet<S>(s: State<S>) { forall k :: 0 <= k < |s.tasks| ==> s.tasks[k].Ended? }

  /** Main result, in every reachable state: published generations strictly increase, at most one task is at work, and
      when none is, the last request that was neither invalidated nor stopped is the last thing published. */
  lemma NewestRequestWins<S>(ls: seq<Label<S>>)
    ensures var s := Run(ls);
      && Increasing(s.published, s.generation)
      && (forall j, k :: 0 <= j < |s.tasks| && 0 <= k < |s.tasks| && !s.tasks[j].Ended? && !s.tasks[k].Ended? ==> j == k)
      && (Quiet(s) && !s.stopped && s.newest.Some? && s.newest.value.generation == s.generation ==>
            s.published != [] && s.published[|s.published| - 1] == s.newest.value)
  {
    RunKeeps(ls);
  }

  /** A step publishes at most one result, and it belongs to the newest request of that moment. */
  lemma OnlyTheNewestIsPublished<S>(ls: seq<Label<S>>, l: Label<S>)
    ensures var s, t := Run(ls), Step(Run(ls), l);
      t.published == s.published
      || (!s.stopped && s.newest.Some? && s.newest.value.generation == s.generation
          && t.published == s.published + [s.newest.value])
  {
    RunKeeps(ls);
  }

  /** Task segments left before the controller is idle if nothing new happens. */
  function Remaining<S>(s: State<S>): nat {
    if !Busy(s) then 0
    else (if s.tasks[s.running.value].Created? then 2 else 1) + (if s.latest.Some? then 1 else 0)
  }

  lemma OneSegment<S>(s: State<S>)
    requires Inv(s) && s.running.Some? && !s.stopped
    ensures var t := Step(s, Proceed(s.running.value));
      && Inv(t) && t.running == s.running && !t.stopped && t.generation == s.generation && t.newest == s.newest
      && Remaining(t) <= if Remaining(s) == 0 then 0 else Remaining(s) - 1
  {
    StepKeeps(s, Proceed(s.running.value));
  }

  lemma IdleIsPublished<S>(s: State<S>)
    requires Inv(s) && !s.stopped && Remaining(s) == 0
    ensures Quiet(s) && s.latest.None?
    ensures s.newest.Some? && s.newest.value.generation == s.generation ==>
      s.published != [] && s.published[|s.published| - 1] == s.newest.value
  {
  }

  /** Three task segments without new events always empty an unstopped controller. */
  lemma ThreeSegmentsDrain<S>(ls: seq<Label<S>>)
    requires Run(ls).running.Some? && !Run(ls).stopped
    ensures var s := Run(ls);
      var p := Proceed(s.running.value);
      var t := Step(Step(Step(s, p), p), p);
      && Quiet(t) && t.latest.None?
      && (s.newest.Some? && s.newest.value.generation == s.generation ==>
            t.published != [] && t.published[|t.published| - 1] == s.newest.value)
  {
    RunKeeps(ls);
    var s := Run(ls);
    var p := Proceed(s.running.value);
    OneSegment(s);
    OneSegment(Step(s, p));
    OneSegment(Step(Step(s, p), p));
    IdleIsPublished(Step(Step(Step(s, p), p), p));
  }

  // ---- stopping ------------------------------------------------------------------------------------

  /** Nothing waits, nothing has been published since, and no request has been accepted. */
  ghost predicate StoppedSince<S>(s: State<S>, t: State<S>) {
    t.stopped && t.latest.None? && t.published == s.published && t.newest == s.newest
  }

  lemma StopStep<S>(s: State<S>, t: State<S>, l: Label<S>)
    requires StoppedSince(s, t)
    ensures StoppedSince(s, Step(t, l))
  {
  }

  /** A stop is final: whatever requests, invalidations and results come after it, nothing is published and nothing is
      accepted any more. */
  lemma {:induction false} StopIsFinal<S>(before: seq<Label<S>>, after: seq<Label<S>>)
    ensures StoppedSince(Run(before), Run(before + [Stop] + after))
  {
    var all := before + [Stop] + after;
    if after == [] {
      assert all[..|all| - 1] == before;
    } else {
      StopIsFinal(before, after[..|after| - 1]);
      assert all[..|all| - 1] == before + [Stop] + after[..|after| - 1];
      StopStep(Run(before), Run(all[..|all| - 1]), all[|all| - 1]);
    }
  }

  /** A stopped controller's task ends with its next segment or by being cancelled; a running one's is never
      cancelled. */
  lemma StoppedTasksEnd<S>(s: State<S>, k: nat)
    requires k < |s.tasks|
    ensures s.stopped && s.latest.None? ==> Step(s, Proceed(k)).tasks[k].Ended? && Step(s, Cancelled(k)).tasks[k].Ended?
    ensures !s.stopped ==> Step(s, Cancelled(k)) == s
  {
  }

  // ---- each event --------------------------------------------------------------------------------

  /** A request to a running controller becomes the newest; it waits behind a task at work, replacing whatever waited,
      or starts one of its own. */
  lemma AskExactly<S>(s: State<S>, snapshot: S)
    ensures var t := Step(s, Ask(snapshot));
      var r := CalculationRequest(s.generation + 1, snapshot);
      && (s.stopped ==> t == s)
      && (!s.stopped ==>
            && t.generation == r.generation && t.newest == Some(r) && t.published == s.published && !t.stopped
            && (Busy(s) ==> t.latest == Some(r) && t.tasks == s.tasks && t.running == s.running)
            && (!Busy(s) ==> t.latest == s.latest && t.tasks == s.tasks + [Created(r)] && t.running == Some(|s.tasks|)))
  {
  }

  /** A task's first segment leaves it at work on its request, and a later one publishes its result exactly when that
      is the newest generation of a running controller, and goes on to what waits. */
  lemma SegmentExactly<S>(s: State<S>, k: nat)
    requires k < |s.tasks|
    ensures var t := Step(s, Proceed(k));
      && t.generation == s.generation && t.newest == s.newest && t.stopped == s.stopped && t.running == s.running
      && |t.tasks| == |s.tasks| && (forall j :: 0 <= j < |s.tasks| && j != k ==> t.tasks[j] == s.tasks[j])
      && match s.tasks[k]
         case Ended => t == s
         case Created(r) =>
           t.tasks[k] == (if s.stopped then Ended else Working(r)) && t.published == s.published && t.latest == s.latest
         case Working(r) =>
           && t.latest.None?
           && t.tasks[k] == (if s.latest.Some? && !s.stopped then Working(s.latest.value) else Ended)
           && t.published == s.published + (if r.generation == s.generation && !s.stopped then [r] else [])
  {
  }

  /** An invalidation outdates everything at once. */
  lemma InvalidateExactly<S>(s: State<S>)
    ensures var t := Step(s, Invalidate);
      t == s.(generation := s.generation + 1, latest := None) && (s.latest.None? ==> t.newest == s.newest)
  {
  }

  ghost predicate HasWaited<S>(ls: seq<Label<S>>) { exists k :: 0 <= k <= |ls| && Run(ls[..k]).latest.Some? }

  lemma WaitedBefore<S>(ls: seq<Label<S>>)
    requires ls != []
    ensures HasWaited(ls) <==> HasWaited(ls[..|ls| - 1]) || Run(ls).latest.Some?
  {
    var front := ls[..|ls| - 1];
    assert ls[..|ls|] == ls;
    if k :| 0 <= k <= |front| && Run(front[..k]).latest.Some? { assert front[..k] == ls[..k]; }
    if k :| 0 <= k <= |ls| && Run(ls[..k]).latest.Some? { if k < |ls| { assert front[..k] == ls[..k]; } }
  }

  /** The greatest number of requests that ever waited is one, if any did, and else none. */
  lemma {:induction false} AtMostOneWaits<S>(ls: seq<Label<S>>)
    ensures Run(ls).maximumPending == if HasWaited(ls) then 1 else 0
  {
    if ls == [] {
      assert Run<S>([]).latest.None?;
      assert !HasWaited(ls);
    } else {
      AtMostOneWaits(ls[..|ls| - 1]);
      WaitedBefore(ls);
    }
  }

  // ---- the controller as the program keeps it ------------------------------------------------------

  class ZoneController<S> {
    var generation: nat
    var latest: Option<CalculationRequest<S>>
    var running: Option<nat>
    var stopped: bool
    var maximumPending: nat
    var completedJobs: nat
    var staleJobs: nat
    /** The event loop's tasks, and the history the results are stated about. */
    var tasks: seq<Task<S>>
    ghost var published: seq<CalculationRequest<S>>
    ghost var newest: Option<CalculationRequest<S>>

    ghost function View(): State<S>
      reads this
    {
      State(generation, latest, running, stopped, maximumPending, tasks, published, newest)
    }

    constructor ()
      ensures View() == Initial() && completedJobs == 0 && staleJobs == 0
    {
      generation, latest, running, stopped, maximumPending, completedJobs, staleJobs := 0, None, None, false, 0, 0, 0;
      tasks, published, newest := [], [], None;
    }

    method Request(snapshot: S) returns (asked: nat)
      modifies this
      ensures View() == Step(old(View()), Ask(snapshot)) && asked == generation
      ensures completedJobs == old(completedJobs) && staleJobs == old(staleJobs)
    {
      if stopped { return generation; }
      generation := generation + 1;
      var request := CalculationRequest(generation, snapshot);
      newest := Some(request);
      if running.Some? && running.value < |tasks| && !tasks[running.value].Ended? {
        latest := Some(request);
        maximumPending := if maximumPending >= 1 then maximumPending else 1;
      } else {
        running := Some(|tasks|);
        tasks := tasks + [Created(request)];
      }
      return request.generation;
    }

    method Invalidate() returns (current: nat)
      modifies this
      ensures View() == Step(old(View()), Label.Invalidate) && current == generation
      ensures completedJobs == old(completedJobs) && staleJobs == old(staleJobs)
    {
      generation := generation + 1;
      latest := None;
      current := generation;
    }

    /** A task's first segment, up to the executor. */
    method Begin(task: nat)
      requires task < |tasks| && tasks[task].Created?
      modifies this
      ensures View() == Step(old(View()), Proceed(task))
      ensures completedJobs == old(completedJobs) && staleJobs == old(staleJobs)
    {
      tasks := tasks[task := if stopped then Ended else Working(tasks[task].request)];
    }

    /** From the executor's answer round the loop, to the next wait or the end. */
    method Finish(task: nat)
      requires task < |tasks| && tasks[task].Working?
      modifies this
      ensures View() == Step(old(View()), Proceed(task))
      ensures completedJobs == old(completedJobs) + 1
      ensures staleJobs == old(staleJobs) + (if |published| == |old(published)| then 1 else 0)
    {
      var current := tasks[task].request;
      completedJobs := completedJobs + 1;
      if !stopped && current.generation == generation {
        published := published + [current];
      } else {
        staleJobs := staleJobs + 1;
      }
      var next := latest;
      latest := None;
      tasks := tasks[task := if next.Some? && !stopped then Working(next.value) else Ended];
    }

    /** Up to the wait for the cancelled task. */
    method RequestStop()
      modifies this
      ensures View() == Step(old(View()), Stop)
      ensures completedJobs == old(completedJobs) && staleJobs == old(staleJobs)
    {
      stopped := true;
      var _ := Invalidate();
    }
  }
}
