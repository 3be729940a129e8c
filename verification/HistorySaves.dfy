/** How the outdoor history gets to storage: dirty and saved generations, one delayed timer, one tracked save task, and
    any number of overlapping saves behind a first-come lock. A store write may fail; serialisation does not. */
module HistorySaves {
  import opened Contracts

  /** A tracked task not yet run, a save waiting for the lock, one writing the generation it captured, and a done
      one. */
  datatype Save = Created | Waiting | Writing(generation: nat) | Done

  /** `stored` is the generation of the data in the last successful write. */
  datatype State = State(
    references: int, dirty: nat, saved: int, timer: bool, task: Option<nat>, saves: seq<Save>, holder: Option<nat>,
    queue: seq<nat>, stored: nat)

  datatype Label =
    | Change(rolled: bool) | Fire | Call | Resume(save: nat) | Answer(save: nat, ok: bool) | Acquire | Release

  /** A collector is created for its first user, with what was loaded as generation zero. */
  const INITIAL := State(1, 0, 0, false, None, [], None, [], 0)

  predicate InFlight(s: State) { exists k :: 0 <= k < |s.saves| && !s.saves[k].Done? }

  function Scheduled(s: State): State { if s.timer || s.references <= 0 then s else s.(timer := true) }

  predicate TaskBusy(s: State) { s.task.Some? && s.task.value < |s.saves| && !s.saves[s.task.value].Done? }

  function Started(s: State): State {
    if TaskBusy(s) then s else s.(saves := s.saves + [Created], task := Some(|s.saves|))
  }

  /** A save's first segment: drop the timer, then take the lock if nobody holds or awaits it. */
  function Entered(s: State, k: nat): State
    requires k < |s.saves|
  {
    if s.holder.None? && s.queue == [] then
      s.(timer := false, holder := Some(k), saves := s.saves[k := Writing(s.dirty)])
    else s.(timer := false, queue := s.queue + [k], saves := s.saves[k := Waiting])
  }

  function Granted(s: State, k: nat): State
    requires k < |s.saves|
  {
    if s.holder.None? && s.queue != [] && s.queue[0] == k then
      s.(holder := Some(k), queue := s.queue[1..], saves := s.saves[k := Writing(s.dirty)])
    else s
  }

  /** The store answers: record what is known to be saved, free the lock, and look for newer data once more. */
  function Answered(s: State, k: nat, generation: nat, ok: bool): State
    requires k < |s.saves|
  {
    var t := s.(saved := if ok then generation else generation - 1, stored := if ok then generation else s.stored,
                holder := None, saves := s.saves[k := Done]);
    if t.dirty != t.saved then Scheduled(t) else t
  }

  function Step(s: State, l: Label): State {
    match l
    case Change(rolled) =>
      var t := s.(dirty := s.dirty + 1);
      if rolled then Started(t) else Scheduled(t)
    case Fire => if s.timer then Started(s.(timer := false)) else s
    case Call => Entered(s.(saves := s.saves + [Created]), |s.saves|)
    case Resume(k) =>
      if k >= |s.saves| then s
      else if s.saves[k].Created? then Entered(s, k) else if s.saves[k].Waiting? then Granted(s, k) else s
    case Answer(k, ok) => if k < |s.saves| && s.saves[k].Writing? then Answered(s, k, s.saves[k].generation, ok) else s
    case Acquire => if s.references > 0 then s.(references := s.references + 1) else s
    case Release => s.(references := s.references - 1, timer := s.timer && s.references > 1)
  }

  function Run(ls: seq<Label>): State {
    if ls == [] then INITIAL else Step(Run(ls[..|ls| - 1]), ls[|ls| - 1])
  }

  // ---- the invariant -----------------------------------------------------------------------------

  ghost predicate LockIsExclusive(s: State) {
    && (s.holder.Some? ==> s.holder.value < |s.saves| && s.saves[s.holder.value].Writing?)
    && (forall k :: 0 <= k < |s.saves| && s.saves[k].Writing? ==> s.holder == Some(k))
  }

  ghost predicate QueueIsTheWaiting(s: State) {
    && (forall i :: 0 <= i < |s.queue| ==> s.queue[i] < |s.saves| && s.saves[s.queue[i]].Waiting?)
    && (forall i, j :: 0 <= i < j < |s.queue| ==> s.queue[i] != s.queue[j])
  }

  ghost predicate Generations(s: State) {
    && s.saved <= s.dirty && s.stored <= s.dirty && (s.saved == s.dirty ==> s.stored == s.dirty)
    && forall k :: 0 <= k < |s.saves| && s.saves[k].Writing? ==> s.stored <= s.saves[k].generation <= s.dirty
  }

  ghost predicate WillBeSaved(s: State) { s.references > 0 && s.dirty != s.saved ==> s.timer || InFlight(s) }

  ghost predicate Inv(s: State) {
    && LockIsExclusive(s) && QueueIsTheWaiting(s) && Generations(s) && WillBeSaved(s)
    && (s.task.Some? ==> s.task.value < |s.saves|)
  }

  lemma Pending(s: State, k: nat)
    requires k < |s.saves| && !s.saves[k].Done?
    ensures InFlight(s)
  {
  }

  lemma StartKeeps(s: State)
    requires Inv(s.(timer := true)) || Inv(s)
    ensures Inv(Started(s)) && InFlight(Started(s))
  {
    var t := Started(s);
    Pending(t, t.task.value);
  }

  lemma EnterKeeps(s: State, k: nat)
    requires Inv(s) && k < |s.saves| && s.saves[k].Created?
    ensures Inv(Entered(s, k))
  {
    Pending(Entered(s, k), k);
  }

  lemma GrantKeeps(s: State, k: nat)
    requires Inv(s) && k < |s.saves| && s.saves[k].Waiting?
    ensures Inv(Granted(s, k))
  {
    Pending(Granted(s, k), k);
  }

  lemma AnswerKeeps(s: State, k: nat, ok: bool)
    requires Inv(s) && k < |s.saves| && s.saves[k].Writing?
    ensures Inv(Answered(s, k, s.saves[k].generation, ok))
  {
  }

  lemma ChangeKeeps(s: State, rolled: bool)
    requires Inv(s)
    ensures Inv(Step(s, Change(rolled)))
  {
    var t := s.(dirty := s.dirty + 1);
    if rolled {
      assert Inv(t.(timer := true));
      StartKeeps(t);
    }
  }

  lemma CallKeeps(s: State)
    requires Inv(s)
    ensures Inv(Step(s, Call))
  {
    var t := s.(saves := s.saves + [Created]);
    Pending(t, |s.saves|);
    EnterKeeps(t, |s.saves|);
  }

  lemma ResumeKeeps(s: State, k: nat)
    requires Inv(s)
    ensures Inv(Step(s, Resume(k)))
  {
    if k < |s.saves| && s.saves[k].Created? { EnterKeeps(s, k); }
    if k < |s.saves| && s.saves[k].Waiting? { GrantKeeps(s, k); }
  }

  lemma UseKeeps(s: State, l: Label)
    requires Inv(s) && (l.Acquire? || l.Release?)
    ensures Inv(Step(s, l))
  {
  }

  lemma StepKeeps(s: State, l: Label)
    requires Inv(s)
    ensures Inv(Step(s, l))
  {
    match l
    case Change(rolled) => ChangeKeeps(s, rolled);
    case Fire => if s.timer { StartKeeps(s.(timer := false)); }
    case Call => CallKeeps(s);
    case Resume(k) => ResumeKeeps(s, k);
    case Answer(k, ok) => if k < |s.saves| && s.saves[k].Writing? { AnswerKeeps(s, k, ok); }
    case _ => UseKeeps(s, l);
  }

  lemma {:induction false} RunKeeps(ls: seq<Label>)
    ensures Inv(Run(ls))
  {
    if ls == [] {
    } else {
      RunKeeps(ls[..|ls| - 1]);
      StepKeeps(Run(ls[..|ls| - 1]), ls[|ls| - 1]);
    }
  }

  // ---- what it gives -----------------------------------------------------------------------------

  /** Main result, in every reachable state of a referenced collector: data that is not known to be saved has a timer
      armed or a save under way, and data taken to be saved is what the last successful write stored. */
  lemma UnsavedDataIsNeverForgotten(ls: seq<Label>)
    ensures var s := Run(ls);
      && (s.references > 0 && s.dirty != s.saved ==> s.timer || InFlight(s))
      && (s.dirty == s.saved ==> s.stored == s.dirty)
  {
    RunKeeps(ls);
  }

  /** Writes never overlap, and storage never goes back to older data. */
  lemma StorageOnlyMovesForward(ls: seq<Label>, l: Label)
    ensures var s := Run(ls);
      && (forall j, k :: 0 <= j < |s.saves| && 0 <= k < |s.saves| && s.saves[j].Writing? && s.saves[k].Writing? ==> j == k)
      && s.stored <= Step(s, l).stored <= Step(s, l).dirty
  {
    RunKeeps(ls);
    StepKeeps(Run(ls), l);
  }

  lemma WaitersAreInFlight(s: State)
    requires QueueIsTheWaiting(s) && s.queue != []
    ensures InFlight(s)
  {
    Pending(s, s.queue[0]);
  }

  /** Once everything under way has answered, one timer and one successful write bring storage up to date. */
  lemma OneFlushSettles(ls: seq<Label>)
    requires !InFlight(Run(ls)) && Run(ls).references > 0 && Run(ls).dirty != Run(ls).saved
    ensures var s := Run(ls);
      var k := |s.saves|;
      var t := Step(Step(Step(s, Fire), Resume(k)), Answer(k, true));
      t.saved == t.dirty == t.stored == s.dirty && !InFlight(t)
  {
    RunKeeps(ls);
    var s := Run(ls);
    if s.queue != [] { WaitersAreInFlight(s); }
    if s.holder.Some? { Pending(s, s.holder.value); }
  }

  // ---- each event --------------------------------------------------------------------------------

  /** The tracked save is not done. */
  predicate Saving(s: State) { s.task.Some? && s.task.value < |s.saves| && s.saves[s.task.value] != Done }

  /** One more tracked save, unless one is not done. */
  predicate SaveAsked(s: State, t: State) {
    if Saving(s) then t.saves == s.saves && t.task == s.task
    else t.saves == s.saves + [Created] && t.task == Some(|s.saves|)
  }

  /** New data is one generation younger than all before; a new day asks for a save at once, anything else within the
      delay, while somebody uses the collector. */
  lemma ChangeExactly(s: State, rolled: bool)
    ensures var t := Step(s, Change(rolled));
      && t.dirty == s.dirty + 1 && t.saved == s.saved && t.stored == s.stored && t.references == s.references
      && (rolled ==> SaveAsked(s, t) && t.timer == s.timer)
      && (!rolled ==> t.saves == s.saves && t.task == s.task && (t.timer <==> s.timer || s.references > 0))
  {
  }

  /** The timer asks for a save once. */
  lemma FireExactly(s: State)
    ensures var t := Step(s, Fire);
      && (!s.timer ==> t == s) && (s.timer ==> !t.timer && SaveAsked(s, t) && t.dirty == s.dirty && t.saved == s.saved)
  {
  }

  /** A save that begins drops the timer, and takes the lock only when nobody holds it or waits for it; otherwise it
      waits behind everybody else. It writes the data of the moment it gets the lock. */
  lemma BeginExactly(s: State, k: nat)
    requires k < |s.saves| && s.saves[k].Created?
    ensures var t := Step(s, Resume(k));
      && !t.timer && t.dirty == s.dirty && t.saved == s.saved && t.stored == s.stored && t.task == s.task
      && (s.holder.None? && s.queue == [] ==>
            t.holder == Some(k) && t.queue == [] && t.saves == s.saves[k := Writing(s.dirty)])
      && (s.holder.Some? || s.queue != [] ==>
            t.holder == s.holder && t.queue == s.queue + [k] && t.saves == s.saves[k := Waiting])
  {
  }

  /** A waiting save gets the free lock in its turn and not before. */
  lemma TurnExactly(s: State, k: nat)
    requires k < |s.saves| && s.saves[k].Waiting?
    ensures var t := Step(s, Resume(k));
      if s.holder.None? && s.queue != [] && s.queue[0] == k
      then t == s.(holder := Some(k), queue := s.queue[1..], saves := s.saves[k := Writing(s.dirty)])
      else t == s
  {
  }

  /** One that is writing or done has nothing to resume. */
  lemma NothingToResume(s: State, k: nat)
    requires k >= |s.saves| || s.saves[k].Writing? || s.saves[k].Done?
    ensures Step(s, Resume(k)) == s
  {
  }

  /** A save called directly begins at once. */
  lemma CallExactly(s: State)
    ensures Step(s, Call) == Step(s.(saves := s.saves + [Created]), Resume(|s.saves|))
  {
  }

  /** A failed write is tried again: while somebody uses the collector the timer is armed for it; a successful one of
      the newest data leaves the timer alone, and either frees the lock. */
  lemma AnswerExactly(s: State, k: nat, ok: bool)
    requires k < |s.saves| && s.saves[k].Writing? && s.saves[k].generation <= s.dirty
    ensures var t := Step(s, Answer(k, ok));
      var generation := s.saves[k].generation;
      && t.holder.None? && t.saves == s.saves[k := Done] && t.dirty == s.dirty && t.references == s.references
      && t.stored == (if ok then generation else s.stored) && (ok <==> t.saved == generation)
      && (ok && generation == s.dirty ==> t.timer == s.timer && t.saved == t.dirty)
      && (!ok || generation < s.dirty ==> t.saved < t.dirty && (t.timer <==> s.timer || s.references > 0))
  {
  }

  /** Users come and go; the last one to go takes the timer along, and nobody joins a collector that is gone. */
  lemma UsersExactly(s: State)
    ensures Step(s, Acquire) == if s.references > 0 then s.(references := s.references + 1) else s
    ensures var t := Step(s, Release);
      t == s.(references := s.references - 1, timer := t.timer) && (t.timer <==> s.timer && s.references > 1)
  {
  }

  /** So an unused collector never has a timer. */
  lemma {:induction false} TimerNeedsUser(ls: seq<Label>)
    ensures Run(ls).timer ==> Run(ls).references > 0
  {
    if ls != [] { TimerNeedsUser(ls[..|ls| - 1]); }
  }

  // ---- the collector as the program keeps it -------------------------------------------------------

  class OutdoorHistoryCollector {
    var references: int
    var dirtyGeneration: nat
    var savedGeneration: int
    var saveTimer: bool
    var saveTask: Option<nat>
    /** The event loop's saves, the lock with its waiters, and what the store holds. */
    var saves: seq<Save>
    var lockHolder: Option<nat>
    var lockQueue: seq<nat>
    ghost var stored: nat

    ghost function View(): State
      reads this
    {
      State(references, dirtyGeneration, savedGeneration, saveTimer, saveTask, saves, lockHolder, lockQueue, stored)
    }

    constructor ()
      ensures View() == INITIAL
    {
      references, dirtyGeneration, savedGeneration, saveTimer, saveTask := 1, 0, 0, false, None;
      saves, lockHolder, lockQueue, stored := [], None, [], 0;
    }

    method ScheduleSave()
      modifies this
      ensures View() == Scheduled(old(View()))
    {
      if saveTimer || references <= 0 { return; }
      saveTimer := true;
    }

    method StartSaveTask()
      modifies this
      ensures View() == Started(old(View()))
    {
      if saveTask.Some? && saveTask.value < |saves| && !saves[saveTask.value].Done? { return; }
      saveTask := Some(|saves|);
      saves := saves + [Created];
    }

    /** New data accepted, from a sample or at a day boundary. */
    method Changed(rolledOver: bool)
      modifies this
      ensures View() == Step(old(View()), Change(rolledOver))
    {
      dirtyGeneration := dirtyGeneration + 1;
      if rolledOver { StartSaveTask(); } else { ScheduleSave(); }
    }

    method TimerFires()
      modifies this
      ensures View() == Step(old(View()), Fire)
    {
      if !saveTimer { return; }
      saveTimer := false;
      StartSaveTask();
    }

    /** A save from its first line to the lock. */
    method BeginSave(save: nat)
      requires save < |saves| && saves[save].Created?
      modifies this
      ensures View() == Step(old(View()), Resume(save))
    {
      saveTimer := false;
      if lockHolder.None? && lockQueue == [] {
        lockHolder := Some(save);
        saves := saves[save := Writing(dirtyGeneration)];
      } else {
        lockQueue := lockQueue + [save];
        saves := saves[save := Waiting];
      }
    }

    /** The lock passes to the first waiter, which captures what it will write. */
    method LockGranted(save: nat)
      requires save < |saves| && saves[save].Waiting?
      modifies this
      ensures View() == Step(old(View()), Resume(save))
    {
      if lockHolder.None? && lockQueue != [] && lockQueue[0] == save {
        lockHolder, lockQueue := Some(save), lockQueue[1..];
        saves := saves[save := Writing(dirtyGeneration)];
      }
    }

    /** From the store's answer to the end of the save. */
    method StoreAnswered(save: nat, ok: bool)
      requires save < |saves| && saves[save].Writing?
      modifies this
      ensures View() == Step(old(View()), Answer(save, ok))
    {
      var savingGeneration: int := saves[save].generation;
      if ok {
        savedGeneration := savingGeneration;
        stored := savingGeneration;
      } else {
        savedGeneration := savingGeneration - 1;
      }
      lockHolder := None;
      saves := saves[save := Done];
      if dirtyGeneration != savedGeneration { ScheduleSave(); }
    }
  }
}
