/** The echo of a command given up as uncertain can release what has been acknowledged since, whatever band the intents
    come from: a run from a fresh broker that does so. */
module LateEchoes {
  import opened Contracts
  import opened Ownership
  import opened Climate
  import opened Broker
  import opened Journal
  import opened BrokerSystem
  import opened Hysteresis
  import opened BandWidth
  import opened BandRuns
  import opened CallTiming
  import DeliveryLimits

  const MINUTE: Time := 60 * SECOND

  /** Two requests a hundredth of a degree apart, rounded to 20.0 and 20.5. */
  function Pair(): seq<Request> {
    var shown := Fingerprint(Scalar, None, None, None);
    [Request(20.0, 0.0, shown), Request(20.01, 0.0, shown)]
  }

  ghost function PairBand(): Band {
    Band(Pair(), Heat, DEVICE, Setting(0.0, None), iset i | FromBand(i, Pair(), Heat, DEVICE, Setting(0.0, None)))
  }

  function Cooler(): Intent { Ask(20.0, false) }

  function Warmer(): Intent { Ask(20.5, false).(continuous := Some(20.01)) }

  lemma PairIsClose()
    ensures InBand(Pair(), Heat, DEVICE, Setting(0.0, None))
  {
    SettingsGrid(0.0, None);
    assert SameBand(20.0, 20.01, HeatingOnly, DEVICE, Setting(0.0, None));
    assert SameBand(20.01, 20.0, HeatingOnly, DEVICE, Setting(0.0, None));
  }

  lemma CoolerIsFormed()
    ensures NormalizedIntent(Pair()[0], Heat, DEVICE, Setting(0.0, None), Cooler()) == Some(Cooler())
  {
    RoundedOnHalves(20.0, HeatingOnly, 0.0, None, 30);
  }

  lemma WarmerIsFormed()
    ensures NormalizedIntent(Pair()[1], Heat, DEVICE, Setting(0.0, None), Warmer()) == Some(Warmer())
  {
    RoundedOnHalves(20.01, HeatingOnly, 0.0, None, 31);
  }

  lemma PairIsABand()
    ensures Proper(PairBand()) && Belongs(Cooler(), PairBand()) && Belongs(Warmer(), PairBand())
  {
    PairIsClose();
    CoolerIsFormed();
    WarmerIsFormed();
  }

  // ---- the run -----------------------------------------------------------------------------------

  /** The cooler setpoint is sent at the start, never heard of, and given up after its thirty seconds. */
  function Unheard(): seq<Label> {
    Sending(Cooler(), 0, "a", "x", 0) + Forgotten()
  }

  function Forgotten(): seq<Label> { [DoTimeout(ACK_DEADLINE), DoServiceReturn(true)] + Tidied(MINUTE) }

  /** A minute later the warmer one is sent and acknowledged. */
  function Warmed(): seq<Label> {
    Sending(Warmer(), MINUTE, "b", "y", MINUTE) + CallTiming.Answered(Report(20.5), MINUTE, MINUTE)
  }

  /** The cooler one is asked for again, which the hysteresis answers; then its old echo arrives. */
  function Echo(): seq<Label> { [DoSubmit(Cooler(), MINUTE, "c", "z"), DoFeedback(Report(20.0), MINUTE)] }

  /** The cooler command, sent and never heard of. */
  predicate CoolerCommand(c: Command) {
    && c.dispatched && c.deadline == ACK_DEADLINE && c.contextId == "x"
    && c.intent == Cooler() && c.requested == Requested(Cooler())
  }

  lemma CoolerIsSent(m: ControlState) returns (t: System)
    requires "t" in m.actuators
    ensures t == At(Fresh(m), Sending(Cooler(), 0, "a", "x", 0), 8)
    ensures t.flight.InService? && CoolerCommand(t.flight.command) && t.state.pending == Some(t.flight.command)
    ensures t.target == "t" && t.gate && t.clock == 0 && t.live == Fresh(m).live && t.issued == {"a"}
    ensures t.state == FRESH.(pending := t.state.pending, goal := Some(Requested(Cooler())), attempts := 1,
                              lastDispatchAt := Some(0), writeStatus := AwaitingAck)
    ensures t.store.queue == [] && t.store.saving.None? && "t" in t.store.memory.actuators
  {
    t := FirstCall(m, false, 0);
  }

  /** At rest a minute after the start, with the cooler command uncertain. */
  predicate Waiting(s: System) {
    && Resting(s) && s.target == "t" && s.clock == MINUTE && s.live == Fresh(s.store.memory).live
    && |s.state.uncertain| == 1 && CoolerCommand(s.state.uncertain[0]) && s.state.pending.None?
  }

  lemma CoolerIsGivenUp(s: System) returns (t: System)
    requires s.flight.InService? && CoolerCommand(s.flight.command) && s.state.pending == Some(s.flight.command)
    requires s.target == "t" && s.gate && s.clock == 0 && s.live == Fresh(s.store.memory).live && s.issued == {"a"}
    requires s.state == FRESH.(pending := s.state.pending, goal := Some(Requested(Cooler())), attempts := 1,
                               lastDispatchAt := Some(0), writeStatus := AwaitingAck)
    requires s.store.queue == [] && s.store.saving.None? && "t" in s.store.memory.actuators
    ensures t == At(s, Forgotten(), 6) && Waiting(t) && t.issued == {"a"}
    ensures t.state == FRESH.(goal := Some(Requested(Cooler())), attempts := 1, lastDispatchAt := Some(0),
                              writeStatus := RetryPending, lastError := Some(AckTimeout), uncertain := t.state.uncertain)
  {
    var c := s.flight.command;
    var a := Step(s, DoTimeout(ACK_DEADLINE));
    assert a == s.(state := TimeOut(s.state), store := s.store.(queue := [Resolve(c)]));
    var b := Step(a, DoServiceReturn(true));
    assert b == a.(flight := Grounded);
    var first := [DoTimeout(ACK_DEADLINE), DoServiceReturn(true)];
    HeardAt(s, first, b);
    t := TidiedUp(b, c, MINUTE);
    OneAfterAnother(s, first, b, Tidied(MINUTE), t);
  }

  lemma WarmerIsSendable(s: System)
    requires Waiting(s) && s.issued == {"a"}
    requires s.state == FRESH.(goal := Some(Requested(Cooler())), attempts := 1, lastDispatchAt := Some(0),
                               writeStatus := RetryPending, lastError := Some(AckTimeout), uncertain := s.state.uncertain)
    ensures Sendable(s, Warmer(), MINUTE, "b")
    ensures var r := Submit(s.gate, s.state, Warmer(), LivePreflight(s), MINUTE);
      r.state == s.state.(goal := Some(Requested(Warmer())), attempts := 0, writeStatus := Idle)
  {
  }

  /** The warmer setpoint is acknowledged and no failed write is outstanding, with the cooler command still uncertain. */
  predicate Warm(s: System) {
    && Waiting(s) && s.state.lastError.None? && s.state.acknowledged.Some?
    && RoomsOf(s.state.acknowledged.value, Warmer())
    && s.state.acknowledged.value.fingerprint == Requested(Warmer())
  }

  lemma WarmerIsSent(s: System) returns (t: System)
    requires Waiting(s) && Sendable(s, Warmer(), MINUTE, "b")
    requires var r := Submit(s.gate, s.state, Warmer(), LivePreflight(s), MINUTE);
      r.state == s.state.(goal := r.state.goal, attempts := r.state.attempts, writeStatus := Idle)
    ensures t == At(s, Sending(Warmer(), MINUTE, "b", "y", MINUTE), 8)
    ensures t.flight.InService? && t.state.pending == Some(t.flight.command)
    ensures var c := t.flight.command;
      c.dispatched && c.deadline == MINUTE + ACK_DEADLINE && c.intent == Warmer() && c.requested == Requested(Warmer())
    ensures t.target == "t" && t.gate && t.clock == MINUTE && t.live == Fresh(t.store.memory).live
    ensures t.state.uncertain == s.state.uncertain
    ensures t.store.queue == [] && t.store.saving.None? && "t" in t.store.memory.actuators
  {
    t := CallIsReached(s, Sending(Warmer(), MINUTE, "b", "y", MINUTE), Warmer(), MINUTE, "b", "y", MINUTE);
  }

  lemma WarmerIsHeard(s: System) returns (t: System)
    requires s.flight.InService? && s.state.pending == Some(s.flight.command)
    requires var c := s.flight.command;
      c.dispatched && c.deadline == MINUTE + ACK_DEADLINE && c.intent == Warmer() && c.requested == Requested(Warmer())
    requires s.target == "t" && s.gate && s.clock == MINUTE && s.live == Fresh(s.store.memory).live
    requires |s.state.uncertain| == 1 && CoolerCommand(s.state.uncertain[0])
    requires s.store.queue == [] && s.store.saving.None? && "t" in s.store.memory.actuators
    ensures t == At(s, CallTiming.Answered(Report(20.5), MINUTE, MINUTE), 6) && Warm(t)
  {
    ConfirmationLaw(Contract(s.flight.command), Report(20.5));
    t := RestIsReached(s, s.flight.command, Report(20.5), MINUTE, MINUTE);
  }

  lemma WarmIsReached(m: ControlState) returns (t: System)
    requires "t" in m.actuators
    ensures t == At(Fresh(m), Unheard() + Warmed(), |Unheard() + Warmed()|) && Warm(t)
  {
    var a := CoolerIsSent(m);
    var b := CoolerIsGivenUp(a);
    OneAfterAnother(Fresh(m), Sending(Cooler(), 0, "a", "x", 0), a, Forgotten(), b);
    WarmerIsSendable(b);
    var c := WarmerIsSent(b);
    t := WarmerIsHeard(c);
    OneAfterAnother(b, Sending(Warmer(), MINUTE, "b", "y", MINUTE), c,
                    CallTiming.Answered(Report(20.5), MINUTE, MINUTE), t);
    OneAfterAnother(Fresh(m), Unheard(), b, Warmed(), t);
  }

  // ---- the echo ----------------------------------------------------------------------------------

  /** Asking for the cooler setpoint again is answered by the hysteresis, but the broker now aims at it. */
  lemma CoolerIsAnswered(s: System) returns (t: System)
    requires Warm(s)
    ensures t == Step(s, Echo()[0]) && t == s.(state := t.state, submitted := t.submitted)
    ensures t.state == s.state.(goal := Some(Requested(Cooler())), attempts := 0, writeStatus := Idle)
         || t.state == s.state.(goal := Some(Requested(Cooler())))
  {
    assert AntiChatter(Cooler(), s.state.acknowledged, s.state.lastDispatchAt, MINUTE) == Some(QuantizationHysteresis);
    t := Step(s, Echo()[0]);
  }

  lemma EchoIsLate(s: System)
    requires Waiting(s) && s.state.goal == Some(Requested(Cooler())) && s.state.acknowledged.Some?
    requires RoomsOf(s.state.acknowledged.value, Warmer())
    ensures LateCommand(s, Report(20.0), MINUTE) == Some(s.state.uncertain[0])
    ensures ReleasesLate(s, Echo()[1], Heat)
  {
    var c := s.state.uncertain[0];
    ConfirmationLaw(Contract(c), Report(20.0));
    assert Echoes(c, Report(20.0), true, MINUTE);
    assert LateMatch(s.state, c, Report(20.0));
  }

  lemma EchoReleases(s: System) returns (t: System)
    requires Waiting(s) && s.state.goal == Some(Requested(Cooler())) && s.state.acknowledged.Some?
    requires RoomsOf(s.state.acknowledged.value, Warmer()) && s.state.lastError.None?
    ensures t == Step(s, Echo()[1]) && Calm(t) && t.state.acknowledged.value.room == Some(20.0)
    ensures !Kept(s.state, t.state, Heat)
  {
    EchoIsLate(s);
    t := Step(s, Echo()[1]);
    assert t.state == FeedbackBody(s.gate, s.state, None, Report(20.0), LivePreflight(s), MINUTE).state;
  }

  function EchoRun(): seq<Label> { Unheard() + Warmed() + Echo() }

  predicate Shows(s: System, room: real) {
    s.state.acknowledged.Some? && s.state.acknowledged.value.room == Some(room)
  }

  ghost predicate ShowsAt(s: System, run: seq<Label>, k: nat, room: real)
    requires k <= |run|
  {
    Shows(At(s, run, k), room)
  }

  lemma WarmRests(s: System, b: Band)
    requires Warm(s) && Belongs(Cooler(), b) && Belongs(Warmer(), b)
    ensures AtRest(s, b)
  {
    assert RoomsOf(s.state.acknowledged.value, Warmer());
    assert forall c :: c in s.state.uncertain ==> c == s.state.uncertain[0];
  }

  lemma WarmStarts(s: System, run: seq<Label>, n: nat)
    requires n <= |run| && Warm(At(s, run, n))
    ensures StartsAt(s, run, n, PairBand()) && ShowsAt(s, run, n, 20.5)
  {
    PairIsABand();
    WarmRests(At(s, run, n), PairBand());
  }

  /** The state between the two steps. */
  lemma AnsweredAt(s: System, run: seq<Label>, n: nat)
    requires n < |run| && Warm(At(s, run, n)) && run[n] == Echo()[0]
    ensures var a := At(s, run, n + 1);
      && Waiting(a) && a.state.goal == Some(Requested(Cooler())) && Calm(a)
      && RoomsOf(a.state.acknowledged.value, Warmer())
  {
    var a := CoolerIsAnswered(At(s, run, n));
  }

  lemma ReleasedAt(s: System, run: seq<Label>, n: nat)
    requires n < |run| && run[n] == Echo()[1]
    requires var a := At(s, run, n);
      && Waiting(a) && a.state.goal == Some(Requested(Cooler())) && Calm(a)
      && RoomsOf(a.state.acknowledged.value, Warmer())
    ensures ReleasesLateAt(s, run, n, PairBand()) && CalmAt(s, run, n + 1) && ShowsAt(s, run, n + 1, 20.0)
  {
    EchoIsLate(At(s, run, n));
    var b := EchoReleases(At(s, run, n));
  }

  lemma EchoSubmits(s: System, run: seq<Label>, n: nat)
    requires n + 2 <= |run| && run[n] == Echo()[0] && run[n + 1] == Echo()[1]
    ensures SubmitsFromAt(s, run, n, PairBand()) && SubmitsFromAt(s, run, n + 1, PairBand())
  {
    PairIsABand();
  }

  lemma StretchOfTwo(s: System, run: seq<Label>, n: nat, b: Band)
    requires n + 2 <= |run| && Proper(b) && StartsAt(s, run, n, b)
    requires CalmAt(s, run, n) && CalmAt(s, run, n + 1) && CalmAt(s, run, n + 2)
    requires SubmitsFromAt(s, run, n, b) && SubmitsFromAt(s, run, n + 1, b)
    ensures CalmStretch(s, run, n, n + 2, b)
  {
  }

  lemma EchoStretch(s: System, run: seq<Label>, n: nat)
    requires n + 2 <= |run| && Warm(At(s, run, n)) && run[n] == Echo()[0] && run[n + 1] == Echo()[1]
    ensures CalmStretch(s, run, n, n + 2, PairBand()) && ReleasesLateAt(s, run, n + 1, PairBand())
    ensures ShowsAt(s, run, n, 20.5) && ShowsAt(s, run, n + 2, 20.0)
  {
    PairIsABand();
    WarmStarts(s, run, n);
    EchoSubmits(s, run, n);
    AnsweredAt(s, run, n);
    ReleasedAt(s, run, n + 1);
    StretchOfTwo(s, run, n, PairBand());
  }

  /** So an acknowledged 20.5 falls to 20.0 within a calm stretch of one band's intents, in a run from a fresh broker:
      the echo of a command given up half a minute earlier arrives just after the hysteresis has refused that very
      setpoint. */
  lemma LateEchoReleases(m: ControlState)
    requires "t" in m.actuators
    ensures var n := |Unheard() + Warmed()|;
      && Initial(Fresh(m)) && |EchoRun()| == n + 2
      && CalmStretch(Fresh(m), EchoRun(), n, n + 2, PairBand()) && ReleasesLateAt(Fresh(m), EchoRun(), n + 1, PairBand())
      && ShowsAt(Fresh(m), EchoRun(), n, 20.5) && ShowsAt(Fresh(m), EchoRun(), n + 2, 20.0)
  {
    var t := WarmIsReached(m);
    var before := Unheard() + Warmed();
    ThenAt(Fresh(m), before, t, Echo(), 0, EchoRun());
    EchoStretch(Fresh(m), EchoRun(), |before|);
  }
}
