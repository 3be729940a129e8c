/** The release hysteresis in the running broker: whatever feedback, timeouts, journal writers and ownership events come
    between, and the one step that releases all the same, the echo of a command given up as uncertain. */
module BandRuns {
  import opened Contracts
  import opened Climate
  import opened Ownership
  import opened Broker
  import opened BrokerSystem
  import opened Hysteresis
  import DeliveryLimits

  /** An ordinary intent formed from some request of the band. */
  ghost predicate FromBand(i: Intent, band: seq<Request>, k: Kind, snapshot: Snapshot, o: Options) {
    exists q :: q in band && NormalizedIntent(q, k, snapshot, o, i) == Some(i)
  }

  ghost predicate AllFromBand(intents: set<Intent>, band: seq<Request>, k: Kind, snapshot: Snapshot, o: Options) {
    forall i :: i in intents ==> FromBand(i, band, k, snapshot, o)
  }

  /** The acknowledged target stores the intent's room values. */
  predicate RoomsOf(a: AckTarget, i: Intent) { a.room == i.room && a.low == i.roomLow && a.high == i.roomHigh }

  /** The intent a step lets go on to dispatch, if any. */
  function Dispatched(s: System, l: Label): Option<Intent> {
    if !Enabled(s, l) then None
    else match l
      case DoSubmit(i, now, _, _) => if Submit(s.gate, s.state, i, LivePreflight(s), now).Proceed? then Some(i) else None
      case DoDrain(now, _, _) =>
        var drained := s.state.(queued := None);
        if Submit(s.gate, drained, s.state.queued.value, LivePreflight(s), now).Proceed? then s.state.queued else None
      case _ => None
  }

  /** Room values do not depend on the identity, generations and times an intent carries. */
  lemma SameRooms(q: Request, k: Kind, snapshot: Snapshot, o: Options, i: Intent, j: Intent)
    requires NormalizedIntent(q, k, snapshot, o, i) == Some(i)
    ensures var n := NormalizedIntent(q, k, snapshot, o, j);
      n.Some? && n.value.room == i.room && n.value.roomLow == i.roomLow && n.value.roomHigh == i.roomHigh
  {
  }

  lemma BandIntentHolds(gate: bool, st: State, q0: Request, i0: Intent, q1: Request, i1: Intent, k: Kind,
      snapshot: Snapshot, o: Options, p: Preflight, now: Time)
    requires Close(q0, q1, k, snapshot, o)
    requires NormalizedIntent(q0, k, snapshot, o, i0) == Some(i0)
    requires NormalizedIntent(q1, k, snapshot, o, i1) == Some(i1)
    requires st.lastError.None? && st.acknowledged.Some?
    requires var a := st.acknowledged.value; a.room == i0.room && a.low == i0.roomLow && a.high == i0.roomHigh
    requires Submit(gate, st, i1, p, now).Proceed?
    ensures NoRelease(st.acknowledged.value, AckOf(i1, q1.shown), k)
  {
    SameRooms(q0, k, snapshot, o, i0, i1);
    if !NoRelease(st.acknowledged.value, AckOf(i1, q1.shown), k) {
      ReleaseIsAnswered(gate, st, q0, q1, k, snapshot, o, i1, p, now);
    }
  }

  /** In every run whose intents are all ordinary ones from a single band, a submit that goes on to dispatch with no
      failed write outstanding never lowers a heating end or raises a cooling end of the acknowledged target. */
  lemma InBandNothingIsReleased(s: System, run: seq<Label>, n: nat, band: seq<Request>, k: Kind, snapshot: Snapshot,
      o: Options)
    requires Initial(s) && n < |run| && InBand(band, k, snapshot, o)
    requires AllFromBand(At(s, run, n).submitted, band, k, snapshot, o)
    requires var i := Dispatched(At(s, run, n), run[n]); i.Some? && FromBand(i.value, band, k, snapshot, o)
    requires At(s, run, n).state.lastError.None? && At(s, run, n).state.acknowledged.Some?
    ensures NoRelease(At(s, run, n).state.acknowledged.value,
                      AckOf(Dispatched(At(s, run, n), run[n]).value, At(s, run, n).state.acknowledged.value.fingerprint), k)
  {
    var t := At(s, run, n);
    DeliveryLimits.AcknowledgementsAreGenuine(s, run, n);
    var i0 :| i0 in t.submitted && DeliveryLimits.AckFrom(t.state.acknowledged.value, i0);
    StepReleasesNothing(t, run[n], i0, band, k, snapshot, o);
  }

  lemma StepReleasesNothing(t: System, l: Label, i0: Intent, band: seq<Request>, k: Kind, snapshot: Snapshot,
      o: Options)
    requires InBand(band, k, snapshot, o) && FromBand(i0, band, k, snapshot, o)
    requires t.state.lastError.None? && t.state.acknowledged.Some?
    requires RoomsOf(t.state.acknowledged.value, i0)
    requires Dispatched(t, l).Some? && FromBand(Dispatched(t, l).value, band, k, snapshot, o)
    ensures NoRelease(t.state.acknowledged.value, AckOf(Dispatched(t, l).value, t.state.acknowledged.value.fingerprint), k)
  {
    var i1 := Dispatched(t, l).value;
    var q0 :| q0 in band && NormalizedIntent(q0, k, snapshot, o, i0) == Some(i0);
    var q1 :| q1 in band && NormalizedIntent(q1, k, snapshot, o, i1) == Some(i1);
    var st := if l.DoSubmit? then t.state else t.state.(queued := None);
    BandIntentHolds(t.gate, st, q0, i0, q1, i1, k, snapshot, o, LivePreflight(t), l.now);
  }

  // ---- over a stretch ----------------------------------------------------------------------------

  /** A band of requests, and the ordinary intents that are formed from them. */
  datatype Band = Band(requests: seq<Request>, kind: Kind, snapshot: Snapshot, options: Options, intents: iset<Intent>)

  ghost predicate Formed(i: Intent, b: Band) { FromBand(i, b.requests, b.kind, b.snapshot, b.options) }

  ghost predicate Proper(b: Band) {
    && InBand(b.requests, b.kind, b.snapshot, b.options)
    && forall i {:trigger Formed(i, b)} :: i in b.intents <==> Formed(i, b)
  }

  predicate Belongs(i: Intent, b: Band) { i in b.intents }

  /** Something is acknowledged and no failed write is outstanding. */
  predicate Calm(s: System) { s.state.lastError.None? && s.state.acknowledged.Some? }

  /** What a step submits belongs to the band. */
  ghost predicate SubmitsFrom(s: System, l: Label, b: Band) {
    (l.DoSubmit? ==> Belongs(l.intent, b)) && (l.DoDrain? && s.state.queued.Some? ==> Belongs(s.state.queued.value, b))
  }

  ghost predicate AcknowledgedFrom(s: State, b: Band) {
    s.acknowledged.Some? && exists i :: Belongs(i, b) && RoomsOf(s.acknowledged.value, i)
  }

  ghost predicate UncertainFrom(s: State, b: Band) {
    forall c :: c in s.uncertain ==> Belongs(c.intent, b) && c.requested == Requested(c.intent)
  }

  /** Acknowledging this intent would release nothing. */
  predicate Holding(s: State, i: Intent, k: Kind) {
    s.acknowledged.Some? && NoRelease(s.acknowledged.value, AckOf(i, s.acknowledged.value.fingerprint), k)
  }

  ghost predicate Tightens(s: State, i: Intent, b: Band) { Belongs(i, b) && Holding(s, i, b.kind) }

  /** While anything is uncertain, what is on its way is what the broker aims at. */
  predicate Aimed(s: System) {
    s.state.uncertain != [] ==>
      && (s.state.pending.Some? ==> s.state.goal == Some(Requested(s.state.pending.value.intent)))
      && (DeliveryLimits.Sending(s) ==> s.state.pending.Some? && s.state.pending.value.intent == s.flight.command.intent)
  }

  /** What is on its way tightens, and nothing on its way has been sent yet. */
  ghost predicate UnderWay(s: System, b: Band) {
    && (s.state.pending.Some? ==> Tightens(s.state, s.state.pending.value.intent, b))
    && (DeliveryLimits.Sending(s) ==> Tightens(s.state, s.flight.command.intent, b))
    && (DeliveryLimits.Sending(s) && s.state.pending.Some? ==> !s.state.pending.value.dispatched)
    && Aimed(s)
  }

  ghost predicate BandInv(s: System, b: Band) {
    Calm(s) && AcknowledgedFrom(s.state, b) && UncertainFrom(s.state, b) && UnderWay(s, b)
  }

  /** The acknowledged target has not been released between two states. */
  predicate Kept(s: State, t: State, k: Kind) {
    s.acknowledged.Some? && t.acknowledged.Some? && NoRelease(s.acknowledged.value, t.acknowledged.value, k)
  }

  /** The uncertain command this feedback would be taken to acknowledge. */
  function LateCommand(s: System, f: Feedback, now: Time): Option<Command> {
    if AutomaticEcho(s.gate, s.state, f, LivePreflight(s), now) then NewestLateMatch(s.state, s.state.uncertain, f)
    else None
  }

  /** Feedback that no pending command claims late-matches an uncertain command, and that command's room values release
      what is acknowledged. */
  predicate ReleasesLate(s: System, l: Label, k: Kind) {
    && Enabled(s, l) && ((l.DoFeedback? && s.state.pending.None?) || l.DoFeedbackTail?)
    && var c := LateCommand(s, l.feedback, l.now);
       c.Some? && !Holding(s.state, c.value.intent, k)
  }

  /** Where the stretch goes on, the invariant does, and nothing has been released. */
  ghost predicate Tightened(s: System, t: System, b: Band) {
    Calm(t) ==> BandInv(t, b) && Kept(s.state, t.state, b.kind) && NoneNew(s.state, t.state)
  }

  /** Nothing has become uncertain that was not. */
  predicate NoneNew(s: State, t: State) { t.uncertain == s.uncertain || t.uncertain == [] }

  lemma BandIntentsHaveRooms(i: Intent, b: Band)
    requires Proper(b) && Belongs(i, b)
    ensures !i.recovery && if b.kind.Both? then i.roomLow.Some? && i.roomHigh.Some? else i.room.Some?
  {
    assert Formed(i, b);
  }

  lemma KeptItself(s: State, b: Band)
    requires Proper(b) && AcknowledgedFrom(s, b)
    ensures Kept(s, s, b.kind)
  {
    var i :| Belongs(i, b) && RoomsOf(s.acknowledged.value, i);
    BandIntentsHaveRooms(i, b);
  }

  lemma GoesOnTightening(gate: bool, s: State, i: Intent, p: Preflight, now: Time, b: Band)
    requires AcknowledgedFrom(s, b) && s.lastError.None? && Belongs(i, b) && Proper(b)
    requires Submit(gate, s, i, p, now).Proceed?
    ensures Tightens(s, i, b)
  {
    var i0 :| Belongs(i0, b) && RoomsOf(s.acknowledged.value, i0);
    assert Formed(i0, b) && Formed(i, b);
    var q0 :| q0 in b.requests && NormalizedIntent(q0, b.kind, b.snapshot, b.options, i0) == Some(i0);
    var q1 :| q1 in b.requests && NormalizedIntent(q1, b.kind, b.snapshot, b.options, i) == Some(i);
    BandIntentHolds(gate, s, q0, i0, q1, i, b.kind, b.snapshot, b.options, p, now);
  }

  /** What BandInv looks at, when a step leaves the acknowledged target alone. */
  lemma BandCarries(s: System, t: System, b: Band)
    requires Proper(b) && BandInv(s, b)
    requires t.state.acknowledged == s.state.acknowledged && t.state.lastError.None?
    requires NoneNew(s.state, t.state)
    requires t.state.pending.Some? ==> Tightens(s.state, t.state.pending.value.intent, b)
    requires DeliveryLimits.Sending(t) ==> Tightens(s.state, t.flight.command.intent, b)
    requires DeliveryLimits.Sending(t) && t.state.pending.Some? ==> !t.state.pending.value.dispatched
    requires Aimed(t)
    ensures BandInv(t, b) && Kept(s.state, t.state, b.kind)
  {
    KeptItself(s.state, b);
  }

  lemma SubmitAims(gate: bool, s: State, i: Intent, p: Preflight, now: Time)
    requires !i.recovery
    ensures var r := Submit(gate, s, i, p, now);
      && r.state.acknowledged == s.acknowledged && r.state.lastError == s.lastError
      && (s.pending.Some? ==> r.Answered? && r.state.goal == s.goal)
      && (r.Proceed? ==> r.state.goal == Some(Requested(i)))
  {
  }

  /** A submit leaves the acknowledged target alone, and goes on only with an intent that tightens it. */
  lemma SubmitTightens(s: System, i: Intent, now: Time, id: string, context: string, b: Band)
    requires BandInv(s, b) && Proper(b) && Belongs(i, b) && MayDispatch(s, i, now, id)
    ensures Tightened(s, SubmitStep(s, i, now, id, context), b)
  {
    BandIntentsHaveRooms(i, b);
    var p := LivePreflight(s);
    DeliveryLimits.SubmitKeepsCommands(s.gate, s.state, i, p, now);
    SubmitAims(s.gate, s.state, i, p, now);
    if Submit(s.gate, s.state, i, p, now).Proceed? { GoesOnTightening(s.gate, s.state, i, p, now, b); }
    BandCarries(s, SubmitStep(s, i, now, id, context), b);
  }

  lemma DrainTightens(s: System, now: Time, id: string, context: string, b: Band)
    requires BandInv(s, b) && Proper(b) && Enabled(s, DoDrain(now, id, context)) && Belongs(s.state.queued.value, b)
    ensures Tightened(s, Apply(s, DoDrain(now, id, context)), b)
  {
    var drained := s.(state := s.state.(queued := None));
    BandCarries(s, drained, b);
    SubmitTightens(drained, s.state.queued.value, now, id, context, b);
  }

  // ---- feedback ----------------------------------------------------------------------------------

  /** What the feedback body does to the acknowledged target: the pending command's own confirmation, a late match, or
      nothing at all. */
  lemma BodyMoves(s: System, held: Option<Command>, f: Feedback, now: Time)
    requires |s.state.uncertain| <= MAX_WRITE_ATTEMPTS && (held.Some? ==> held == s.state.pending)
    ensures var t := FeedbackBody(s.gate, s.state, held, f, LivePreflight(s), now).state;
      var late := if held.None? then LateCommand(s, f, now) else None;
      t.lastError.None? ==>
        && t.uncertain == s.state.uncertain && t.goal == s.state.goal
        && if late.Some? then
             t.acknowledged == Some(AckTarget(f.observed, late.value.intent.room, late.value.intent.roomLow,
                                              late.value.intent.roomHigh, now))
             && t.pending == s.state.pending
           else if held.Some? && t.acknowledged != s.state.acknowledged then
             t.acknowledged == Some(AckTarget(f.observed, held.value.intent.room, held.value.intent.roomLow,
                                              held.value.intent.roomHigh, now))
             && t.pending.None?
           else t.acknowledged == s.state.acknowledged && (t.pending == s.state.pending || (t.pending.None? && held.Some?))
  {
  }

  /** The room value of a setpoint. */
  function RoomFor(ha: Option<real>, b: Band): Option<real> {
    if ha.None? then None else Some(ToCelsius(ha.value, b.snapshot.unit) - b.options.calibration)
  }

  lemma TargetRoom(requested: real, d: Direction, b: Band)
    requires Normalize(requested, d, b.snapshot, b.options).ScalarOk?
    ensures var t := Normalize(requested, d, b.snapshot, b.options).target;
      RoomFor(Some(t.ha), b) == Some(t.roomC)
  {
  }

  /** Every intent of a band has the room values of its own setpoint. */
  lemma RoomsFollow(i: Intent, b: Band)
    requires Proper(b) && Belongs(i, b)
    ensures i.room == RoomFor(i.temperature, b) && i.roomLow == RoomFor(i.low, b) && i.roomHigh == RoomFor(i.high, b)
  {
    assert Formed(i, b);
    var q :| q in b.requests && NormalizedIntent(q, b.kind, b.snapshot, b.options, i) == Some(i);
    match b.kind
    case Heat => TargetRoom(q.heating, HeatingOnly, b);
    case Cool => TargetRoom(q.cooling, CoolingOnly, b);
    case Both =>
      var r := NormalizeRange(q.heating, q.cooling, b.snapshot, b.options);
      RangeIsPair(q, r.heating, r.cooling, b.snapshot, b.options, i);
      TargetRoom(q.heating, HeatingOnly, b);
      TargetRoom(q.cooling, CoolingOnly, b);
  }

  /** Intents of a band that ask for the same setpoint have the same room values. */
  lemma SameSetpointSameRooms(i: Intent, j: Intent, b: Band)
    requires Proper(b) && Belongs(i, b) && Belongs(j, b) && Requested(i) == Requested(j)
    ensures i.room == j.room && i.roomLow == j.roomLow && i.roomHigh == j.roomHigh
  {
    RoomsFollow(i, b);
    RoomsFollow(j, b);
  }

  /** An acknowledgement with some intent's room values tightens exactly when that intent would. */
  lemma NewAcknowledgement(s: State, t: State, i: Intent, b: Band)
    requires Proper(b) && Belongs(i, b)
    requires s.acknowledged.Some? && t.acknowledged.Some? && RoomsOf(t.acknowledged.value, i)
    ensures AcknowledgedFrom(t, b) && (Kept(s, t, b.kind) <==> Holding(s, i, b.kind))
    ensures Holding(t, i, b.kind)
  {
    BandIntentsHaveRooms(i, b);
  }

  lemma LateAims(s: System, c: Command, f: Feedback, b: Band)
    requires Proper(b) && BandInv(s, b) && c in s.state.uncertain && LateMatch(s.state, c, f)
    ensures Belongs(c.intent, b) && s.state.goal == Some(Requested(c.intent))
    ensures s.state.pending.Some? ==> Requested(s.state.pending.value.intent) == Requested(c.intent)
    ensures DeliveryLimits.Sending(s) ==> Requested(s.flight.command.intent) == Requested(c.intent)
  {
  }

  lemma HoldsAlike(s: State, i: Intent, j: Intent, b: Band)
    requires Proper(b) && Belongs(i, b) && Belongs(j, b) && Requested(i) == Requested(j) && Holding(s, i, b.kind)
    ensures Tightens(s, j, b)
  {
    SameSetpointSameRooms(i, j, b);
  }

  /** A late match releases exactly when its command does, and what is on its way still tightens what it leaves. */
  lemma LateMoves(s: System, t: System, c: Command, f: Feedback, now: Time, b: Band)
    requires Proper(b) && BandInv(s, b) && c in s.state.uncertain && LateMatch(s.state, c, f)
    requires t == s.(state := t.state) && t.state.lastError.None? && t.state.uncertain == s.state.uncertain
    requires t.state.goal == s.state.goal && t.state.pending == s.state.pending
    requires t.state.acknowledged
          == Some(AckTarget(f.observed, c.intent.room, c.intent.roomLow, c.intent.roomHigh, now))
    ensures BandInv(t, b) && (Kept(s.state, t.state, b.kind) <==> Holding(s.state, c.intent, b.kind))
  {
    LateAims(s, c, f, b);
    NewAcknowledgement(s.state, t.state, c.intent, b);
    if s.state.pending.Some? { HoldsAlike(t.state, c.intent, s.state.pending.value.intent, b); }
    if DeliveryLimits.Sending(s) { HoldsAlike(t.state, c.intent, s.flight.command.intent, b); }
  }

  /** The pending command's own confirmation tightens, and leaves nothing on its way. */
  lemma ConfirmationMoves(s: System, t: System, f: Feedback, now: Time, b: Band)
    requires Proper(b) && BandInv(s, b) && s.state.pending.Some? && s.state.pending.value.dispatched
    requires t.flight == s.flight && t.state.lastError.None? && t.state.uncertain == s.state.uncertain
    requires t.state.pending.None?
    requires var i := s.state.pending.value.intent;
      t.state.acknowledged == Some(AckTarget(f.observed, i.room, i.roomLow, i.roomHigh, now))
    ensures BandInv(t, b) && Kept(s.state, t.state, b.kind)
  {
    NewAcknowledgement(s.state, t.state, s.state.pending.value.intent, b);
  }

  /** Feedback that reaches the body: it releases exactly by a late match. */
  lemma BodyReleases(s: System, t: System, held: Option<Command>, f: Feedback, now: Time, b: Band)
    requires Proper(b) && BandInv(s, b) && |s.state.uncertain| <= MAX_WRITE_ATTEMPTS
    requires held.Some? ==> held == s.state.pending && held.value.dispatched
    requires t == s.(state := t.state, store := t.store)
    requires t.state == FeedbackBody(s.gate, s.state, held, f, LivePreflight(s), now).state
    ensures var late := if held.None? then LateCommand(s, f, now) else None;
      Calm(t) ==> (
        && BandInv(t, b) && NoneNew(s.state, t.state)
        && (Kept(s.state, t.state, b.kind) <==> late.None? || Holding(s.state, late.value.intent, b.kind)))
  {
    BodyMoves(s, held, f, now);
    var late := if held.None? then LateCommand(s, f, now) else None;
    if Calm(t) {
      if late.Some? { LateMoves(s, t.(store := s.store), late.value, f, now, b); }
      else if t.state.acknowledged != s.state.acknowledged { ConfirmationMoves(s, t, f, now, b); }
      else { BandCarries(s, t, b); }
    }
  }

  /** The step releases exactly when its feedback late-matches a releasing command. */
  ghost predicate ReleasesExactly(s: System, l: Label, t: System, b: Band) {
    Calm(t) ==> (
      && BandInv(t, b) && NoneNew(s.state, t.state)
      && (Kept(s.state, t.state, b.kind) <==> !ReleasesLate(s, l, b.kind)))
  }

  lemma HeadReleases(s: System, f: Feedback, now: Time, b: Band)
    requires Proper(b) && BandInv(s, b) && Enabled(s, DoFeedback(f, now))
    ensures ReleasesExactly(s, DoFeedback(f, now), Apply(s, DoFeedback(f, now)), b)
  {
    var t := Apply(s, DoFeedback(f, now));
    if s.state.pending.Some? && !s.state.pending.value.dispatched {
      BandCarries(s, t, b);
    } else if !Overdue(s.state, now) {
      BodyReleases(s, t, s.state.pending, f, now, b);
    }
  }

  lemma TailReleases(s: System, f: Feedback, now: Time, b: Band)
    requires Proper(b) && BandInv(s, b) && Enabled(s, DoFeedbackTail(f, now))
    ensures ReleasesExactly(s, DoFeedbackTail(f, now), Apply(s, DoFeedbackTail(f, now)), b)
  {
    BodyReleases(s, Apply(s, DoFeedbackTail(f, now)), None, f, now, b);
  }

  // ---- the other steps ---------------------------------------------------------------------------

  lemma AnswerKeepsState(s: System, ok: bool)
    requires DeliveryLimits.Sending(s)
    ensures var r := Answer(s, ok).state;
      && r.acknowledged == s.state.acknowledged && r.lastError == s.state.lastError
      && r.uncertain == s.state.uncertain && r.goal == s.state.goal
      && (r.pending == s.state.pending || r.pending.None?
          || (Answer(s, ok).CallService? && r.pending == Some(s.flight.command)))
    ensures Answer(s, ok).MarkNext? ==>
      Answer(s, ok).command.intent == s.flight.command.intent && Answer(s, ok).state == s.state
  {
  }

  lemma AnswerTightens(s: System, ok: bool, b: Band)
    requires Proper(b) && BandInv(s, b) && HeadDone(s, ok) && DeliveryLimits.Sending(s)
    ensures Tightened(s, Continue(Released(s, ok), Answer(s, ok), s.flight.now, s.flight.late), b)
  {
    AnswerKeepsState(s, ok);
    BandCarries(s, Continue(Released(s, ok), Answer(s, ok), s.flight.now, s.flight.late), b);
  }

  lemma FinishTightens(s: System, ok: bool, b: Band)
    requires Proper(b) && BandInv(s, b) && HeadDone(s, ok)
    ensures Tightened(s, FinishStep(s, ok), b)
  {
    if Served(s) && DeliveryLimits.Sending(s) { AnswerTightens(s, ok, b); } else { BandCarries(s, FinishStep(s, ok), b); }
  }

  /** Steps of the journal and of the world, and those that drop what is waiting. */
  lemma QuietTightens(s: System, l: Label, b: Band)
    requires Proper(b) && BandInv(s, b) && Enabled(s, l)
    requires l.DoTick? || l.DoInvalidate? || l.DoCloseGate? || l.DoOwnership? || l.DoWorld?
          || l.JournalAsk? || l.JournalBegin? || l.JournalCommit?
    ensures Tightened(s, Apply(s, l), b)
  {
    BandCarries(s, Apply(s, l), b);
  }

  /** Steps that end a command: what they fail is no longer calm, and a resume forgets everything uncertain. */
  lemma EndingTightens(s: System, l: Label, b: Band)
    requires Proper(b) && BandInv(s, b) && Enabled(s, l)
    requires l.DoServiceReturn? || l.DoTimeout? || l.DoResume? || l.DoSuspend?
    ensures Tightened(s, Apply(s, l), b)
  {
    if Calm(Apply(s, l)) { BandCarries(s, Apply(s, l), b); }
  }

  lemma OthersTighten(s: System, l: Label, b: Band)
    requires BandInv(s, b) && Proper(b) && SubmitsFrom(s, l, b) && Enabled(s, l) && !l.DoFeedback? && !l.DoFeedbackTail?
    ensures Tightened(s, Apply(s, l), b)
  {
    if l.DoSubmit? { SubmitTightens(s, l.intent, l.now, l.id, l.contextId, b); }
    else if l.DoDrain? { DrainTightens(s, l.now, l.id, l.contextId, b); }
    else if l.JournalFinish? { FinishTightens(s, l.ok, b); }
    else if l.DoServiceReturn? || l.DoTimeout? || l.DoResume? || l.DoSuspend? { EndingTightens(s, l, b); }
    else { QuietTightens(s, l, b); }
  }

  lemma StepReleasesExactly(s: System, l: Label, b: Band)
    requires BandInv(s, b) && Proper(b) && SubmitsFrom(s, l, b)
    ensures ReleasesExactly(s, l, Step(s, l), b)
  {
    if !Enabled(s, l) { KeptItself(s.state, b); }
    else if l.DoFeedback? { HeadReleases(s, l.feedback, l.now, b); }
    else if l.DoFeedbackTail? { TailReleases(s, l.feedback, l.now, b); }
    else { OthersTighten(s, l, b); }
  }

  // ---- whole stretches ---------------------------------------------------------------------------

  ghost predicate BandAt(s: System, run: seq<Label>, k: nat, b: Band)
    requires k <= |run|
  {
    BandInv(At(s, run, k), b)
  }

  ghost predicate CertainAt(s: System, run: seq<Label>, k: nat)
    requires k <= |run|
  {
    |At(s, run, k).state.uncertain| == 0
  }

  ghost predicate KeptFrom(s: System, run: seq<Label>, i: nat, k: nat, b: Band)
    requires i <= k <= |run|
  {
    Kept(At(s, run, i).state, At(s, run, k).state, b.kind)
  }

  ghost predicate ReleasesLateAt(s: System, run: seq<Label>, k: nat, b: Band)
    requires k < |run|
  {
    ReleasesLate(At(s, run, k), run[k], b.kind)
  }

  ghost predicate CalmAt(s: System, run: seq<Label>, k: nat)
    requires k <= |run|
  {
    Calm(At(s, run, k))
  }

  ghost predicate SubmitsFromAt(s: System, run: seq<Label>, k: nat, b: Band)
    requires k < |run|
  {
    SubmitsFrom(At(s, run, k), run[k], b)
  }

  lemma StretchStep(s: System, run: seq<Label>, k: nat, b: Band)
    requires k < |run| && Proper(b) && BandAt(s, run, k, b) && CalmAt(s, run, k + 1) && SubmitsFromAt(s, run, k, b)
    ensures BandAt(s, run, k + 1, b) && (CertainAt(s, run, k) ==> CertainAt(s, run, k + 1))
    ensures KeptFrom(s, run, k, k + 1, b) <==> !ReleasesLateAt(s, run, k, b)
  {
    StepReleasesExactly(At(s, run, k), run[k], b);
  }

  /** At rest, with everything the broker remembers formed from the band: the acknowledged target and whatever is still
      uncertain. */
  ghost predicate AtRest(s: System, b: Band) {
    && Calm(s) && AcknowledgedFrom(s.state, b) && UncertainFrom(s.state, b) && s.state.pending.None?
    && !DeliveryLimits.Sending(s)
  }

  ghost predicate StartsAt(s: System, run: seq<Label>, i: nat, b: Band)
    requires i <= |run|
  {
    AtRest(At(s, run, i), b)
  }

  /** Every state of the stretch is calm and every intent submitted in it belongs to the band. */
  ghost predicate CalmStretch(s: System, run: seq<Label>, i: nat, j: nat, b: Band)
    requires i <= j <= |run|
  {
    && Proper(b) && StartsAt(s, run, i, b)
    && (forall k :: i <= k <= j ==> CalmAt(s, run, k))
    && forall k :: i <= k < j ==> SubmitsFromAt(s, run, k, b)
  }

  lemma StretchStarts(s: System, run: seq<Label>, i: nat, b: Band)
    requires i <= |run| && Proper(b) && StartsAt(s, run, i, b)
    ensures BandAt(s, run, i, b) && KeptFrom(s, run, i, i, b)
  {
    KeptItself(At(s, run, i).state, b);
  }

  lemma StretchHas(s: System, run: seq<Label>, i: nat, j: nat, k: nat, b: Band)
    requires i <= k <= j <= |run| && CalmStretch(s, run, i, j, b)
    ensures CalmAt(s, run, k) && (k < j ==> SubmitsFromAt(s, run, k, b))
  {
  }

  lemma StretchNext(s: System, run: seq<Label>, i: nat, j: nat, k: nat, b: Band)
    requires i <= k < j <= |run| && CalmStretch(s, run, i, j, b) && BandAt(s, run, k, b)
    ensures BandAt(s, run, k + 1, b) && (CertainAt(s, run, k) ==> CertainAt(s, run, k + 1))
    ensures KeptFrom(s, run, k, k + 1, b) <==> !ReleasesLateAt(s, run, k, b)
  {
    StretchHas(s, run, i, j, k, b);
    StretchHas(s, run, i, j, k + 1, b);
    StretchStep(s, run, k, b);
  }

  lemma {:induction false} BandGoesOn(s: System, run: seq<Label>, i: nat, j: nat, k: nat, b: Band)
    requires i <= k <= j <= |run| && CalmStretch(s, run, i, j, b)
    ensures BandAt(s, run, k, b)
    decreases k
  {
    if k == i { StretchStarts(s, run, i, b); }
    else {
      BandGoesOn(s, run, i, j, k - 1, b);
      StretchNext(s, run, i, j, k - 1, b);
    }
  }

  ghost function Certain(s: System, run: seq<Label>): nat -> bool { (k: nat) => k <= |run| && CertainAt(s, run, k) }

  lemma CertainNext(s: System, run: seq<Label>, i: nat, j: nat, k: nat, b: Band)
    requires i <= k < j <= |run| && CalmStretch(s, run, i, j, b) && Certain(s, run)(k)
    ensures Certain(s, run)(k + 1)
  {
    BandGoesOn(s, run, i, j, k, b);
    StretchNext(s, run, i, j, k, b);
  }

  lemma CertainGoesOn(s: System, run: seq<Label>, i: nat, j: nat, k: nat, b: Band)
    requires i <= k <= j <= |run| && CalmStretch(s, run, i, j, b) && CertainAt(s, run, i)
    ensures CertainAt(s, run, k)
  {
    var good := Certain(s, run);
    forall n: nat | i <= n < k && good(n) ensures good(n + 1) { CertainNext(s, run, i, j, n, b); }
    Chain(good, (n: nat) => 0, i, k);
  }

  /** Main result over a stretch of any run in which something stays acknowledged, no write fails and every intent is an
      ordinary one from a single band: a step lowers the acknowledged heating end or raises the cooling end exactly when
      its feedback late-matches an uncertain command that would. */
  lemma ReleasedExactlyByLateEchoes(s: System, run: seq<Label>, i: nat, j: nat, k: nat, b: Band)
    requires i <= k < j <= |run| && CalmStretch(s, run, i, j, b)
    ensures KeptFrom(s, run, k, k + 1, b) <==> !ReleasesLateAt(s, run, k, b)
  {
    BandGoesOn(s, run, i, j, k, b);
    StretchNext(s, run, i, j, k, b);
  }

  lemma KeptFurther(s: System, run: seq<Label>, i: nat, k: nat, b: Band)
    requires i <= k < |run| && KeptFrom(s, run, i, k, b) && KeptFrom(s, run, k, k + 1, b)
    ensures KeptFrom(s, run, i, k + 1, b)
  {
  }

  ghost function KeptGood(s: System, run: seq<Label>, i: nat, b: Band): nat -> bool {
    (k: nat) => i <= k <= |run| && KeptFrom(s, run, i, k, b)
  }

  lemma KeptNext(s: System, run: seq<Label>, i: nat, j: nat, k: nat, b: Band)
    requires i <= k < j <= |run| && CalmStretch(s, run, i, j, b) && KeptGood(s, run, i, b)(k)
    requires !ReleasesLateAt(s, run, k, b)
    ensures KeptGood(s, run, i, b)(k + 1)
  {
    ReleasedExactlyByLateEchoes(s, run, i, j, k, b);
    KeptFurther(s, run, i, k, b);
  }

  /** So without such an echo nothing is released from one end of the stretch to the other, whatever feedback, timeouts,
      journal writers and ownership events come between. */
  lemma AcknowledgedIsNeverReleased(s: System, run: seq<Label>, i: nat, j: nat, b: Band)
    requires i <= j <= |run| && CalmStretch(s, run, i, j, b)
    requires forall k :: i <= k < j ==> !ReleasesLateAt(s, run, k, b)
    ensures KeptFrom(s, run, i, j, b)
  {
    StretchStarts(s, run, i, b);
    var good := KeptGood(s, run, i, b);
    forall k: nat | i <= k < j && good(k) ensures good(k + 1) { KeptNext(s, run, i, j, k, b); }
    Chain(good, (k: nat) => 0, i, j);
  }

  lemma CertainIsNotLate(s: System, run: seq<Label>, k: nat, b: Band)
    requires k < |run| && CertainAt(s, run, k)
    ensures !ReleasesLateAt(s, run, k, b)
  {
  }

  /** In particular after a resume, which forgets everything uncertain: no such echo can come until a write has
      failed. */
  lemma NothingUncertainNothingReleased(s: System, run: seq<Label>, i: nat, j: nat, b: Band)
    requires i <= j <= |run| && CalmStretch(s, run, i, j, b) && CertainAt(s, run, i)
    ensures KeptFrom(s, run, i, j, b)
  {
    forall k | i <= k < j ensures !ReleasesLateAt(s, run, k, b) {
      CertainGoesOn(s, run, i, j, k, b);
      CertainIsNotLate(s, run, k, b);
    }
    AcknowledgedIsNeverReleased(s, run, i, j, b);
  }
}
