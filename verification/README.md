# ATHB: command delivery, history, inversion and setpoint policy

ATHB computes an adaptive thermal comfort setpoint for each climate device of a zone and delivers it. This project
models what makes that delivery trustworthy, in the integration's own terms, and states what it keeps over whole runs.

- **Commands** (`Ownership`, `OwnershipRuns`, `Broker`, `SubmitLaw`, `FeedbackLaw`, `TargetBroker`, `Coordinator`,
  `Journal`, `CommandPersistence`, `Startup`, `BrokerSystem`, `JournalSafety`, `DispatchSafety`, `DeliveryLimits`,
  `CallTiming`). One target of a zone is a step system: the broker's record of it, the submit coroutine cut at its
  awaits, the zone journal behind its first-come lock, and the world the preflight reads. Between any two steps there
  may be feedback, a timeout, a resume, loss of the target, an ownership event, gate closing, another journal writer,
  a crash, or time passing: a call carries both the stamp its submit took and the instant it really starts, which lies
  two journal writes later. A disabled label changes nothing, so every sequence of labels is a run. The class `Target`
  holds the same fields as the broker's per-target record; each of its methods is one uninterrupted segment and is
  equal to the decision function the system steps with. `Delivery` drives such a record through whole runs, so that
  what is proved of the system holds of the object. `Startup` follows a start through the ownership writes after its
  record, to a second start that may cut them short.
- **Outdoor history** (`History`, `HistoryLaw`, `HistoryIntegrator`, `RunningMean`, `RunningMeanLaw`, `HistorySaves`).
  The incremental day integral with holds, its declarative sum, checkpoint and restore, the running mean, and the save
  protocol. Midnights are any strictly increasing function of the date, so days of 23 and 25 hours are covered.
- **Inversion** (`Inverse`, `RootExistence`, `RootSolver`, `Psychrometrics`, `ZonePipeline`). Scan, bisection and
  evaluation budget over an uninterpreted forward model and an uninterpreted saturation curve.
- **Setpoints** (`Climate`, `ClimateLaw`, `Hysteresis`, `BandWidth`, `BandRuns`, `LateEchoes`, `Policy`, `PolicyLaw`,
  `HeatingDemand`, `StaleHeating`). Grid projection, release hysteresis, critical demands, setback, Boost and slewing,
  the demand latch and the stale-heat ramp.
- **Jobs** (`ZoneJobs`). The latest-request-wins controller.

Temperatures are reals with the code's tolerances as constants; instants are whole microseconds.

## Where the code differs from what it says

- The release hysteresis of 0.1 C compares a bounded setpoint in actuator coordinates with a room value
  (`custom_components/athb/runtime.py:3408-3411`), so a calibration offset c is part of its width: 0.1 + c for heating
  and 0.1 - c for cooling. `BandWidth.WidthIsExact` and, for ranges, `BandWidth.RangeWidthIsExact` prove that width in
  both directions, and `BandWidth.SpentOffsetMovesAStep` shows nothing left of it from -0.1 downwards for heating and
  from +0.1 upwards for cooling.
- A setpoint the hysteresis has refused is still what the broker aims at from then on
  (`custom_components/athb/adapters/broker.py:632-636`). When the echo of an earlier command for it arrives, given up
  as uncertain long before, it is acknowledged and the hysteresis is bypassed. `BandRuns.ReleasedExactlyByLateEchoes`
  proves that this is the one way a calm stretch releases anything, and `LateEchoes.LateEchoReleases` gives a run from
  a fresh broker that does.
- The write intervals are kept between the stamps of submits, not between service calls: a stamp is taken before the
  target lock and two journal writes are awaited, and is what is stored as the dispatch time
  (`custom_components/athb/adapters/broker.py:606-789`); several targets share one stamp
  (`custom_components/athb/runtime.py:2827`). `CallTiming.RealGapExactly` says by what a caller can read off the clock
  exactly when the next call is sure to lie an interval after the last one, `DeliveryLimits.RealStartsAreSpaced` what
  is kept in any case, and `CallTiming.CallsCanComeClose` gives, for every wait up to the interval, a run whose calls
  lie that much closer. Expiry is judged by the same stamp.
- A start persists each target as enabled before it persists the resume gate
  (`custom_components/athb/runtime.py:350-378`, `3950-3963`). A crash between the two loses the gate, and likewise a
  restored override: `Startup.GateSurvivesExactly` and `Startup.OverrideSurvivesExactly` say exactly when the next
  start still has them, and `Startup.GateIsLostInBetween` gives a start, on a corrupt store, that loses the gate.
  Before anything is announced only the legacy marker loses it (`Journal.SecondRestart`,
  `Journal.SecondRestartCanLoseTheGate`).
- A replaced target is put behind the resume gate (`custom_components/athb/core/ownership.py:305-317`), but somebody
  setting it turns the gate into an override, and that runs out (`custom_components/athb/core/ownership.py:211-271`).
  `OwnershipRuns.ShutUntilLifted` names everything that lifts the gate, and `OwnershipRuns.TakeoverLiftsTheGate` says
  exactly when such a target is owned again without a resume.
- A sample refused for its hold has already replaced the held value
  (`custom_components/athb/core/history.py:303-312`). `History.Effect` says what it then counts as,
  `History.RunIsTheSum` sums such samples too, and `History.RefusedHoldStillCounts` says exactly when one changes the
  integral.
- The heat guard's own description excludes a second stale trial for one report.
  `StaleHeating.SecondStaleTrialExactly` says exactly which runs have one, and
  `StaleHeating.DroppedDemandBuysAnotherTrial` gives such a run.
- A DEEP setback may narrow a range below its gap. `Policy.RequestsStayApart` admits it only between limits that are
  wide enough, and `Policy.DeepClosesNarrowGap` shows that any narrower limits can lose the gap.

## Model

| member | source | states |
|---|---|---|
| Ownership.OwnershipLaw | custom_components/athb/core/ownership.py:134-357 | ownership is granted by a successful RECONCILED and nothing else, an external target or a preset that affects the target always revokes it, revisions never go back, and an unchanged revision means an unchanged state |
| Ownership.ConfirmationLaw | custom_components/athb/core/ownership.py:379-424 | exactly which feedback confirms a command; the context only tells the two confirmations apart |
| OwnershipRuns.ExternalChanges | custom_components/athb/core/ownership.py:211-239 | exactly which events set the target over, and which override durations are refused |
| OwnershipRuns.ResumeReconciles | custom_components/athb/core/ownership.py:272-284 | from any state a resume, or a clean restart, followed by RECONCILED owns the target exactly when target and data are ready at that moment |
| OwnershipRuns.EnableReconciles | custom_components/athb/core/ownership.py:153-167 | so does an enable, with the readiness it brings |
| OwnershipRuns.ResumeForgets | custom_components/athb/core/ownership.py:272-284 | a resume or an enable leaves no reason, expiry or gate |
| OwnershipRuns.ReconciledIsTold | custom_components/athb/core/ownership.py:168-197 | a RECONCILED that is not permitted is ignored; any other keeps the readiness it brings, and owns exactly when that is good enough |
| OwnershipRuns.DisableForgets | custom_components/athb/core/ownership.py:198-210 | disabling forgets reason, expiry and gate, a clean restart reason and gate |
| OwnershipRuns.ExpiryReconciles | custom_components/athb/core/ownership.py:256-271 | an overridden target is given back by its expiry exactly when the clock has reached it, and never without one |
| OwnershipRuns.TakeoverLasts | custom_components/athb/core/ownership.py:211-237 | from a takeover on the override lasts exactly as long as it was told to |
| OwnershipRuns.ModeChangeReconciles | custom_components/athb/core/ownership.py:240-255 | a mode change takes an owned target out of control exactly when it can be written, until RECONCILED decides |
| OwnershipRuns.ModeChangeFreesNothing | custom_components/athb/core/ownership.py:240-255 | and ends no override, gate or disablement |
| OwnershipRuns.ReturnReconciles | custom_components/athb/core/ownership.py:285-304 | a lost and returned target has to be reconciled again, with the readiness of its return |
| OwnershipRuns.ShutIsShut | custom_components/athb/core/ownership.py:305-357 | a replaced, disabled or gated target is out, with the start's own reason where it has one |
| OwnershipRuns.ShutUntilLifted | custom_components/athb/core/ownership.py:134-357 | it stays out through any events but an enable, a resume, a clean restart or somebody setting the target |
| OwnershipRuns.TakeoverLiftsTheGate | custom_components/athb/core/ownership.py:211-271 | a replaced target that somebody sets is owned again once that override has run out, without a resume |
| OwnershipRuns.OverrideStands | custom_components/athb/core/ownership.py:134-357 | an override stands, with reason and expiry, through any events but those that end it |
| OwnershipRuns.DeliveryReports | custom_components/athb/core/ownership.py:319-340 | delivery reports change no ownership, but for the late acknowledgement of a stored command fault |
| Broker.Remember | custom_components/athb/adapters/broker.py:514-518 | at most five uncertain commands are kept and the newest is always one of them |
| Broker.NewestLateMatch | custom_components/athb/adapters/broker.py:868-883 | the command found matches the current goal and the observation; none is found only when none does |
| SubmitLaw.SubmitGoesExactly | custom_components/athb/adapters/broker.py:606-708 | an intent goes on to the journal if and only if the gate is open, the world permits it, nothing is pending, the device is neither there already nor foreign, attempts are left, the interval has passed, and it is worth sending |
| SubmitLaw.ForeignIsRefused | custom_components/athb/adapters/broker.py:527-556 | a permitted submit with nothing pending is refused as foreign, with nothing queued, if and only if the device shows a setpoint, one is expected after rebasing, and it matches none within min(step/4, resolution) |
| SubmitLaw.FirstContactIsTrusted | custom_components/athb/adapters/broker.py:659-663 | a device met for the first time, or by recovery, may show any whole setpoint |
| SubmitLaw.HeldExactly | custom_components/athb/adapters/broker.py:272-347 | exactly what the release hysteresis holds, by shape, direction, rounding and distance from the acknowledged cell |
| SubmitLaw.RecoveryFinds | custom_components/athb/adapters/broker.py:637-658 | recovery that finds the device there acknowledges what it shows and clears the failure |
| SubmitLaw.AnswersQueue | custom_components/athb/adapters/broker.py:606-704 | what each answered submit leaves queued |
| SubmitLaw.RetryWaits | custom_components/athb/adapters/broker.py:680-692 | after a failed write an intent that comes too soon is kept for the retry |
| SubmitLaw.RecheckExactly | custom_components/athb/adapters/broker.py:729-786 | after each journal write the command goes on if and only if the gate is open, the world permits it and the device is not foreign |
| SubmitLaw.RecheckReasons | custom_components/athb/adapters/broker.py:729-786 | and is withdrawn for the first reason, gate before device or device before gate |
| SubmitLaw.PreflightReasons | custom_components/athb/adapters/broker.py:205-230 | each preflight refusal names its own cause |
| FeedbackLaw.ClassificationExactly | custom_components/athb/core/ownership.py:379-424 | exactly which reports confirm a command by context or by setpoint, refuse it, belong to somebody else, or are too old |
| FeedbackLaw.NothingPendingIsForeign | custom_components/athb/core/ownership.py:379-385 | with nothing pending a report is somebody else's |
| FeedbackLaw.EchoExactly | custom_components/athb/adapters/broker.py:451-473 | what is heard again: a remembered command, or a sent one within its deadline, that the report would confirm |
| FeedbackLaw.PendingIsConfirmed | custom_components/athb/adapters/broker.py:917-962 | a confirming report completes the pending command whatever else it may echo |
| FeedbackLaw.PendingIsRefused | custom_components/athb/adapters/broker.py:917-944 | a setpoint the device made of it is a failed write, remembered as uncertain, with a new baseline and nothing queued |
| FeedbackLaw.PendingIsOverruled | custom_components/athb/adapters/broker.py:917-944 | somebody else's setpoint drops the pending command without a failed write |
| FeedbackLaw.UserOverrules | custom_components/athb/adapters/broker.py:859-944 | a user's hand does so even where it looks like an echo |
| FeedbackLaw.PendingGoesOnWaiting | custom_components/athb/adapters/broker.py:859-944 | an older world's report and another command's echo leave it waiting |
| FeedbackLaw.StrangerChangesNothing | custom_components/athb/adapters/broker.py:859-930 | with nothing pending an unexplained report changes nothing |
| FeedbackLaw.LateEchoAcknowledges | custom_components/athb/adapters/broker.py:867-900 | an echo of the current goal's own command, given up before, acknowledges the newest such command |
| FeedbackLaw.ObsoleteEchoIsNoticed | custom_components/athb/adapters/broker.py:900-916 | any other echo counts as a failed write, with a fresh count, exactly when it shows that the device left the acknowledged setpoint |
| FeedbackLaw.ObsoleteEchoIsRepaired | custom_components/athb/adapters/broker.py:900-916 | and then a submit of that very setpoint goes out again, which would have been answered as unchanged |
| FeedbackLaw.WindowExactly | custom_components/athb/adapters/broker.py:844-858 | no answer to an unsent command; an overdue one is given up first |
| FeedbackLaw.TimeOutGivesUp | custom_components/athb/adapters/broker.py:964-981 | what giving up leaves |
| FeedbackLaw.ReturnExactly | custom_components/athb/adapters/broker.py:797-842 | a raising call is a failed write whose command stays pending; an answered or dropped one is not touched |
| FeedbackLaw.LastFiveAreRemembered | custom_components/athb/adapters/broker.py:514-518 | of commands given up one after another exactly the last five are remembered, in order |
| FeedbackLaw.RememberingTwice | custom_components/athb/adapters/broker.py:514-518 | one given up twice is remembered once |
| FeedbackLaw.CommandExactly | custom_components/athb/adapters/broker.py:709-724 | the registered command: thirty seconds to be answered, expecting the acknowledged setpoint |
| FeedbackLaw.LaunchExactly | custom_components/athb/adapters/broker.py:787-792 | a call counts one attempt and waits for a fresh answer |
| FeedbackLaw.DroppedExactly | custom_components/athb/adapters/broker.py:725-786 | a command that does not go on leaves the record as it was without it |
| FeedbackLaw.ResumeForgetsCommands | custom_components/athb/adapters/broker.py:566-585 | a resume keeps the acknowledgement and the last call's stamp only |
| FeedbackLaw.ResumeStartsAfresh | custom_components/athb/adapters/broker.py:566-585 | after it the device is met afresh and nothing is heard of old commands |
| FeedbackLaw.LossForgets | custom_components/athb/adapters/broker.py:587-594 | a lost target loses its acknowledgement only |
| TargetBroker.Target.SubmitIntent | custom_components/athb/adapters/broker.py:606-663 | the record and answer of a submit up to the live-target check are those of the decision function |
| TargetBroker.Target.AimAt | custom_components/athb/adapters/broker.py:632-636 | a changed goal clears attempts and write status, the same goal keeps them |
| TargetBroker.Target.FindAcknowledged | custom_components/athb/adapters/broker.py:637-658 | a recovery intent that finds the device at its setpoint acknowledges what was observed |
| TargetBroker.Target.SubmitAgainstKnown | custom_components/athb/adapters/broker.py:664-704 | live-target refusal, exhausted attempts, retry interval and anti-chatter, in that order, with what each leaves queued |
| TargetBroker.Target.BeginDispatch | custom_components/athb/adapters/broker.py:712-724 | the new command is pending, nothing is queued or completed, and it expects the acknowledged setpoint |
| TargetBroker.Target.PersistAnswered | custom_components/athb/adapters/broker.py:725-764 | after the journal's answer the command is dropped, withdrawn or marked, as the decision function says |
| TargetBroker.Target.MarkAnswered | custom_components/athb/adapters/broker.py:764-792 | after the dispatched mark the command is dropped, withdrawn or called, and only a call counts an attempt and a dispatch time |
| TargetBroker.Target.CallReturned | custom_components/athb/adapters/broker.py:793-842 | the outcome of a service call, feedback that came first and cancellation included |
| TargetBroker.Target.Feedback | custom_components/athb/adapters/broker.py:844-858 | feedback up to its first await, timing out an overdue command first |
| TargetBroker.Target.FeedbackRest | custom_components/athb/adapters/broker.py:859-944 | echoes are separated from the pending command's own feedback |
| TargetBroker.Target.EchoHeard | custom_components/athb/adapters/broker.py:867-916 | a late echo acknowledges the current goal's own command or reports an obsolete one |
| TargetBroker.Target.HeardAbout | custom_components/athb/adapters/broker.py:917-944 | acknowledgement, rejection and manual intervention, and which command's journal entry is then resolved |
| TargetBroker.Target.AcknowledgeBy | custom_components/athb/adapters/broker.py:946-962 | the acknowledged target is the observed setpoint with the command's room values; the attempt count stays |
| TargetBroker.Target.TimeOutPending | custom_components/athb/adapters/broker.py:964-981 | an overdue command becomes uncertain and counts as failed |
| TargetBroker.Target.Resume | custom_components/athb/adapters/broker.py:566-585 | a resume forgets the target's commands, goal, attempts and baseline and asks for the pending entry's resolution |
| TargetBroker.Target.TargetGone | custom_components/athb/adapters/broker.py:587-594 | a lost target forgets its acknowledgement |
| TargetBroker.Target.CloseGate | custom_components/athb/adapters/broker.py:558-561 | the gate closes and nothing stays queued |
| Coordinator.Delivery.Take | custom_components/athb/adapters/broker.py:606-991 | the record's own methods take the object exactly where the step system goes, for every label; from a consistent state it stays consistent, and a call it makes is safe at that moment |
| Coordinator.Delivery.Follow | custom_components/athb/adapters/broker.py:606-991 | so for every run, after which the object's calls are spaced, its acknowledgement is one some intent asked for, and its disk holds every call whose resolution is not stored, to be reported first by a restart |
| DispatchSafety.EveryCallIsSafe | custom_components/athb/adapters/broker.py:709-796 | in every interleaved run each call starts with the gate open, the target owned and ready, the intent's generations, revision and lease live, nothing foreign on the device, and that command stored as dispatched |
| DispatchSafety.NoCallUnderOverride | custom_components/athb/core/ownership.py:134-357 | after somebody else sets the target, directly or through a preset that affects it, no call starts before the next successful RECONCILED, and later ones carry a newer revision |
| DispatchSafety.OwnershipIsRegranted | custom_components/athb/core/ownership.py:134-357 | a run that goes from not owned to owned contains a granting RECONCILED |
| DispatchSafety.NoCallWhileShut | custom_components/athb/core/ownership.py:134-357 | after a target is disabled, replaced or gated, any later call is preceded by a lifting event and then a granting RECONCILED |
| DispatchSafety.FirstCallIsReconciled | custom_components/athb/core/ownership.py:168-197 | a run that starts without ownership makes no call before a granting RECONCILED |
| DispatchSafety.NoCallAfterCloseGate | custom_components/athb/adapters/broker.py:558-561 | no call starts after the gate has closed, whatever was already on its way |
| DispatchSafety.SubmitExactly | custom_components/athb/adapters/broker.py:606-724 | a submit is remembered as made, keeps its answer's record, and one that goes on is pending, on its way and asked for in the journal |
| DispatchSafety.DrainIsSubmit | custom_components/athb/adapters/broker.py:983-991 | a queued intent is offered again exactly as if submitted then |
| DispatchSafety.EndingsExactly | custom_components/athb/adapters/broker.py:566-585 | a deadline and a resume end the pending command and ask for its resolution |
| DispatchSafety.EventsExactly | custom_components/athb/adapters/broker.py:558-594 | what every other event touches, and what it leaves alone |
| DispatchSafety.CrashNeverForgetsACall | custom_components/athb/adapters/storage.py:305-323 | from a call until its resolution is stored, every snapshot a crash can leave holds it pending and dispatched, and recovery reports it first, clears every pending command and keeps overrides |
| JournalSafety.CallFacts | custom_components/athb/adapters/storage.py:426-461 | at a call the stored and the remembered entry are that very command, dispatched, and no earlier call is open |
| JournalSafety.StepKeeps | custom_components/athb/adapters/storage.py:397-461 | every step keeps the journal, queue, pending command and suspended submit consistent |
| JournalSafety.RunKeeps | custom_components/athb/adapters/storage.py:397-461 | so does every run |
| Journal.WriteFrame | custom_components/athb/adapters/storage.py:397-608 | a journal write changes the pending command of one target at most, and only by that target's command write |
| Journal.CommandWriteExactly | custom_components/athb/adapters/storage.py:397-461 | a command write records its command for its own target, and is refused only for an unknown one |
| Journal.OtherWriteExactly | custom_components/athb/adapters/storage.py:463-608 | every other writer changes its own part only; older values, unknown targets and a clean mark over a pending command are refused |
| Journal.LatchWaits | custom_components/athb/adapters/storage.py:542-562 | memory takes every write at once but the demand latch |
| Journal.RecoveryLaw | custom_components/athb/adapters/storage.py:611-721 | recovery reports an open command first exactly when there is one, keeps no command and nothing owned, every override, expiry and revision, the zone's settings, and calculated values only under the same configuration and strategy; it asks for a resume exactly when some stored gate does, and gates only targets not overridden |
| Journal.RecoveryReasons | custom_components/athb/adapters/storage.py:611-680 | each other reason is given exactly when there is one |
| Journal.UnreadableIsEmpty | custom_components/athb/adapters/storage.py:620-630 | without a readable snapshot a start is empty, and asks for a resume exactly when the store is corrupt |
| Journal.SecondRestart | custom_components/athb/adapters/storage.py:611-721 | when nothing is written between two starts, the resume gate survives exactly when some target not overridden carries another reason than the legacy marker |
| Journal.SecondRestartCanLoseTheGate | custom_components/athb/adapters/storage.py:611-721 | a loadable legacy snapshot whose gate is lost that way |
| CommandPersistence.VerifiedStore.WriteCritical | custom_components/athb/adapters/storage.py:305-323 | a write is verified exactly when saving and reading back both succeed and storage then holds that snapshot; a failed one never tears it |
| CommandPersistence.ZoneJournal.Perform | custom_components/athb/adapters/storage.py:426-608 | memory takes the candidate at once, the demand latch only once verified |
| CommandPersistence.ZoneJournal.Start | custom_components/athb/adapters/storage.py:354-395 | a start recovers what is stored, gives every configured target an entry, installs that record and replays nothing |
| CommandPersistence.StartedLaw | custom_components/athb/adapters/storage.py:354-395 | the record of a start holds exactly the configured targets: nothing owned or pending, an override exactly where one was stored, and the gate on every other one exactly when a resume is asked for |
| Startup.AnnouncesExactly | custom_components/athb/runtime.py:350-378 | what a start announces of a target, in order, from enabled to the gate |
| Startup.NothingIsAnnouncedOwned | custom_components/athb/runtime.py:350-378 | no start announces a target as owned |
| Startup.RestartIsReconciled | custom_components/athb/runtime.py:350-378 | between any restart and the first call lies a granting RECONCILED |
| Startup.NextLands | custom_components/athb/runtime.py:3545-3629 | the ownership writes of a start take the journal from one partly announced snapshot to the next |
| Startup.GateSurvivesExactly | custom_components/athb/runtime.py:350-378 | however many ownership writes of a start have landed when it is cut short, the next start asks for a resume exactly when some target still holds the gate |
| Startup.SettledGateSurvives | custom_components/athb/runtime.py:350-378 | once all of them have landed, one target that is not overridden keeps the gate |
| Startup.GateIsLostInBetween | custom_components/athb/runtime.py:350-378 | a start on a corrupt store asks for a resume and gates its target, and the snapshot left by its first ownership write asks for none |
| Startup.OverrideSurvivesExactly | custom_components/athb/runtime.py:3545-3629 | after a start that was cut short the next start still finds a stored override, with its expiry, exactly when nothing of it was announced, or it was announced itself and had not expired |
| DeliveryLimits.CallsAreSpaced | custom_components/athb/adapters/broker.py:379-385 | the submits behind k calls are stamped at least 10(k-1) seconds apart, with 60 s before each ordinary or post-failure one, and so far apart are the first stamp and the last call's real start |
| DeliveryLimits.RealStartsAreSpaced | custom_components/athb/adapters/broker.py:606-789 | the real starts of k calls lie at least 10(k-1) seconds less the first call's wait apart |
| CallTiming.CallIsReached | custom_components/athb/adapters/broker.py:606-796 | from rest, a permitted submit reaches its service call in eight steps, at whatever instant the journal answers |
| CallTiming.RealGapExactly | custom_components/athb/adapters/broker.py:606-796 | at rest with a call behind it, a broker given any intent it would send: in every continuation the next call really starts the required interval after the last one, if and only if that interval has passed by the clock when the intent is submitted |
| CallTiming.FirstCall | custom_components/athb/adapters/broker.py:606-796 | a fresh broker does reach a call |
| CallTiming.CallsCanComeClose | custom_components/athb/adapters/broker.py:606-962 | for every wait up to the interval, a run of acknowledged commands whose second call starts that much early; past the acknowledgement deadline the first one is acknowledged by its late echo |
| DeliveryLimits.AtMostFiveCalls | custom_components/athb/adapters/broker.py:787-821 | a failing streak makes at most five calls |
| DeliveryLimits.ThenWriteFailed | custom_components/athb/adapters/broker.py:633-679 | after five a permitted submit of the same goal answers write_failed |
| DeliveryLimits.AcknowledgementsAreGenuine | custom_components/athb/adapters/broker.py:637-962 | every acknowledged target is what some submitted intent asked for, within a quarter step and never more than the resolution, or within the resolution for a recovery intent, with that intent's room values |
| DeliveryLimits.UsersAcknowledgeNothing | custom_components/athb/adapters/broker.py:844-962 | no user-initiated observation changes what is acknowledged |
| BandRuns.InBandNothingIsReleased | custom_components/athb/adapters/broker.py:272-385 | in every run of ordinary intents from one band, a submit that goes out with no failed write outstanding never releases the acknowledged target |
| BandRuns.ReleasedExactlyByLateEchoes | custom_components/athb/adapters/broker.py:844-944 | along any stretch without a failed write or a lost target, with ordinary intents of one band, a step releases the acknowledged target exactly when its feedback late-matches an uncertain command whose room value is a release |
| BandRuns.AcknowledgedIsNeverReleased | custom_components/athb/adapters/broker.py:272-385 | so without such an echo the acknowledged heating end never falls and the cooling end never rises from one end of the stretch to the other |
| BandRuns.NothingUncertainNothingReleased | custom_components/athb/adapters/broker.py:566-585 | in particular nothing is released in a stretch that starts with nothing uncertain, as after a resume |
| LateEchoes.LateEchoReleases | custom_components/athb/adapters/broker.py:867-883 | a run from a fresh broker in which an acknowledged 20.5 falls to 20.0 within a calm stretch of one band |
| Hysteresis.QuantisationNeverChatters | custom_components/athb/adapters/broker.py:272-385 | once a request of a band is acknowledged, no later one of the band lowers a heating end or raises a cooling end, in all four rounding policies |
| Hysteresis.ReleaseIsAnswered | custom_components/athb/adapters/broker.py:693-704 | the submit itself answers such a request instead of sending it |
| Hysteresis.CellBoundary | custom_components/athb/adapters/broker.py:273-347 | a request lies on its own side of the release boundary of the cell it was rounded to, shifted by the calibration |
| BandWidth.NarrowBandHolds | custom_components/athb/adapters/broker.py:272-385 | on every grid a band narrower than 0.1 + c (heating) or 0.1 - c (cooling), less the grid's slack, never releases what is acknowledged |
| BandWidth.WidthIsExact | custom_components/athb/adapters/broker.py:272-385 | that width is exact up to the slack in both directions, for heating and cooling, every offset in [-3, 3] and all four rounding policies |
| BandWidth.NarrowRangeHolds | custom_components/athb/adapters/broker.py:272-385 | on every grid a range each of whose ends stays within its own width releases neither |
| BandWidth.RangeWidthIsExact | custom_components/athb/adapters/broker.py:272-385 | the two widths of a range are exact separately: going beyond either lets some pair of ranges release |
| BandWidth.SpentOffsetMovesAStep | custom_components/athb/runtime.py:3408-3411 | once the offset has used the width up, two requests a thousand-millionth of a degree apart move an acknowledged setpoint by 0.5 C |
| Climate.Projection | custom_components/athb/core/climate.py:331-416 | normalisation is a monotone idempotent projection onto legal grid points in all four rounding modes |
| Climate.LegalPointIsFixed | custom_components/athb/core/climate.py:346-395 | a legal grid point normalises to itself in every direction and mode |
| Climate.BuiltGridFits | custom_components/athb/core/climate.py:263-324 | a built grid's index limits are its bounds to a billionth of a step |
| Climate.RoundLaw | custom_components/athb/core/climate.py:346-366 | each rounding mode selects exactly the index in whose cell the position lies |
| ClimateLaw.UnitsConvert | custom_components/athb/core/climate.py:150-176 | units convert both ways, steps as differences |
| ClimateLaw.GridIsConfigured | custom_components/athb/core/climate.py:263-310 | a grid's step, origin and bounds, and exactly when the configuration is invalid |
| ClimateLaw.IndicesExactly | custom_components/athb/core/climate.py:300-324 | the indices are exactly the points within the bounds to a billionth of a step |
| ClimateLaw.GridFailsExactly | custom_components/athb/core/climate.py:300-324 | a grid fails exactly when its bounds hold no point or too many |
| ClimateLaw.BoundedExactly | custom_components/athb/core/climate.py:331-350 | which bound cuts a request |
| ClimateLaw.NormalizedExactly | custom_components/athb/core/climate.py:331-416 | a request lands on the point in whose cell it lies, if that is legal |
| ClimateLaw.NothingLands | custom_components/athb/core/climate.py:398-416 | without a grid nothing lands |
| ClimateLaw.RangeExactly | custom_components/athb/core/climate.py:419-459 | a range lands exactly when both ends do and stay apart |
| ClimateLaw.IdleIsClosest | custom_components/athb/runtime.py:1836-1877 | the idle target is the last grid point at or below room and comfort target |
| ClimateLaw.GuardIsLeast | custom_components/athb/runtime.py:3169-3222 | the guarded target is the request for the least of the three |
| Climate.IdleNeverHeatsMore | custom_components/athb/runtime.py:1836-1877 | an idle target never exceeds the comfort target, nor the room by more than the tolerance unless a bound forces it |
| Climate.GuardNeverRaises | custom_components/athb/runtime.py:3169-3222 | a guarded scalar command never exceeds a current setpoint that is a legal grid point |
| History.RunIsTheSum | custom_components/athb/core/history.py:269-326 | after any events, those refused for their order or their hold included, every day's integral, covered seconds and observations equal the declarative sums over the samples as they count |
| History.GoodHoldsCountAsTaken | custom_components/athb/core/history.py:294-320 | when every usable sample has a positive hold, those are exactly the samples taken, unchanged |
| History.EveryDayIsSane | custom_components/athb/core/history.py:93-102 | after any events coverage stays in [0, day length] and every mean lies between the least and greatest value that counts |
| History.AdvanceSplits | custom_components/athb/core/history.py:269-292 | splitting an advance changes nothing, gaps included |
| History.RestartIsInvisible | custom_components/athb/core/history.py:196-267 | restore from a checkpoint always succeeds, and whatever follows closes the same days with the same sums, coverage, counts and midnights and refuses the same events |
| History.RestoredIsTwin | custom_components/athb/core/history.py:210-249 | the restored state differs only in gaps, an expired hold and the days already closed |
| History.RefusedHoldStillCounts | custom_components/athb/core/history.py:301-312 | up to any boundary within the day, exactly when a sample refused for its hold changes the integral |
| HistoryLaw.GapExactly | custom_components/athb/core/history.py:93-102 | covered time ends a gap, uncovered time makes it longer, and the longest is kept |
| HistoryLaw.GapsAlwaysFit | custom_components/athb/core/history.py:93-102 | in every day of every run the longest gap and the covered time fit into the time gone by |
| HistoryLaw.StartsWithGap | custom_components/athb/core/history.py:168-195 | a first day begins with the gap since its midnight |
| HistoryLaw.RefusedExactly | custom_components/athb/core/history.py:294-326 | exactly which events are refused |
| HistoryLaw.HeldExactly | custom_components/athb/core/history.py:294-320 | what is held after a sample |
| HistoryLaw.SavedExactly | custom_components/athb/core/history.py:255-267 | what a checkpoint keeps |
| HistoryLaw.RestoredExactly | custom_components/athb/core/history.py:196-249 | which checkpoints are refused, and what is taken up from the others |
| HistoryIntegrator.Accumulator.AddSpan | custom_components/athb/core/history.py:93-102 | a span adds to integral and coverage or to the gap |
| HistoryIntegrator.DailyHistoryIntegrator.AdvanceSegment | custom_components/athb/core/history.py:269-292 | the loop computes the advance the sum is proved about |
| HistoryIntegrator.DailyHistoryIntegrator.AddSample | custom_components/athb/core/history.py:294-320 | new state and verdict of a sample |
| HistoryIntegrator.DailyHistoryIntegrator.AdvanceTo | custom_components/athb/core/history.py:322-326 | new state and verdict of an advance |
| RunningMean.RunningMeanIsBetween | custom_components/athb/core/history.py:352-425 | the running mean, diagnostic estimate included, lies between the means it had to choose from, and exists exactly when one of the last seven days has covered time |
| RunningMean.RunningMeanStaysWithinSamples | custom_components/athb/core/history.py:329-425 | over integrated days it lies between the least and greatest sample value |
| RunningMean.RepeatsAreNoticed | custom_components/athb/core/history.py:365-367 | the index by date is smaller than the list exactly when a date repeats |
| RunningMeanLaw.EstimateExactly | custom_components/athb/core/history.py:352-425 | the estimate is the Horner sum of the last seven days' means in alpha over that of their shares, by coverage where no day is usable, with count, fraction, newest and quality; it is refused exactly for alpha outside 0.6 to 0.9 or repeated dates |
| RunningMeanLaw.CountsIsUsable | custom_components/athb/core/history.py:67-73 | a day is usable when nine tenths of it are covered |
| RunningMeanLaw.NewestIsNewest | custom_components/athb/core/history.py:395-425 | the newest usable date is told |
| RunningMeanLaw.QualityExactly | custom_components/athb/core/history.py:395-425 | exactly when a mean is complete, partial, diagnostic or unavailable |
| RunningMeanLaw.MeanIsAverage | custom_components/athb/core/history.py:75-80 | a day's mean is its integral over its covered seconds |
| RunningMean.ComputeRunningMean | custom_components/athb/core/history.py:352-425 | the loops compute the estimate those lemmas are about |
| HistorySaves.UnsavedDataIsNeverForgotten | custom_components/athb/adapters/outdoor_history.py:415-506 | while referenced, unsaved data has a timer armed or a save under way, and data taken to be saved is stored |
| HistorySaves.StorageOnlyMovesForward | custom_components/athb/adapters/outdoor_history.py:466-504 | writes never overlap and stored data never goes back |
| HistorySaves.OneFlushSettles | custom_components/athb/adapters/outdoor_history.py:415-506 | once all saves have answered, one timer and one successful write bring storage up to date |
| HistorySaves.StepKeeps | custom_components/athb/adapters/outdoor_history.py:331-506 | every event and await keeps the lock exclusive, the queue in order and the generations consistent |
| HistorySaves.ChangeExactly | custom_components/athb/adapters/outdoor_history.py:352-357 | new data is one generation younger; a new day saves at once, anything else within the delay |
| HistorySaves.FireExactly | custom_components/athb/adapters/outdoor_history.py:415-435 | the timer asks for a save once |
| HistorySaves.BeginExactly | custom_components/athb/adapters/outdoor_history.py:466-471 | a save takes the lock only when nobody holds or awaits it, and writes the data of that moment |
| HistorySaves.TurnExactly | custom_components/athb/adapters/outdoor_history.py:466-471 | a waiting save gets the lock in its turn |
| HistorySaves.NothingToResume | custom_components/athb/adapters/outdoor_history.py:466-506 | a save that is writing or done has nothing to resume |
| HistorySaves.CallExactly | custom_components/athb/adapters/outdoor_history.py:466-471 | a save called directly begins at once |
| HistorySaves.AnswerExactly | custom_components/athb/adapters/outdoor_history.py:486-506 | a failed write is scheduled again, a successful one of the newest data schedules nothing |
| HistorySaves.UsersExactly | custom_components/athb/adapters/outdoor_history.py:587-640 | the last user takes the timer along |
| HistorySaves.TimerNeedsUser | custom_components/athb/adapters/outdoor_history.py:415-424 | an unused collector never has a timer |
| HistorySaves.OutdoorHistoryCollector.Changed | custom_components/athb/adapters/outdoor_history.py:352-357 | accepted data raises the dirty generation and starts or schedules a save |
| HistorySaves.OutdoorHistoryCollector.ScheduleSave | custom_components/athb/adapters/outdoor_history.py:415-424 | at most one timer, and none for an unreferenced collector |
| HistorySaves.OutdoorHistoryCollector.StartSaveTask | custom_components/athb/adapters/outdoor_history.py:426-435 | at most one tracked save at a time |
| HistorySaves.OutdoorHistoryCollector.BeginSave | custom_components/athb/adapters/outdoor_history.py:466-471 | a save drops the timer and takes or awaits the lock |
| HistorySaves.OutdoorHistoryCollector.StoreAnswered | custom_components/athb/adapters/outdoor_history.py:497-506 | success and failure record what is saved, and newer or unsaved data is scheduled again |
| Inverse.StrategyVotesIncrease | custom_components/athb/core/inverse.py:167-197 | five votes exist exactly when neutral lies strictly inside the comfort votes, and then strictly increase |
| Inverse.RootsAreOrdered | custom_components/athb/core/inverse.py:529-632 | for a nondecreasing evaluator all roots that succeed in one solve are in semantic order |
| Inverse.BisectKeepsOrder | custom_components/athb/core/inverse.py:478-526 | two votes bisected from one bracket end in equal or ordered cells, early exact hits included |
| Inverse.RootCell | custom_components/athb/core/inverse.py:400-526 | a successful root lies in the one sample or pair of neighbours around its vote |
| RootExistence.SolvedIsRoot | custom_components/athb/core/inverse.py:478-526 | every root that succeeds is a point of the evaluator within 0.002 of its vote, from a cell of at most 0.005 C |
| RootExistence.EveryReachableVoteIsSolved | custom_components/athb/core/inverse.py:383-632 | for an evaluator that increases steadily each vote is solved if and only if it lies between the two ends of the interval; the others are told which way they lie |
| RootExistence.CellSolves | custom_components/athb/core/inverse.py:478-526 | a vote strictly between two neighbouring samples of a nondecreasing evaluator that is steady there is solved between them |
| RootExistence.HitSolves | custom_components/athb/core/inverse.py:383-478 | a vote one sample hits is solved there exactly |
| RootExistence.PlateauIsRefused | custom_components/athb/core/inverse.py:383-478 | one that several samples hit is refused as ambiguous |
| RootExistence.AmbiguityIsRefused | custom_components/athb/core/inverse.py:383-478 | so is a vote crossed twice, or hit and crossed, on any scan |
| RootExistence.BracketExactly | custom_components/athb/core/inverse.py:400-420 | a pair of neighbours brackets a vote exactly when it lies strictly between theirs, either way round |
| RootExistence.NoBracketMeansOutside | custom_components/athb/core/inverse.py:400-478 | without a hit or a crossing the vote lies outside the samples, so the code for a missing bracket between them is never given |
| RootExistence.OutsideIsTold | custom_components/athb/core/inverse.py:400-478 | one outside the samples is told which way out |
| RootExistence.BisectFinds | custom_components/athb/core/inverse.py:478-501 | with halvings and evaluations to spare bisection narrows around the vote |
| RootExistence.FirstMissFailsAll | custom_components/athb/core/inverse.py:529-632 | a sample that cannot be evaluated fails all five with its code, and nothing after it is evaluated |
| RootExistence.FallFailsAll | custom_components/athb/core/inverse.py:529-632 | a fall of more than a ten-thousandth between neighbours fails all five |
| RootExistence.EmptyIntervalIsOutside | custom_components/athb/core/inverse.py:529-545 | an empty interval costs nothing |
| RootExistence.SolveKeepsBudget | custom_components/athb/core/inverse.py:107-118 | no solve spends more than its budget, and a spent one fails all five |
| Inverse.SolveIsCheap | custom_components/athb/core/inverse.py:529-632 | for any evaluator a five-root solve over at most 35 C takes at most 78 evaluations, and no larger cap changes it |
| Inverse.BisectIsShort | custom_components/athb/core/inverse.py:478-501 | bisection narrows within as many halvings as the bracket's width in tolerances has powers of two |
| RootSolver.EvaluationBudget.Consume | custom_components/athb/core/inverse.py:107-118 | one unit is taken while any is left |
| RootSolver.BisectRoot | custom_components/athb/core/inverse.py:478-526 | the loop computes the bisection the order is proved about, and spends the same budget |
| RootSolver.SolveOneRoot | custom_components/athb/core/inverse.py:383-526 | one root and the budget it leaves |
| RootSolver.SolveRequestedRoots | custom_components/athb/core/inverse.py:529-632 | the sampling loop, the monotonicity screen and the five roots in order |
| Psychrometrics.DewPointIsFound | custom_components/athb/core/psychrometrics.py:211-260 | dew-point bisection always reaches its 0.001 C width, in twenty halvings, around the crossing of the curve |
| Psychrometrics.WarmerIsUnsaturated | custom_components/athb/core/psychrometrics.py:175-208 | at or above the warm side of that bracket the saturation check passes |
| Psychrometrics.HumidityExactly | custom_components/athb/core/psychrometrics.py:175-208 | humidity is the vapour's share of saturation, 100 percent at most, and there is none exactly for a negative pressure, outside the range, or beyond the overshoot |
| Psychrometrics.DewPointExactly | custom_components/athb/core/psychrometrics.py:211-260 | exactly when there is a dew point, and why not |
| Psychrometrics.FindDewPoint | custom_components/athb/core/psychrometrics.py:211-260 | the loop computes that bisection |
| ZonePipeline.EveryCandidateIsUsable | custom_components/athb/core/inverse.py:235-281 | every candidate of the resulting interval passes the saturation check at a local temperature in [5, 40] |
| ZonePipeline.ZoneNeverMeetsItsLimits | custom_components/athb/core/pipeline.py:221-336 | a zone with up to eight critical locations takes at most 781 evaluations, so neither 3000 nor 48 is ever reached |
| ZonePipeline.LocationRootsAreOrdered | custom_components/athb/core/inverse.py:645-682 | all ten pairs are in order in every location's own solve |
| ZonePipeline.LocationVotesAreSolved | custom_components/athb/core/inverse.py:645-682 | where the model increases steadily over a location's own interval, every vote reached there is solved |
| ZonePipeline.CandidateExactly | custom_components/athb/core/inverse.py:235-281 | what temperature, surface temperature and humidity the model is asked at, and what is refused |
| ZonePipeline.SearchExactly | custom_components/athb/core/inverse.py:645-682 | the search interval, and when moisture is what limits it |
| ZonePipeline.NoDewPointNoRoots | custom_components/athb/core/inverse.py:645-660 | without a dew point there are no roots and no cost |
| ZonePipeline.CompletionExactly | custom_components/athb/core/inverse.py:284-328 | completion replaces exactly those outer roots that moisture limits and the descriptive search finds |
| ZonePipeline.CriticalInOrder | custom_components/athb/core/pipeline.py:221-336 | every critical location gets its own solve, in order |
| ZonePipeline.ZoneExactly | custom_components/athb/core/pipeline.py:221-336 | one evaluation for current conditions, then roots, completion, and critical locations when eligible |
| ZonePipeline.CompleteComfortRange | custom_components/athb/core/inverse.py:284-328 | only moisture-limited outer roots are completed, on the shared budget |
| ZonePipeline.CalculateZoneRoots | custom_components/athb/core/pipeline.py:221-336 | one budget flows through current conditions, roots, completion and critical locations |
| Policy.CriticalInfluence | custom_components/athb/core/policy.py:337-455 | critical influence is directional, at most 2 C, inside the guarded comfort edge, never more than asked, independent of order, and never closes the range |
| PolicyLaw.CriticalIsFull | custom_components/athb/core/policy.py:363-455 | critical demands get all the influence they may have: no eligible demand could get more within the caps, unless both ends together would close the gap, which drops both |
| PolicyLaw.RaisedIsUnique | custom_components/athb/core/policy.py:363-455 | only one heating target has that property |
| PolicyLaw.LoweredIsUnique | custom_components/athb/core/policy.py:363-455 | and only one cooling target |
| PolicyLaw.CriticalFails | custom_components/athb/core/policy.py:363-455 | exactly when critical targets cannot be formed |
| PolicyLaw.GoverningLocation | custom_components/athb/core/policy.py:337-360 | the governing location asks for most, the first by name among equals |
| PolicyLaw.SetbackWidens | custom_components/athb/core/policy.py:494-528 | Eco lowers the heating end and raises the cooling end by 2 C, 4 C or as configured; DEEP waits at the outer limits |
| PolicyLaw.BoostAims | custom_components/athb/core/policy.py:530-557 | a Boost aims its delta beyond neutral towards more conditioning, up to the outer limit or at a configured goal |
| PolicyLaw.RangeBoostAims | custom_components/athb/core/policy.py:530-557 | in a range both goals stay half a gap on their own side of neutral |
| PolicyLaw.BlindBoostKeeps | custom_components/athb/core/policy.py:530-557 | without neutral it keeps the comfort targets |
| PolicyLaw.RapidHeats | custom_components/athb/core/policy.py:558-616 | rapid Boost drives at the outer limit until the air is within reach of the goal, then stays with the goal |
| PolicyLaw.RapidCools | custom_components/athb/core/policy.py:558-616 | likewise for cooling |
| PolicyLaw.AdaptiveBoostAsks | custom_components/athb/core/policy.py:558-616 | any other Boost asks for its goals at once |
| PolicyLaw.SlewExactly | custom_components/athb/core/policy.py:619-623 | a request moves by what is asked, cut to half a degree in ten minutes |
| PolicyLaw.FirstRequestIsImmediate | custom_components/athb/core/policy.py:619-623 | a first request is not slewed |
| PolicyLaw.UpdateExactly | custom_components/athb/core/policy.py:626-756 | when an update is refused, drifts, or takes effect at once |
| PolicyLaw.ValidSettings | custom_components/athb/core/policy.py:626-660 | which settings are valid |
| Policy.SelectIgnoresOrder | custom_components/athb/core/policy.py:337-360 | the governing demand depends only on which demands there are |
| Policy.RequestsStayApart | custom_components/athb/core/policy.py:469-756 | over any run of ranged updates with one gap the requested ends never come closer than the gap |
| Policy.SlewKeepsGap | custom_components/athb/core/policy.py:619-623 | slewing both ends independently keeps any gap both pairs have |
| Policy.SlewingComposes | custom_components/athb/core/policy.py:619-623 | two slews towards one target are one slew over the sum of the times |
| Policy.DeepClosesNarrowGap | custom_components/athb/core/policy.py:494-503 | between any narrow limits a DEEP setback can close the gap, with roots and demands the solver can return for every gap up to 10 C |
| Policy.ApplyCriticalDemands | custom_components/athb/core/policy.py:363-455 | the step-by-step form computes the function those lemmas are about |
| Policy.BoostTargets | custom_components/athb/core/policy.py:530-557 | likewise for the Boost goals |
| HeatingDemand.LatchIsStable | custom_components/athb/core/policy.py:220-281 | a second look at the same inputs never flips the latch, and a set latch asks for heat wherever a clear one does |
| HeatingDemand.DemandExactly | custom_components/athb/core/policy.py:220-281 | heat is asked for exactly under Boost, below the comfort bound, while recovering from it, or while the room is short of the stop point and the latch was set, the shortfall starts it, or assistance does |
| HeatingDemand.ShortfallStarts | custom_components/athb/core/policy.py:269-278 | a room the start difference below its target turns an off latch on |
| HeatingDemand.WarmRoomRests | custom_components/athb/core/policy.py:258-281 | above the start point an off latch stays off, above the stop point a set one clears |
| HeatingDemand.ReasonsAreTold | custom_components/athb/core/policy.py:220-281 | each decision gives its own reason and the executable shortfall |
| HeatingDemand.DisorderIsRefused | custom_components/athb/core/policy.py:245-247 | deltas out of order are refused, and only those |
| HeatingDemand.ColderKeepsDemand | custom_components/athb/core/policy.py:220-281 | a colder room never withdraws a request |
| HeatingDemand.CyclesAreBounded | custom_components/athb/core/policy.py:258-281 | with fixed targets n cycles cost at least 2(n-1) swings of total temperature variation |
| HeatingDemand.SwingsCycle | custom_components/athb/core/policy.py:258-281 | n swings that each cross both points give n cycles |
| HeatingDemand.CyclesAreAttained | custom_components/athb/core/policy.py:258-281 | so the bound is attained but for the two tolerances |
| StaleHeating.OnlyNewsEndsWithdrawal | custom_components/athb/core/stale_heating.py:28-92 | exactly a strictly newer report ends a withdrawal, and its ramp is never restarted |
| StaleHeating.WithdrawalIsMonotone | custom_components/athb/core/stale_heating.py:28-114 | along a run without news the ramp target never rises and is the fallback from its start plus the maximum on |
| StaleHeating.HeatIsWithdrawn | custom_components/athb/core/stale_heating.py:28-114 | under uninterrupted demand and no news the target is the fallback by the longer patience time plus the ramp maximum |
| StaleHeating.PatienceIsExact | custom_components/athb/core/stale_heating.py:28-92 | under uninterrupted demand and no news a trial is withdrawn exactly from its end on, never before, and the ramp is dated to that end |
| StaleHeating.TrialStarts | custom_components/athb/core/stale_heating.py:41-66 | what trial demand or news starts, and on what evidence |
| StaleHeating.TrialGoesOn | custom_components/athb/core/stale_heating.py:76-92 | a trial goes on unchanged until its end |
| StaleHeating.RampGoesOn | custom_components/athb/core/stale_heating.py:67-75 | a ramp ends at its maximum and stays ended |
| StaleHeating.DropRests | custom_components/athb/core/stale_heating.py:48-58 | what dropping the demand leaves |
| StaleHeating.NewsIsLater | custom_components/athb/core/stale_heating.py:41-47 | news is a report strictly later than the evidence |
| StaleHeating.RampTarget | custom_components/athb/core/stale_heating.py:95-114 | the target imposed while withdrawing, and none otherwise |
| StaleHeating.RampEnds | custom_components/athb/core/stale_heating.py:95-114 | the ramp is over at its maximum whatever slope is configured |
| StaleHeating.SecondTrialExactly | custom_components/athb/core/stale_heating.py:28-92 | along any run without news from an idle guard, a second trial begins exactly when demand is dropped during a trial, before withdrawal, and returns |
| StaleHeating.SecondStaleTrialExactly | custom_components/athb/core/stale_heating.py:28-92 | a second stale trial for one report exactly when demand is dropped during a stale trial and, after that or a later dropped trial, first returns while the source is stale |
| StaleHeating.DroppedDemandBuysAnotherTrial | custom_components/athb/core/stale_heating.py:49-67 | a run with two stale trials for one report |
| ZoneJobs.NewestRequestWins | custom_components/athb/controller.py:53-82 | published generations strictly increase, at most one task works, and when none does the last request neither invalidated nor stopped is published |
| ZoneJobs.OnlyTheNewestIsPublished | custom_components/athb/controller.py:70-82 | each publication belongs to the newest request of that moment |
| ZoneJobs.ThreeSegmentsDrain | custom_components/athb/controller.py:70-82 | three task segments without new events empty an unstopped controller |
| ZoneJobs.StopIsFinal | custom_components/athb/controller.py:53-82 | after a stop nothing is published or accepted any more, whatever comes |
| ZoneJobs.StoppedTasksEnd | custom_components/athb/controller.py:70-82 | a stopped controller's task ends, a running one's is never cancelled |
| ZoneJobs.AskExactly | custom_components/athb/controller.py:53-63 | a request becomes the newest and waits or starts |
| ZoneJobs.SegmentExactly | custom_components/athb/controller.py:70-82 | a segment publishes exactly the newest generation of a running controller |
| ZoneJobs.InvalidateExactly | custom_components/athb/controller.py:65-68 | an invalidation outdates everything |
| ZoneJobs.AtMostOneWaits | custom_components/athb/controller.py:46-63 | the greatest number of waiting requests is one if any ever waited |
| ZoneJobs.ZoneController.Request | custom_components/athb/controller.py:53-63 | a request waits behind a running task or starts one |
| ZoneJobs.ZoneController.Invalidate | custom_components/athb/controller.py:65-68 | an invalidation raises the generation and drops the waiting request |
| ZoneJobs.ZoneController.Finish | custom_components/athb/controller.py:74-82 | a result is published or counted stale, and the waiting request is taken up |

## Left out

- DeliveryLimits.CallsAreSpaced: does not bound the distance between real starts, which the code does not keep (CallTiming.RealGapExactly); submits of one target are serialised up to their dispatch; two submits that both wait on the target lock would overwrite each other's pending command (`custom_components/athb/adapters/broker.py:705-723`).
- BandRuns.AcknowledgedIsNeverReleased: a stretch ends where a write fails, since the broker then compares with no acknowledged target at all (`custom_components/athb/adapters/broker.py:693-704`), and late echoes are the subject of BandRuns.ReleasedExactlyByLateEchoes.
- DeliveryLimits.AtMostFiveCalls: counted per failing streak, since an acknowledgement does not reset the attempts.
- DispatchSafety.CrashNeverForgetsACall: the claim runs until the resolution is stored, not until it is asked for; the runtime resumes the broker before its RESUME event, so a call may still start between the two.
- Startup.GateSurvivesExactly: ownership and readiness events that reach the journal between a start's own announcements are not part of it.
- JournalSafety.StepKeeps: one tracked target; the others appear as other writers of the journal.
- TargetBroker.Target.FeedbackRest: feedback that waits for a timeout's journal write may continue at any later moment, which allows more runs than the source.
- History.RestartIsInvisible: the gap counters are excluded, because a restore does not rebuild them exactly.
- HistoryIntegrator.DailyHistoryIntegrator.AddSample: non-finite and Boolean values and holds shorter than a microsecond are not represented.
- Hysteresis.QuantisationNeverChatters: each request that goes out is acknowledged before the next; the running broker is the subject of BandRuns.ReleasedExactlyByLateEchoes.
- HistorySaves.UnsavedDataIsNeverForgotten: serialisation does not raise, and a collector released by its last user is not used again.
- ZoneJobs.NewestRequestWins: the calculation does not raise.
- Inverse.RootsAreOrdered: the evaluator is assumed nondecreasing; the code screens its samples only.
- Climate.GuardNeverRaises: the scalar branch; the range branch treats its heating end the same way and only holds or raises the cooling end.
- ZonePipeline.CalculateZoneRoots: the policy's decision whether to go on to the critical locations is any function of the primary roots, and a critical location solves as the primary one does.
- Policy.CriticalInfluence: limitation labels, which are diagnostics, and the textual location names, which are represented by their order.
- Refused naive datetimes, JSON text, schema versions and date parsing; a payload digest is represented by its payload.
- The forward comfort model, radiant, surface and skin models: exponentials and fourth roots, kept as one uninterpreted evaluator.
- Floating-point rounding: every claim is over the reals with the code's explicit tolerances.
- The bidirectional scalar mapping, the manual heating fallback, profile and occupancy resolution, fixed fallbacks, source conversion and the lease registry: single-step decisions.
- Entities, configuration flow, diagnostics, repairs and the recorder adapter: plumbing.
- Event-loop fairness.
