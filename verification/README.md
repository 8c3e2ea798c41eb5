# Railway maintenance planning: lifecycle, possession windows and bounded stores

A Dafny model of three parts of a railway maintenance planning service, with
proofs of what they guarantee.

**The maintenance-job lifecycle.** A job moves through reported, scheduled,
notified, in_progress and completed. Planners return row mutations and events;
one guard judges every mutation, two tokens gate the moves that start, end or
release work, and a batch check ties the tokens to the events. Execution
attempts are never stored: they are derived again from the append-only history.

- `JobModel`, `Guard`, `EventBacking`: rows, events, the guard and the batch check.
- `GuardedWrites`: the repository, and what the guard forces on any planner whatever.
- `Execution`: the derivation of execution records, as an acceptor of histories.
- `Planners`, `JobInvariant`, `StoreInvariant`: the shipped planners and the
  invariant that couples a row, its journal, its latest proposal and its records.
- `ServiceRuns`, `PlannerEffects`, `Approvals`: whole runs of the service from an
  empty store, what the planners record, and which approved blocks have a way out.
- `DecisionEffects`, `OutcomeEffects`, `JobOrigins`: exactly when each command takes
  effect and what it makes of every job and history.

**Timetable to possession windows.** Day-less clock readings are lifted to
absolute minutes, legs are expanded over the sections they cross, traversals are
buffered, merged and swept, and what no train touches becomes a window.

- `ClockText`, `ClockLift`, `SnapshotClocks`, `HorizonAnchor`: clocks.
- `Topology`, `TrainConversion`, `TrainOccupation`, `SkippedStops`, `TrainTimes`: one train.
- `PossessionWindows`, `SnapshotWindows`: intervals and windows.
- `Rejections`, `FailClosed`: whole timetables and rejected trains.
- `SafeWindows`: from the records to the windows, end to end.

**Time-bounded stores and field locations.** `Sessions`, `SessionRuns` and
`SessionActivity`, `ReplayGuard`, `KeyCache`; and `SectionRegistry` with `FieldLocation`, where a
converter and a resolver written independently must agree.

Loops over dictionaries, lists and fields are methods and classes proved against
a specification; expressions and frozen records are functions and datatypes.
Identifiers are strings, moments and minutes are integers, a digest is the tuple
of the fields it covers, chainages are whole millimetres.

Where the code and its documentation differ, the code is modelled:

- An execution id is matched with a pattern ending in `$`, which also accepts a
  trailing newline (`backend/app/jobs/execution.py:61`).
- Mutations of a batch are judged against the rows as read, so two mutations of
  one job may both be accepted where one would bar the other. Conservation holds
  exactly when the job's last mutation carries the tokens any of them does:
  `RunsConserveExactly`, with `DuplicateMutationBreaksConservation` as a batch
  that fails and `PlannedBatchesAreDistinct` for the shipped planners.
- Approval does not ask that a block name a run, but both ways out of `notified`
  do, and refuse a blank name. A block approved with no run, assigned directly,
  or with a blank one, proposed under it, has no way out; every other approved
  block has one: `WayOutInEveryRun`.
- "A rejection can only ever remove opportunity" holds exactly under the
  condition of `AddingRejectionOnlyRemoves`: an unknown route replaces the
  withheld set by the corridor's sections and so drops sections from elsewhere.
  Snapshots made by `convert_timetable` on one corridor always meet it
  (`AddingToTimetableOnlyRemoves`).
- "A malformed train does not abort the batch" fails for errors that are not
  among those caught: the `ValueError` of a compound track identifier, of a delay
  or a stated day that is not a number, and of a negative rollover bound, and the
  `OverflowError` of a date past year 9999. Each escapes only if no check before
  it fails: `TimetableLostExactly` gives the exact condition, `LegibleNeverAborts`
  what suffices, and three lemmas of `FailClosed` give instances.
- A replay is refused until an attempt in between purges the guard at or past the
  assertion's expiry, which needs a clock that goes back: `NextAcceptanceExactly`.
- A horizon start off the whole minute is described as unreachable, but a start
  with seconds parses and is refused when anchoring (`AnchoringTranslates`).

## Model

| member | source | states |
|---|---|---|
| Guard.ValidateMutation | backend/app/jobs/lifecycle.py:469-797 | A mutation passes exactly when it is one of the permitted moves, listed move by move with what each must keep and which token it needs; a completed row and an inconsistent commitment are refused as such |
| Guard.InconsistentExactly | backend/app/jobs/lifecycle.py:393-439 | The problem list is empty for every row exactly when every committed row is pinned, windowed and names an execution iff it is in progress |
| Guard.AssertCommittedStateConsistent | backend/app/jobs/lifecycle.py:442-466 | The loop reports exactly the jobs whose committed state is inconsistent, in order |
| EventBacking.ValidateExecutionEvents | backend/app/jobs/lifecycle.py:800-884 | A batch passes exactly when every execution event is announced by its job's token and every token is announced once |
| EventBacking.ValidateReleaseEvents | backend/app/jobs/lifecycle.py:887-949 | The same for release tokens and BLOCK_RELEASED |
| EventBacking.BackedCounts | backend/app/jobs/lifecycle.py:800-884 | A passing batch appends, per job and kind, one execution event if the job's token asks for it and none otherwise |
| EventBacking.BackedReleaseCounts | backend/app/jobs/lifecycle.py:887-949 | A passing batch appends one release event per release token and no other |
| GuardedWrites.JobRepository.MutateJobs | backend/app/jobs/repository.py:247-341 | All or nothing: either every mutation is written and every event appended, or neither, with the first refusal as the error |
| GuardedWrites.JobRepository.WriteAll | backend/app/jobs/repository.py:290-325 | Mutations are judged against the rows as read, and written in order up to the first refusal |
| GuardedWrites.BatchConservesExactly | backend/app/jobs/repository.py:290-325 | In any store, an accepted batch of any planner keeps a job's executions balanced (one more start than ends exactly while in progress, one completion exactly when completed) if and only if the job's last mutation carries an execution token whenever any of its mutations does |
| GuardedWrites.BatchConservesReleasesExactly | backend/app/jobs/repository.py:290-325 | It records as many releases as it makes if and only if the same holds of the release token |
| GuardedWrites.RunsConserveExactly | backend/app/jobs/lifecycle.py:611-736 | A run of any planners' batches conserves a job's executions and releases throughout exactly when every accepted batch meets both conditions |
| GuardedWrites.RunsConserveExecutions | backend/app/jobs/lifecycle.py:611-736 | So every run of batches with one mutation per job conserves every job's executions and releases |
| GuardedWrites.LastClaimsMatchMove | backend/app/jobs/lifecycle.py:611-736 | The last mutation of a job in an accepted batch claims a start, an end or a release exactly when the batch makes that move |
| GuardedWrites.PrimitivesCannotMoveGated | backend/app/jobs/repository.py:519-785 | The history-less primitives neither enter nor leave in_progress or completed, nor release a block |
| GuardedWrites.ReadsExactly | backend/app/jobs/repository.py:247-300 | A call reads its jobs exactly if all are stored and, where that is refused, none is completed, and then just those rows |
| GuardedWrites.ScheduleExactly | backend/app/jobs/repository.py:644-719 | Writing a schedule directly reschedules a live job in that very window, keeping its run, and changes nothing else and no other job |
| GuardedWrites.RefusalExactly | backend/app/jobs/repository.py:721-779 | Recording a refusal directly tells a live job why, and changes no committed or completed one |
| GuardedWrites.StatusExactly | backend/app/jobs/repository.py:519-600 | Writing a status directly takes effect exactly when it fits the window left in place and keeps a commitment, status by status |
| GuardedWrites.DuplicateMutationBreaksConservation | backend/app/jobs/repository.py:290-325 | The condition can fail in any store: for every approved block that names a run, a batch that starts and releases it is accepted and leaves a started execution that never ends |
| GuardedWrites.WriteKeepsOrWithdraws | backend/app/jobs/lifecycle.py:469-608 | Any write keeps a committed or completed job's placement, run and execution, or withdraws all of them at once |
| GuardedWrites.WithdrawalIsAuthorised | backend/app/jobs/lifecycle.py:611-736 | A commitment is given up only by a batch that records the release of its own run or the failure of its own execution |
| GuardedWrites.CommitmentFrozen | backend/app/jobs/lifecycle.py:163-166 | Over any number of writes by any planner, a commitment that is never given up never moves |
| GuardedWrites.CompletedIsFinal | backend/app/jobs/lifecycle.py:136-142 | A completed row is never written again by any planner |
| GuardedWrites.ChangeNeedsAuthority | backend/app/jobs/lifecycle.py:469-608 | If a commitment is gone or different later, some write in between withdrew it whole and with authority |
| Execution.BuildExecutionRecords | backend/app/jobs/execution.py:742-843 | The map-and-order loop with its in-place records equals the event-by-event derivation and its agreement with the row |
| Execution.AcceptsExactlyCoherentHistories | backend/app/jobs/execution.py:742-949 | The derivation accepts a history exactly when its execution events strictly alternate start and outcome, with matching ids and digests, fresh ids and runs, increasing attempts and ends not before starts; the records then mirror the pairs |
| Execution.AcceptedAttempts | backend/app/jobs/execution.py:758-843 | Accepted attempts are numbered 1..n with distinct ids and runs, all but the last failed, and an open one exists exactly when the row is in progress and is the one it names |
| Execution.OpenIsLast | backend/app/jobs/execution.py:826-843 | At most the last record of an accepted history is open |
| Execution.AcceptedRecordsAreWellFormed | backend/app/jobs/execution.py:742-843 | Every record derived from an accepted history has its own proposal, a real window and evidence before work; exactly the ended ones have an end, never before the start, completed ones evidence of it, failed ones a reason |
| Execution.ExecutionIdsExactly | backend/app/jobs/execution.py:61 | An execution id is EXE- and 32 upper-case hex digits, with or without a final newline |
| Planners.PlanOptimizationOutcome | backend/app/jobs/lifecycle.py:1051-1155 | The loop over candidates yields each job's share in order, or the first job's error and nothing |
| Planners.PlanOptimizationFailure | backend/app/jobs/lifecycle.py:1301-1380 | The same for a failed attempt; terminal jobs have no share |
| Planners.RaiseNotBefore | backend/app/jobs/lifecycle.py:1445-1485 | The latest end is only widened, the not-before is never lowered when asked not to be, and nothing else of the block changes |
| Planners.ObservedExactly | backend/app/jobs/execution.py:265-285 | From a horizon on a whole minute starts are observed rounded down and ends rounded up, and from no other horizon |
| JobInvariant.OutcomePermitted | backend/app/jobs/lifecycle.py:1051-1290 | The guard accepts an optimizer outcome for a sound row exactly when the job is live and its window is one |
| JobInvariant.OutcomeKeeps | backend/app/jobs/lifecycle.py:1051-1290 | A solver outcome is permitted, without tokens, and keeps row, journal, proposal trace and executions in agreement |
| JobInvariant.FailureKeeps | backend/app/jobs/lifecycle.py:1301-1380 | A failed attempt does the same, withdrawing a stale proposal |
| JobInvariant.CommitKeeps | backend/app/jobs/lifecycle.py:1383-1442 | Approval keeps the invariant and is permitted by the guard |
| JobInvariant.RejectKeeps | backend/app/jobs/lifecycle.py:1493-1574 | Rejection keeps the invariant and is permitted by the guard |
| JobInvariant.PostponeKeeps | backend/app/jobs/lifecycle.py:1577-1724 | Postponement keeps the invariant and is permitted by the guard |
| JobInvariant.ReleaseKeeps | backend/app/jobs/lifecycle.py:1727-1875 | Release keeps the invariant, is permitted, and its token is backed by its event |
| JobInvariant.AssignKeeps | backend/app/jobs/lifecycle.py:2393-2452 | Direct assignment is permitted exactly when its window is one, and then keeps the invariant |
| JobInvariant.StartKeeps | backend/app/jobs/lifecycle.py:2019-2161 | A start keeps the invariant: the derivation admits its event and opens the record the row names |
| JobInvariant.CompleteKeeps | backend/app/jobs/lifecycle.py:2177-2264 | A completion keeps the invariant: the derivation closes the open record as done |
| JobInvariant.NotCompletedKeeps | backend/app/jobs/lifecycle.py:2267-2390 | A failure report keeps the invariant: the record is closed as failed and nothing of the placement is left |
| JobInvariant.OpenChecksNeverMisfire | backend/app/jobs/lifecycle.py:1951-2016 | For the current execution of a sound job the integrity checks of an outcome fail only if the corridor differs from the one recorded at the start |
| JobInvariant.CreationSound | backend/app/jobs/lifecycle.py:2482-2563 | A created job with its two events is sound |
| JobInvariant.RejectionKeeps | backend/app/jobs/lifecycle.py:2455-2479 | Recording a refused attempt keeps the invariant |
| JobInvariant.RecordsNeverRefused | backend/app/jobs/execution.py:826-843 | Under the invariant the derivation never refuses, and its open record is the row's |
| StoreInvariant.SharesOfRead | backend/app/jobs/repository.py:282-303 | A plan sees the same rows whether it is given the whole store or the rows read for it |
| StoreInvariant.BatchAgrees | backend/app/jobs/lifecycle.py:1051-1155 | Whatever the invariant: a batch plan is accepted exactly when every job is fit for it, and the invariant holds after the call either way |
| ServiceRuns.PlannersAgreeWithGuard | backend/app/jobs/lifecycle.py:1383-2452 | Under the invariant, whenever a planner returns, all three validators accept its batch exactly when the solver placed live jobs in real windows and an assignment is a window; the invariant holds again |
| ServiceRuns.HistoryAlwaysDerives | backend/app/jobs/execution.py:742-949 | In every run of the shipped planners the derivation never raises, and exactly one record is open, the one the row names, exactly while in progress |
| ServiceRuns.HistoryIsComplete | backend/app/jobs/events.py:186-217 | In every run each job's history is a complete journal: it starts at creation, consecutive events link, and the last after-state is the stored row's snapshot |
| ServiceRuns.NoStaleProposal | backend/app/jobs/lifecycle.py:55-64 | In every run a scheduled job that names a run was last considered by the attempt that proposed exactly its run and window |
| ServiceRuns.CommitmentsWereProposed | backend/app/jobs/lifecycle.py:1383-1442 | In every run a committed or completed block naming a run has exactly the window its latest proposal proposed |
| ServiceRuns.NoIntegrityViolation | backend/app/jobs/lifecycle.py:393-466 | In every run no stored commitment is inconsistent |
| OutcomeEffects.OutcomePlansExactly | backend/app/jobs/lifecycle.py:1094-1155 | An outcome is planned exactly when every listed job is stored, has the status the solver saw, is placed or refused, and is placed, if committed, where it was |
| OutcomeEffects.FirstObstacle | backend/app/jobs/lifecycle.py:1094-1155 | Otherwise the first listed job it does not apply to gives the error, a changed status before a moved commitment before a job left out |
| OutcomeEffects.OutcomeExactly | backend/app/jobs/lifecycle.py:1051-1290 | In every sound store an outcome that applies and places live jobs in real windows makes every listed job exactly what it says, with the three events that tell it, and any other changes nothing |
| OutcomeEffects.OutcomesWereExpected | backend/app/jobs/lifecycle.py:1098-1105 | In every run a job an outcome changed had, in the store it was written to, the status the outcome was computed for |
| OutcomeEffects.FailureExactly | backend/app/jobs/lifecycle.py:1301-1380 | In every sound store a failed attempt withdraws each listed proposal, tells every other listed live job why, leaves completed ones alone, and is recorded exactly if all are stored |
| DecisionEffects.DecisionExactly | backend/app/jobs/lifecycle.py:1383-2452 | In every sound store each decision has its effect exactly when it is allowed, decision by decision and check by check, rewriting its job as stated and recording who decided what, when and why; otherwise nothing changes |
| DecisionEffects.DecisionsInRuns | backend/app/jobs/lifecycle.py:1383-2452 | So in every run each decision has its whole effect on its job or none on anything |
| JobOrigins.RejectionExactly | backend/app/jobs/lifecycle.py:2455-2479 | A refused attempt on a stored job appends one event with its reason and changes no row |
| JobOrigins.CommandCarries | backend/app/jobs/events.py:186-217 | No command removes a job, makes it another, or takes anything from its history |
| JobOrigins.JobsWereReported | backend/app/jobs/lifecycle.py:2482-2563 | In every run each stored job is the one some command reported, on its track and section for its work, and its history opens with that creation and its scoring |
| Approvals.UnpinnedApprovalKeepsRun | backend/app/jobs/lifecycle.py:1383-1442 | Approving a scheduled block without pinning its run always succeeds and keeps whatever run it names, none or a blank one included |
| Approvals.AssignedNamesNoRun | backend/app/jobs/lifecycle.py:2393-2452 | A window assigned directly leaves a scheduled row that names no run |
| Approvals.ProposedNamesItsRun | backend/app/jobs/lifecycle.py:1158-1243 | A proposed window leaves a scheduled row that names its attempt's run, blank or not |
| Approvals.UnproposedCommitmentIsStuck | backend/app/jobs/lifecycle.py:1727-2161 | A block approved with no run, or a blank one, stays approved at its window in every continuation of every run |
| Approvals.ReleasableExactly | backend/app/jobs/lifecycle.py:1727-1875 | Some run to name makes the release of an approved row succeed exactly if the row names a run that is not blank |
| Approvals.NamedRunIsReleased | backend/app/jobs/lifecycle.py:1727-1875 | Naming the stored run, the guard accepts the release and the job is reported again |
| Approvals.WayOutInEveryRun | backend/app/jobs/lifecycle.py:1727-2161 | In every run an approved job can leave that status by some command exactly if its row names a run that is not blank |
| PlannerEffects.StartIsRecorded | backend/app/jobs/lifecycle.py:2019-2161 | After a start the derived records gain exactly one, stating the execution, run, planned window, digest, observed start, earliness and evidence given |
| PlannerEffects.CompletionIsRecorded | backend/app/jobs/lifecycle.py:2177-2264 | After a completion the open record is closed in place with the observed end, lateness and after-evidence given, and nothing of its start changes |
| PlannerEffects.FailureIsRecorded | backend/app/jobs/lifecycle.py:2267-2390 | After a failure report the open record is closed in place with the observed end, reason and failure evidence given |
| PlannerEffects.ReplanningWindowsWiden | backend/app/jobs/lifecycle.py:1445-1485 | In every run a job's latest end never comes forward, and its not-before never comes down except by postponing that job |
| PlannerEffects.RuledOutStaysClosed | backend/app/jobs/lifecycle.py:1445-1485 | In every run a job sent back is not free again before the date chosen, the end of the block given up and the end of the work observed, until it is postponed anew |
| PlannerEffects.HistoryStatesWindows | backend/app/jobs/lifecycle.py:1158-1243 | In every run each proposal, approval and assignment event states the very window of the state it leaves |
| PlannerEffects.PlannedBatchesAreDistinct | backend/app/jobs/lifecycle.py:1051-1155 | Every planned command mutates each job at most once, so its batch meets the exact condition of conservation |
| PlannerEffects.HistoryIsAccountable | backend/app/jobs/lifecycle.py:1878-1923 | In every run each approval, rejection, postponement, release and execution event names an identified person |
| ClockText.ParseClock | backend/app/data/timetable_adapter.py:98-121 | Whatever is read is a time of day in 0..1439 |
| ClockText.ClockExactly | backend/app/data/timetable_adapter.py:98-121 | A clock is read exactly when the trimmed text is, around its only colon, an hour of the day and a minute of the hour |
| ClockText.DigitsExactly | backend/app/data/timetable_adapter.py:108-111 | Digits are read exactly if there are any and every underscore stands between two of them |
| ClockText.OneMoreDigit | backend/app/data/timetable_adapter.py:108-111 | One more digit makes ten times as much and the digit |
| ClockText.UnderscoreIgnored | backend/app/data/timetable_adapter.py:108-111 | An underscore before it makes no difference |
| ClockText.TrimmedOff | backend/app/data/timetable_adapter.py:108-111 | Trimming takes off nothing but blanks |
| ClockText.NoneLeft | backend/app/data/timetable_adapter.py:108-111 | Trimming leaves no blank at either end |
| ClockText.FormattedReadsBack | scripts/real_data/build_ndls_agc_snapshot.py:751-753 | Reading a formatted minute gives that minute's time of day |
| ClockText.SameTextSameTime | scripts/real_data/build_ndls_agc_snapshot.py:751-753 | Two minutes are written alike exactly when they are the same time of day |
| ClockLift.ResolveAbsoluteMinutes | backend/app/data/timetable_adapter.py:124-191 | The rollover loop computes the reading-by-reading resolution, with the position of the first refusal |
| ClockLift.ResolvesExactlyLiftable | backend/app/data/timetable_adapter.py:124-191 | On clock readings it succeeds exactly when some lift within both bounds exists, returns one, and never raises its second decreasing error |
| ClockLift.ResolvesToLeastLift | backend/app/data/timetable_adapter.py:124-191 | Its answer is pointwise below every bounded lift, and equal to each one whose steps are shorter than a day |
| ClockLift.LiftIsUnique | backend/app/data/timetable_adapter.py:124-191 | When steps may not reach a day there is only one bounded lift |
| SnapshotClocks.Unwrap | scripts/real_data/build_ndls_agc_snapshot.py:760-772 | The builder's loop gives each reading its first occurrence after the one before |
| SnapshotClocks.DeriveStationTimes | scripts/real_data/build_ndls_agc_snapshot.py:775-836 | The record is the published events with each leg's passing times woven in, refused exactly when one falls outside its leg |
| SnapshotClocks.WovenSteps | scripts/real_data/build_ndls_agc_snapshot.py:775-836 | Weaving passing times in keeps the sequence nondecreasing and within the same step bound |
| SnapshotClocks.RoundTrip | scripts/real_data/build_ndls_agc_snapshot.py:751-836 | Minutes starting on day 0 are recovered from their texts exactly when they never go back, keep the step bound and end within the allowed rollovers |
| SnapshotClocks.BuilderMatchesRuntime | backend/app/data/timetable_adapter.py:124-191 | Runtime and builder assign the same minutes, and the runtime accepts exactly the builder's sequences within its bounds |
| SnapshotClocks.RecordRoundTrip | scripts/real_data/build_ndls_agc_snapshot.py:760-836 | A whole record, passing times included, is recovered from its texts whenever its published readings resolve |
| HorizonAnchor.AnchoringTranslates | backend/app/data/horizon_anchor.py:129-210 | An event is anchored exactly when its date is on the calendar and the horizon starts on a whole minute, and is then so many minutes after the horizon's start that it is that clock on that day; off the calendar is found first |
| Topology.CrossedByNeighbours | backend/app/data/canonical_train.py:296-361 | Each section crossed is the one between the station passed and its next neighbour |
| Topology.NeighboursNameSection | backend/app/data/canonical_train.py:296-327 | Two neighbours name their section by both, the lower chainage first, in either direction |
| Topology.SectionsThroughStation | backend/app/data/canonical_train.py:329-361 | Through any station between, the sections are those to it followed by those from it |
| Topology.OppositeLeg | backend/app/data/canonical_train.py:329-361 | The opposite leg crosses the same sections in reverse |
| Topology.WholeCorridor | backend/app/data/canonical_train.py:363-371 | The corridor's sections are those crossed from its first station to its last |
| Topology.LegsStayOnCorridor | backend/app/data/canonical_train.py:329-371 | No leg crosses a section that is not the corridor's |
| TrainConversion.ConvertTrain | backend/app/data/timetable_adapter.py:286-531 | The conversion loops compute the specified train or the first error, in the order the checks are made |
| TrainConversion.ReadRunning | backend/app/data/timetable_adapter.py:205-248 | The loop over stops collects both clocks of each, or the error of the first stop whose clocks, and then whose stated days, do not read |
| TrainConversion.ExpandLegs | backend/app/data/timetable_adapter.py:483-522 | The loop over legs collects every section of every leg for the whole leg, or the first bad leg's error |
| TrainOccupation.TimedIsShift | backend/app/data/timetable_adapter.py:392-470 | A record is timed exactly when its clocks resolve and agree with its stated days, it can be anchored without running past the calendar, and its delay reads; its times are then the least lift moved by one offset |
| TrainOccupation.AnchoredConversionIsMoved | backend/app/data/timetable_adapter.py:427-453 | On a whole-minute horizon and within the calendar, anchored conversion is unanchored conversion moved by one constant: the same legs or the same error |
| TrainOccupation.AnchoredAcceptsTheSame | backend/app/data/timetable_adapter.py:427-453 | Anchored conversion accepts exactly the records unanchored conversion accepts and that can be anchored |
| TrainTimes.ConvertsExactly | backend/app/data/timetable_adapter.py:330-531 | A record whose stops state these clocks is converted exactly when it has a number, a bare track and at least two different named stations of the corridor, its days and delay read, its clocks stay within both bounds, agree with the days stated and give every leg time, and it can be anchored if it is to be |
| TrainTimes.ConvertedClocks | backend/app/data/timetable_adapter.py:205-248 | A record is converted only if every stop states both clocks: an actual time before a scheduled one if preferred, and one side for both if the other is silent |
| TrainTimes.TraversalsKeepClocks | backend/app/data/timetable_adapter.py:376-522 | Each traversal of an unanchored, undelayed train runs over a section of a leg from the departure its first stop publishes to the arrival its second does, within a day |
| TrainTimes.DelayMovesScheduled | backend/app/data/timetable_adapter.py:455-482 | A delay of a train without observed times moves every traversal by it and marks it as delayed; the train is refused alike |
| TrainTimes.DelaySparesObserved | backend/app/data/timetable_adapter.py:455-482 | A delay of a train with an observed time changes nothing, and its traversals are marked as observed |
| TrainTimes.NoDelayIsZero | backend/app/data/timetable_adapter.py:463 | A delay that is not stated is a delay of zero |
| SkippedStops.SplicedUnwound | backend/app/data/timetable_adapter.py:124-191 | Readings spliced in before a later reading leave every other resolved minute where it was |
| SkippedStops.SkippedStopOverApproximates | backend/app/data/timetable_adapter.py:483-522 | Stating a skipped stop inside a leg, on the same timing basis, only shrinks the occupation section by section |
| PossessionWindows.MergeIntervals | backend/app/data/timetable_adapter.py:676-695 | The merge covers exactly the same minutes with separated intervals in order |
| PossessionWindows.SweepGaps | backend/app/data/timetable_adapter.py:741-766 | The sweep returns exactly the maximal free runs of the horizon that are long enough, in order and apart |
| SnapshotWindows.OccupiedIntervalsBySection | backend/app/data/timetable_adapter.py:627-673 | Per track and section the sorted buffered intervals, clipped at the horizon's start and dropped when wholly before it; refused exactly for a negative buffer |
| SnapshotWindows.KeptCovers | backend/app/data/timetable_adapter.py:627-673 | From minute 0 on, the recorded intervals cover exactly the minutes some buffered traversal blocks |
| SnapshotWindows.WithheldSectionIds | backend/app/data/timetable_adapter.py:771-791 | Withheld are the sections of the rejected routes, or the whole corridor once one route is unknown |
| SnapshotWindows.DerivePossessionWindows | backend/app/data/timetable_adapter.py:698-768 | The windows are exactly the maximal train-free runs of used, non-withheld keys that are long enough, alphabetical by key and in time order |
| SnapshotWindows.WindowsAreUnique | backend/app/data/timetable_adapter.py:698-768 | There is only one such list |
| SnapshotWindows.TextOrderExactly | backend/app/data/timetable_adapter.py:732 | The order of the windows' texts is a dictionary's: a prefix first, and otherwise the first difference decides |
| SnapshotWindows.KeyOrderExactly | backend/app/data/timetable_adapter.py:732 | Windows are ordered by track first, then by section |
| Rejections.ConvertTimetable | backend/app/data/timetable_adapter.py:534-624 | The loop keeps converted trains and rejections in order, or aborts with the first failure that is not isolated |
| Rejections.CollectRouteSections | backend/app/data/timetable_adapter.py:272-283 | The sections of a declared route, each once, or the first bad leg's error |
| Rejections.DeclaredExactly | backend/app/data/timetable_adapter.py:594-599 | A record with stops declares their stations, all of them named; one without declares its route list |
| Rejections.SnapshotTraversals | backend/app/data/timetable_adapter.py:534-624 | A traversal is in the snapshot exactly if some converted record has it |
| Rejections.EscapesExactly | backend/app/data/timetable_adapter.py:583-586 | A record's failure escapes isolation exactly when nothing is wrong with the record itself and: reading its stops ends at a stated day that is not a number; or its stops read and the rollover bound is negative; or it is coherent and can be dated but runs past the calendar; or it is placed and its delay is not a number; or it is placed on a compound track and its first leg takes time |
| Rejections.TimetableLostExactly | backend/app/data/timetable_adapter.py:583-617 | A timetable is lost exactly when one of its records is such a one |
| Rejections.LegibleNeverAborts | backend/app/data/timetable_adapter.py:534-624 | So with a rollover bound that is not negative, a timetable of bare tracks, readable delays and readable days, no train of which runs past the calendar, always yields a snapshot, whatever else is wrong with its records |
| FailClosed.CompoundTrackLosesBatch | backend/app/data/canonical_train.py:114-119 | For instance, on any corridor a train on track UP:1 leaving its first station at 10:00 and reaching its second at 10:30 loses the timetable |
| FailClosed.UnreadableDelayLosesBatch | backend/app/data/timetable_adapter.py:463-463 | So does the same train on the bare track UP when its delay is not a number |
| FailClosed.UnreadableDayLosesBatch | backend/app/data/timetable_adapter.py:251-269 | So does one whose first stop has a readable time and states a day that is not a number, whatever its other clocks, its delay, the bounds and the horizon |
| FailClosed.AddingRejectionOnlyRemoves | backend/app/data/timetable_adapter.py:771-791 | Adding a rejection never adds a window, whatever the trains, exactly when it has a route, some route is already unknown, or all affected sections are the corridor's |
| FailClosed.AddingToTimetableOnlyRemoves | backend/app/data/timetable_adapter.py:534-624 | The rejections of a converted timetable name only its own corridor's sections, so adding any rejection to it only removes windows |
| FailClosed.RejectionCoversTrain | backend/app/data/timetable_adapter.py:272-283 | A rejected record withholds exactly the sections any convertible record of the same stations crosses |
| FailClosed.UnreadableTrainOnlyRemoves | backend/app/data/timetable_adapter.py:583-617 | Replacing a convertible record by an unconvertible one of the same stations, or of no readable route, leaves no window that was not one before |
| FailClosed.TimetableForward | backend/app/data/canonical_train.py:114-129 | Every traversal of a converted timetable is entered before it is left |
| SafeWindows.WithheldByRecord | backend/app/data/timetable_adapter.py:771-791 | A section is withheld exactly if some record that does not convert may be on it: on the legs of its declared route, or anywhere on the corridor if that route has no sections |
| SafeWindows.WindowsFromRecords | backend/app/data/timetable_adapter.py:698-768 | From records to windows: derived are exactly the maximal long enough runs during which no convertible record's train is on the track and section, buffer included, where some convertible train goes and no train that failed may be |
| SafeWindows.NoWindowMeetsATrain | backend/app/data/timetable_adapter.py:534-768 | So for every timetable that converts, no window holds a buffered minute of any convertible record, nor lies where a record that does not convert may be |
| Sessions.SessionManager.CreateSession | backend/app/identity/session.py:345-406 | The store after a creation attempt, and its result, purge and every refusal included |
| Sessions.SessionManager.ActorForHandle | backend/app/identity/session.py:408-440 | The store after a use, and its result, including when the session is destroyed |
| Sessions.SessionManager.SelectRole | backend/app/identity/session.py:442-491 | The store after a role change: the old handle is gone and the new one holds the same session |
| Sessions.SessionManager.EndSession | backend/app/identity/session.py:493-500 | Logout removes the session and nothing else |
| SessionRuns.EveryRunSound | backend/app/identity/session.py:345-500 | In every run, under any clock: sessions are keyed by their digest, both quotas hold, each session's assertion is held as used until its own expiry, and no two sessions share one |
| SessionRuns.SessionsWereCreated | backend/app/identity/session.py:345-491 | In every run each stored session is one an earlier creation made, with the same person and expiries |
| SessionRuns.ActorsWithinLimits | backend/app/identity/session.py:282-303 | In every run an actor is returned only for a person an earlier creation admitted, before that creation's lifetime, authentication age and assertion run out |
| SessionRuns.SecondSessionNeedsPurge | backend/app/identity/session.py:289-303 | Whatever the clock does, an assertion makes a second session only if a creation attempt in between read its expiry or later |
| SessionRuns.NextSessionExactly | backend/app/identity/session.py:289-303 | Presented again unexpired, with a usable reading, a recent enough authentication, a person found and room in both quotas, and with nothing else spent under its key, it makes a second session exactly in that case |
| SessionRuns.AssertionSpentOnce | backend/app/identity/session.py:282-303 | So under a clock that never goes back one assertion creates at most one session ever |
| SessionActivity.CreateExactly | backend/app/identity/session.py:345-406 | A session is created exactly when every check passes, as the assertion, person and role given, with a handle that expires with the first of its limits; otherwise the first failing check gives the reason |
| SessionActivity.UseExactly | backend/app/identity/session.py:408-440 | A handle gets an actor exactly within all four limits and for the session's own person, and that reading becomes its last use; the reason of a refusal otherwise |
| SessionActivity.RoleExactly | backend/app/identity/session.py:442-491 | A role changes exactly within the limits and for the session's own person, and the session moves to the new handle with the role found |
| SessionActivity.HandlesEndExactly | backend/app/identity/session.py:282-303 | A stored handle survives an operation exactly if that is no purge or use past a limit, no refusal by the directory, no role change and no logout of its own |
| SessionActivity.SeenAtLastTouch | backend/app/identity/session.py:408-491 | In every run a session was last seen at the reading of the last operation that created, used or changed it |
| SessionActivity.ActorsExactly | backend/app/identity/session.py:282-303 | In every run a stored handle gets an actor exactly if the directory finds the person its creation admitted, before the assertion's expiry, lifetime and authentication age, and the idle timeout since that last operation |
| SessionActivity.RoleIsLastGiven | backend/app/identity/session.py:442-491 | In every run a session has the role found by the last operation that gave it one |
| ReplayGuard.InMemoryReplayGuard.Record | backend/app/identity/identity_assertion.py:390-400 | The guard's entries and verdict after one check: purge, replay, capacity, record |
| ReplayGuard.VerifyAssertion | backend/app/identity/identity_assertion.py:565-606 | Only an otherwise valid assertion reaches the guard; the entries after it and the verdict |
| ReplayGuard.CapacityHolds | backend/app/identity/identity_assertion.py:367-400 | In every run the guard never holds more than its capacity |
| ReplayGuard.SecondAcceptanceNeedsPurge | backend/app/identity/identity_assertion.py:390-400 | Whatever the clock does, an assertion is accepted a second time only if an attempt in between reached the guard at or past its expiry and tolerance |
| ReplayGuard.NextAcceptanceExactly | backend/app/identity/identity_assertion.py:390-400 | Presented again with room in the guard and nothing else accepted under its key, an otherwise valid assertion is accepted exactly in that case |
| ReplayGuard.AcceptedAtMostOnce | backend/app/identity/identity_assertion.py:565-606 | So while readings at the guard never go back, one assertion is accepted at most once in the whole run |
| ReplayGuard.AcceptedExactly | backend/app/identity/identity_assertion.py:535-606 | In every run an attempt is accepted exactly if its issuer and claims are in order within the lifetime allowed, cover a usable reading up to the tolerance, its key is not held then, and there is room |
| ReplayGuard.ClockGoingBackReplays | backend/app/identity/identity_assertion.py:390-400 | For instance, an assertion, then another past its expiry, then the clock going back to the first: it is accepted twice |
| KeyCache.CachingJwksProvider.Get | backend/app/identity/trusted_keys.py:293-313 | The cache, the answer and the fetches made by one lookup |
| KeyCache.AtMostOneFetch | backend/app/identity/trusted_keys.py:293-313 | One lookup fetches at most once, at its own reading and only when an attempt is due |
| KeyCache.FetchesExactly | backend/app/identity/trusted_keys.py:274-313 | In every run a lookup fetches exactly when every attempt so far is old enough and the last successful fetch is missing, too old, or lacks the key asked for |
| KeyCache.PublishedKeyIsFound | backend/app/identity/trusted_keys.py:304-313 | So a key published after the set in use was fetched is found at the first due lookup for it |
| KeyCache.FetchRateBounded | backend/app/identity/trusted_keys.py:272-291 | A run makes at most T / min_refetch + 1 fetches in any interval of length T, whatever the clock does |
| KeyCache.CacheIsLastSuccess | backend/app/identity/trusted_keys.py:282-291 | The cache always holds the last successful fetch |
| KeyCache.AnswersAreFresh | backend/app/identity/trusted_keys.py:293-313 | A lookup answers exactly when the last successful fetch is no older than max_age, and with that fetch's own key |
| KeyCache.FetchesAreInThePast | backend/app/identity/trusted_keys.py:272-313 | When readings never go back, every fetch an answer can come from was made in the past |
| SectionRegistry.Register | backend/app/data/section_registry.py:86-164 | Sections are registered exactly when each is valid and no identifier repeats; both indexes are then complete |
| SectionRegistry.ValidExactly | backend/app/data/section_registry.py:86-164 | A section is valid exactly if it is named, joins two different named stations and has a length |
| SectionRegistry.SectionOfNeighbours | backend/app/data/section_registry.py:170-226 | The section of two neighbours is named by both and runs from the lower chainage to the higher on all tracks |
| SectionRegistry.FromStations | backend/app/data/section_registry.py:170-226 | Sections are derived from the stations in order of chainage, one per pair of neighbours |
| SectionRegistry.StationsMakeALine | backend/app/data/section_registry.py:170-226 | What is derived is a line: non-empty sections end to end, no pair of stations twice |
| SectionRegistry.PairNamesSection | backend/app/data/section_registry.py:247-279 | On a line two stations name a section exactly when they are its two ends |
| SectionRegistry.ChainageIsTotalAndUnique | backend/app/data/section_registry.py:281-392 | On a line every chainage of the span has exactly one section, refused only by the track, and no other chainage has any |
| FieldLocation.ConvertedStretch | backend/app/jobs/field_location.py:110-199 | A converted stretch lies in its own section, is as long as its offsets say, and is measured up from the section's first station or back from its last |
| FieldLocation.ConvertsExactly | backend/app/jobs/field_location.py:110-199 | A location is converted exactly when two different stations end one section and the offsets are in order and fit into it |
| FieldLocation.MeasuredFromStation | backend/app/jobs/field_location.py:179-188 | On a corridor derived from stations the two are neighbours and each end of the stretch lies its offset from the first one's own chainage, on the second one's side |
| FieldLocation.OppositeDirectionsAgree | backend/app/jobs/field_location.py:110-199 | Measured from the other station with mirrored offsets, the stretch is the same |
| FieldLocation.ConverterAndResolverAgree | backend/app/jobs/resource_resolution.py:64-143 | Resolution returns the converter's own section exactly when the stretch ends before the far station or the section is the last, and refuses it otherwise |
| FieldLocation.UnservedTrackRefused | backend/app/jobs/resource_resolution.py:102-143 | A stretch on a track that does not serve its section is refused |

## Left out

- The CP-SAT solver, the scorer and the choice of candidates: placements and refusals are arbitrary inputs.
- SQL, HTTP, JSON text, files and locks: a repository call is one atomic step on a map of rows and a list of events.
- The service method that catches an error and records TRANSITION_REJECTED: the refused attempt is a separate command that may come at any point of a run.
- Event ids, schema versions and the actor names behind an event: an actor is an identified human, an unidentified one, or the system.
- Evidence ids, kinds, notes and coordinates: an evidence item is its reference and its moment.
- Block metadata other than the four placement and execution keys, and stored metadata of the wrong type.
- The `record_history=False` wrapper and the legacy reading of `job_completed` beyond its effect on the derivation.
- Error message texts, and which of several simultaneous faults is reported where the order of checks is not part of a rule; only the guard's order is kept.
- Wall-clock strings and time zones: a moment is an integer on one clock, and a horizon start is a moment on its own local clock.
- Digits and white space outside ASCII in clock texts, and clock values that are not texts.
- `SnapshotClocks.DeriveStationTimes`: the numbers of interpolated passing times are inputs; only their order and the refusal of one outside its leg are modelled.
- `CorridorTopology.from_stations`: a corridor is a list of at least two distinct stations already in order; ordering by chainage is modelled for the section registry.
- Window ids, train directions, provenance labels and observation times.
- Records, stops and routes of the wrong JSON shape; only the delay and the stated days may be anything at all.
- Horizon starts whose microseconds vanish when a difference is rounded to floating-point seconds.
- Signature, key and encoding checks of an assertion, and every claim check the clock and the guard do not depend on: two flags stand for them, one before and one after the clock is read.
- Handles and their digests: the digest stands for the handle, and a minted digest is one not yet in the store, which is when the minting loop ends.
- `Sessions.SessionManager.CreateSession`: the check that the assertion and the directory are of the trusted types, which reads no state.
- The directory and the role tables: what a lookup says is an input of each operation.
- Floating-point rounding of chainages, offsets and clock readings: all are integers.
- `assert_matches_declared`, provenance tiers, duplicate detection, asset association and the daily-slot generator: separate checks that none of the three components above depends on.
