/**
 Whole runs of the job service from an empty store: every shipped operation,
 in any order, each planned on the current rows and the records derived from
 the current history, then judged and written by the repository.
 */
module ServiceRuns {
  import opened Wrappers
  import opened JobModel
  import opened Guard
  import opened Execution
  import opened Planners
  import opened JobInvariant
  import opened GuardedWrites
  import opened StoreInvariant

  datatype Command =
    | Report(row: Row, actor: Actor, at: int)
    | Optimized(jobIds: seq<JobId>, attempt: Attempt, at: int, solver: string, placements: map<JobId, Placement>,
                refusals: map<JobId, string>, expected: Option<map<JobId, Status>>)
    | OptimizationErrored(jobIds: seq<JobId>, attempt: Attempt, at: int, reason: string, lbl: string)
    | Decide(job: JobId, decision: Decision, actor: Actor, at: int)
    | RecordRejection(job: JobId, actor: Actor, at: int, reason: string)

  datatype Decision =
    | Approve(pinned: Option<string>)
    | Reject(why: string, run: string)
    | Postpone(why: string, notBefore: int, horizon: int, run: string)
    | Release(why: string, horizon: int, run: string)
    | StartWork(start: StartFacts)
    | CompleteWork(facts: EndFacts)
    | ReportNotCompleted(facts: EndFacts, why: string, horizon: int)
    | Assign(from: int, to: int)

  /** One operation on one job: the plan built from its row and the records of its history. */
  function DecisionShare(row: Row, h: seq<Event>, d: Decision, actor: Actor, at: int): Result<Share, LifecycleError> {
    match d
    case Approve(pinned) => PlanCommit(row, actor, at, pinned)
    case Reject(why, run) => PlanReject(row, actor, at, why, run)
    case Postpone(why, notBefore, horizon, run) => PlanPostpone(row, actor, at, why, notBefore, horizon, run)
    case Release(why, horizon, run) => PlanRelease(row, actor, at, why, run, horizon)
    case StartWork(start) =>
      var records := RecordsOf(row, h);
      if records.Err? then Err(records.error) else PlanExecutionStart(row, actor, at, start, records.value)
    case CompleteWork(facts) =>
      var records := RecordsOf(row, h);
      if records.Err? then Err(records.error)
      else PlanExecutionComplete(row, actor, at, facts, OpenRecord(records.value))
    case ReportNotCompleted(facts, why, horizon) =>
      var records := RecordsOf(row, h);
      if records.Err? then Err(records.error)
      else PlanExecutionNotCompleted(row, actor, at, facts, why, horizon, OpenRecord(records.value))
    case Assign(from, to) => PlanScheduleAssignment(row, from, to, actor, at)
  }

  function Single(share: Result<Share, LifecycleError>): Result<Batch, LifecycleError> {
    if share.Err? then Err(share.error) else Ok(Batch([share.value.mutation], share.value.events))
  }

  /** The batch a planning command asks the repository to write. */
  function BatchOf(s: Store, c: Command): Result<Batch, LifecycleError> {
    match c
    case Optimized(jobIds, attempt, at, solver, placements, refusals, expected) =>
      Shares(s.rows, jobIds, OutcomePlanner(attempt, at, solver, placements, refusals, expected))
    case OptimizationErrored(jobIds, attempt, at, reason, lbl) =>
      Shares(s.rows, jobIds, FailurePlanner(attempt, at, reason, lbl))
    case Decide(job, decision, actor, at) =>
      if job !in s.rows then Err(UnknownJob)
      else Single(DecisionShare(s.rows[job], HistoryOf(s.history, job), decision, actor, at))
    case _ => Err(BadValue)
  }

  function Touched(c: Command): seq<JobId> {
    match c
    case Optimized(jobIds, _, _, _, _, _, _) => jobIds
    case OptimizationErrored(jobIds, _, _, _, _) => jobIds
    case Decide(job, _, _, _) => [job]
    case _ => []
  }

  /** The repository call a command ends in; None when the operation raises before reaching it. */
  function WriteOf(s: Store, c: Command): Option<Write> {
    match c
    case Report(row, actor, at) => Some(CreateJob(row, CreationEvents(row, actor, at)))
    case RecordRejection(job, actor, at, reason) =>
      if job in s.rows then Some(AppendEvents([RejectedEvent(s.rows[job], actor, at, reason)])) else None
    case _ =>
      if BatchOf(s, c).Err? then None else Some(Mutate(Touched(c), BatchOf(s, c).value, c.Optimized?))
  }

  function Perform(s: Store, c: Command): Store {
    if WriteOf(s, c).None? then s else Apply(s, WriteOf(s, c).value)
  }

  function Serve(cs: seq<Command>): Store {
    if cs == [] then EMPTY else Perform(Serve(cs[..|cs| - 1]), cs[|cs| - 1])
  }

  lemma ServeNext(cs: seq<Command>, n: nat)
    requires n < |cs|
    ensures Serve(cs[..n + 1]) == Perform(Serve(cs[..n]), cs[n])
  {
    assert cs[..n + 1][..n] == cs[..n];
  }

  /** What callers of the service supply: intake rows, and candidate lists without repetition. */
  predicate WellFormed(c: Command) {
    match c
    case Report(row, _, _) => Creatable(row)
    case Optimized(jobIds, _, _, _, _, _, _) => DistinctJobIds(jobIds)
    case OptimizationErrored(jobIds, _, _, _, _) => DistinctJobIds(jobIds)
    case _ => true
  }

  /** Every job of the store is sound with its own history. */
  predicate StoreSound(s: Store) { Holds(s, JobSound) }

  lemma JobOf(s: Store, job: JobId)
    requires StoreSound(s) && job in s.rows
    ensures s.rows[job].jobId == job && JobSound(s.rows[job], HistoryOf(s.history, job))
  {
  }

  /** Every planner's result for a sound job is sound; a direct assignment needs a window that is one. */
  lemma DecisionSound(row: Row, h: seq<Event>, d: Decision, actor: Actor, at: int, share: Share)
    requires JobSound(row, h) && DecisionShare(row, h, d, actor, at) == Ok(share)
    requires d.Assign? ==> d.from < d.to
    ensures ShareSound(row, h, share)
  {
    RecordsNeverRefused(row, h);
    match d {
      case Approve(pinned) => CommitKeeps(row, h, actor, at, pinned);
      case Reject(why, run) => RejectKeeps(row, h, actor, at, why, run);
      case Postpone(why, notBefore, horizon, run) => PostponeKeeps(row, h, actor, at, why, notBefore, horizon, run);
      case Release(why, horizon, run) => ReleaseKeeps(row, h, actor, at, why, run, horizon);
      case StartWork(start) => StartKeeps(row, h, actor, at, start);
      case CompleteWork(facts) => CompleteKeeps(row, h, actor, at, facts, share);
      case ReportNotCompleted(facts, why, horizon) => NotCompletedKeeps(row, h, actor, at, facts, why, horizon, share);
      case Assign(from, to) => AssignKeeps(row, h, from, to, actor, at);
    }
  }

  lemma OutcomeKeepsQuietly(row: Row, h: seq<Event>, attempt: Attempt, at: int, solver: string,
                            placements: map<JobId, Placement>, refusals: map<JobId, string>,
                            expected: Option<map<JobId, Status>>)
    requires JobSound(row, h) && OutcomeFor(row, attempt, at, solver, placements, refusals, expected).Ok?
    requires Placeable(row, placements)
    ensures KeptQuietly(JobSound, MovePermitted, row, h, OutcomeFor(row, attempt, at, solver, placements, refusals, expected).value)
  {
    OutcomeKeeps(row, h, attempt, at, solver, placements, refusals, expected);
    OutcomeShape(row, attempt, at, solver, placements, refusals, expected);
  }

  lemma FailureKeepsQuietly(row: Row, h: seq<Event>, attempt: Attempt, at: int, reason: string, lbl: string)
    requires JobSound(row, h) && !row.status.Completed?
    ensures KeptQuietly(JobSound, MovePermitted, row, h, FailureFor(row, attempt, at, reason, lbl))
  {
    FailureKeeps(row, h, attempt, at, reason, lbl);
    FailureShape(row, attempt, at, reason, lbl);
  }

  // ------------------------------------------------------------------
  // Agreement of planners and guard
  // ------------------------------------------------------------------

  /** The two conditions the planners do not check themselves and leave to the guard. */
  predicate WithinReach(s: Store, c: Command) {
    && (c.Optimized? ==> AllPlaceable(s.rows, c.jobIds, c.placements))
    && (c.Decide? && c.decision.Assign? ==> c.decision.from < c.decision.to)
  }

  predicate AllPlaceable(rows: map<JobId, Row>, jobIds: seq<JobId>, placements: map<JobId, Placement>) {
    forall i :: 0 <= i < |jobIds| && jobIds[i] in rows ==> Placeable(rows[jobIds[i]], placements)
  }

  predicate IsPlanned(c: Command) { c.Optimized? || c.OptimizationErrored? || c.Decide? }

  function CallOf(s: Store, c: Command): Write
    requires IsPlanned(c) && BatchOf(s, c).Ok?
  {
    Mutate(Touched(c), BatchOf(s, c).value, c.Optimized?)
  }

  lemma FailurePlanSafe(s: Store, plan: Planner, job: JobId, attempt: Attempt, at: int, reason: string, lbl: string)
    requires StoreSound(s) && job in s.rows && plan == FailurePlanner(attempt, at, reason, lbl)
    ensures PlanKeeps(s, JobSound, MovePermitted, plan, job)
  {
    if !s.rows[job].status.Completed? {
      JobOf(s, job);
      FailureKeepsQuietly(s.rows[job], HistoryOf(s.history, job), attempt, at, reason, lbl);
    }
  }

  lemma OutcomePlanSafe(row: Row, h: seq<Event>, plan: Planner, attempt: Attempt, at: int, solver: string,
                        placements: map<JobId, Placement>, refusals: map<JobId, string>, expected: Option<map<JobId, Status>>)
    requires JobSound(row, h) && plan == OutcomePlanner(attempt, at, solver, placements, refusals, expected)
    ensures PlanSafe(JobSound, plan, row, h, Placeable(row, placements))
  {
    if OutcomeFor(row, attempt, at, solver, placements, refusals, expected).Ok? {
      if Placeable(row, placements) {
        OutcomeKeepsQuietly(row, h, attempt, at, solver, placements, refusals, expected);
      } else {
        OutcomeForbidden(row, attempt, at, solver, placements, refusals, expected);
      }
    }
  }

  lemma OutcomeForbidden(row: Row, attempt: Attempt, at: int, solver: string, placements: map<JobId, Placement>,
                         refusals: map<JobId, string>, expected: Option<map<JobId, Status>>)
    requires RowSound(row) && !Placeable(row, placements)
    requires OutcomeFor(row, attempt, at, solver, placements, refusals, expected).Ok?
    ensures PlansForbidden(row, OutcomeFor(row, attempt, at, solver, placements, refusals, expected).value)
  {
    OutcomePermitted(row, attempt, at, solver, placements, refusals, expected);
  }

  lemma FailureAgrees(s: Store, jobIds: seq<JobId>, plan: Planner, attempt: Attempt, at: int, reason: string, lbl: string)
    requires StoreSound(s) && DistinctJobIds(jobIds) && plan == FailurePlanner(attempt, at, reason, lbl)
    requires Shares(s.rows, jobIds, plan).Ok?
    ensures Judge(s.rows, jobIds, Shares(s.rows, jobIds, plan), false).Ok?
    ensures StoreSound(Apply(s, Mutate(jobIds, Shares(s.rows, jobIds, plan).value, false)))
  {
    SharesKnown(s.rows, jobIds, plan);
    forall i | 0 <= i < |jobIds| ensures PlanKeeps(s, JobSound, MovePermitted, plan, jobIds[i]) {
      FailurePlanSafe(s, plan, jobIds[i], attempt, at, reason, lbl);
    }
    SharesServed(s, JobSound, jobIds, plan, false);
  }

  lemma OutcomeAgrees(s: Store, jobIds: seq<JobId>, plan: Planner, fit: Row -> bool, attempt: Attempt, at: int, solver: string,
                      placements: map<JobId, Placement>, refusals: map<JobId, string>, expected: Option<map<JobId, Status>>)
    requires StoreSound(s) && DistinctJobIds(jobIds)
    requires plan == OutcomePlanner(attempt, at, solver, placements, refusals, expected)
    requires fit == (row => Placeable(row, placements))
    requires Shares(s.rows, jobIds, plan).Ok?
    ensures Judge(s.rows, jobIds, Shares(s.rows, jobIds, plan), true).Ok? <==> AllFit(s.rows, jobIds, fit)
    ensures StoreSound(Apply(s, Mutate(jobIds, Shares(s.rows, jobIds, plan).value, true)))
  {
    forall job | job in s.rows ensures PlanSafe(JobSound, plan, s.rows[job], HistoryOf(s.history, job), fit(s.rows[job])) {
      JobOf(s, job);
      OutcomePlanSafe(s.rows[job], HistoryOf(s.history, job), plan, attempt, at, solver, placements, refusals, expected);
    }
    BatchAgrees(s, JobSound, jobIds, plan, fit, true);
  }

  /** A decision's share is sound, unless it assigns a window that is none, which the guard forbids. */
  lemma DecisionSafe(row: Row, h: seq<Event>, d: Decision, actor: Actor, at: int, share: Share, fit: bool)
    requires JobSound(row, h) && fit == (d.Assign? ==> d.from < d.to)
    requires DecisionShare(row, h, d, actor, at) == Ok(share)
    ensures ShareSafe(JobSound, row, h, share, fit)
  {
    if fit {
      DecisionSound(row, h, d, actor, at, share);
    } else {
      AssignKeeps(row, h, d.from, d.to, actor, at);
    }
  }

  lemma DecisionAgrees(s: Store, job: JobId, d: Decision, actor: Actor, at: int, share: Share, fit: bool)
    requires StoreSound(s) && job in s.rows && fit == (d.Assign? ==> d.from < d.to)
    requires DecisionShare(s.rows[job], HistoryOf(s.history, job), d, actor, at) == Ok(share)
    ensures Judge(s.rows, [job], Ok(Batch([share.mutation], share.events)), false).Ok? <==> fit
    ensures StoreSound(Apply(s, Mutate([job], Batch([share.mutation], share.events), false)))
  {
    JobOf(s, job);
    DecisionSafe(s.rows[job], HistoryOf(s.history, job), d, actor, at, share, fit);
    ShareAgrees(s, JobSound, job, share, fit);
  }

  /** The row an accepted decision's share makes is the row that is stored. */
  lemma DecisionWritten(s: Store, job: JobId, d: Decision, actor: Actor, at: int, share: Share)
    requires StoreSound(s) && job in s.rows && !d.Assign? && share.mutation.jobId == job
    requires DecisionShare(s.rows[job], HistoryOf(s.history, job), d, actor, at) == Ok(share)
    ensures Judge(s.rows, [job], Ok(Batch([share.mutation], share.events)), false).Ok?
    ensures Apply(s, Mutate([job], Batch([share.mutation], share.events), false)).rows == s.rows[job := AsJob(share.mutation, s.rows[job])]
  {
    DecisionAgrees(s, job, d, actor, at, share, true);
    SingleWritten(s.rows, share.mutation);
  }

  lemma DecisionPerformed(s: Store, c: Command, share: Share)
    requires c.Decide? && c.job in s.rows
    requires DecisionShare(s.rows[c.job], HistoryOf(s.history, c.job), c.decision, c.actor, c.at) == Ok(share)
    ensures BatchOf(s, c) == Ok(Batch([share.mutation], share.events))
    ensures Perform(s, c) == Apply(s, Mutate([c.job], Batch([share.mutation], share.events), false))
  {
  }

  /**
   Whenever a planner returns, the repository accepts its batch exactly when the
   solver placed only live jobs in real windows and an assignment is a real
   window, and then the store is sound again.
   */
  lemma PlannersAgreeWithGuard(s: Store, c: Command)
    requires StoreSound(s) && WellFormed(c) && IsPlanned(c) && BatchOf(s, c).Ok?
    ensures Judge(s.rows, Touched(c), BatchOf(s, c), c.Optimized?).Ok? <==> WithinReach(s, c)
    ensures StoreSound(Apply(s, CallOf(s, c)))
  {
    match c {
      case Optimized(jobIds, attempt, at, solver, placements, refusals, expected) =>
        var plan := OutcomePlanner(attempt, at, solver, placements, refusals, expected);
        var fit := (row: Row) => Placeable(row, placements);
        OutcomeAgrees(s, jobIds, plan, fit, attempt, at, solver, placements, refusals, expected);
        assert AllFit(s.rows, jobIds, fit) <==> AllPlaceable(s.rows, jobIds, placements);
      case OptimizationErrored(jobIds, attempt, at, reason, lbl) =>
        FailureAgrees(s, jobIds, FailurePlanner(attempt, at, reason, lbl), attempt, at, reason, lbl);
      case Decide(job, d, actor, at) =>
        var share := DecisionShare(s.rows[job], HistoryOf(s.history, job), d, actor, at).value;
        DecisionAgrees(s, job, d, actor, at, share, d.Assign? ==> d.from < d.to);
    }
  }

  // ------------------------------------------------------------------
  // Whole runs
  // ------------------------------------------------------------------

  lemma ReportSound(s: Store, row: Row, actor: Actor, at: int)
    requires StoreSound(s) && Creatable(row)
    ensures StoreSound(Apply(s, CreateJob(row, CreationEvents(row, actor, at))))
  {
    CreationSound(row, actor, at);
    CreateServed(s, JobSound, row, CreationEvents(row, actor, at));
  }

  lemma RejectionSound(s: Store, job: JobId, actor: Actor, at: int, reason: string, e: Event)
    requires StoreSound(s) && job in s.rows && e == RejectedEvent(s.rows[job], actor, at, reason)
    ensures StoreSound(Apply(s, AppendEvents([e])))
  {
    JobOf(s, job);
    RejectionKeeps(s.rows[job], HistoryOf(s.history, job), actor, at, reason);
    EventServed(s, JobSound, job, e);
  }

  lemma PerformSound(s: Store, c: Command)
    requires StoreSound(s) && WellFormed(c)
    ensures StoreSound(Perform(s, c))
  {
    match c {
      case Report(row, actor, at) => ReportSound(s, row, actor, at);
      case RecordRejection(job, actor, at, reason) =>
        if job in s.rows { RejectionSound(s, job, actor, at, reason, RejectedEvent(s.rows[job], actor, at, reason)); }
      case _ =>
        if BatchOf(s, c).Ok? { PlannersAgreeWithGuard(s, c); }
    }
  }

  predicate AllWellFormed(cs: seq<Command>) { forall i :: 0 <= i < |cs| ==> WellFormed(cs[i]) }

  lemma {:induction false} ServeSound(cs: seq<Command>)
    requires AllWellFormed(cs)
    ensures StoreSound(Serve(cs))
  {
    if cs != [] {
      ServeSound(cs[..|cs| - 1]);
      PerformSound(Serve(cs[..|cs| - 1]), cs[|cs| - 1]);
    }
  }

  /**
   In every run the history of every job derives to execution records, and
   exactly one is open, the one the row names, exactly while it is in progress.
   */
  lemma HistoryAlwaysDerives(cs: seq<Command>, job: JobId)
    requires AllWellFormed(cs) && job in Serve(cs).rows
    ensures var row := Serve(cs).rows[job];
            var records := RecordsOf(row, HistoryOf(Serve(cs).history, job));
            && records.Ok?
            && (row.status.InProgress? <==> OpenRecords(records.value) != [])
            && (row.status.InProgress? ==>
                  |OpenRecords(records.value)| == 1 && ExecutionOf(row) == Some(OpenRecords(records.value)[0].executionId))
  {
    ServeSound(cs);
    JobOf(Serve(cs), job);
    RecordsNeverRefused(Serve(cs).rows[job], HistoryOf(Serve(cs).history, job));
  }

  /** In every run a job's history is a complete journal: it starts at creation, links, and ends in the stored state. */
  lemma HistoryIsComplete(cs: seq<Command>, job: JobId)
    requires AllWellFormed(cs) && job in Serve(cs).rows
    ensures Chain(HistoryOf(Serve(cs).history, job), None, Some(SnapshotOf(Serve(cs).rows[job])))
  {
    ServeSound(cs);
    JobOf(Serve(cs), job);
  }

  /**
   In every run a scheduled job that names a run was last considered by the
   attempt that proposed it: exactly that run, exactly that window.
   */
  lemma NoStaleProposal(cs: seq<Command>, job: JobId)
    requires AllWellFormed(cs) && job in Serve(cs).rows && Serve(cs).rows[job].status.Scheduled?
    requires RunOf(Serve(cs).rows[job]).Some?
    ensures Proposes(Latest(HistoryOf(Serve(cs).history, job), true), Serve(cs).rows[job])
  {
    ServeSound(cs);
    JobOf(Serve(cs), job);
  }

  /** In every run a committed or completed block is the window its latest proposal proposed. */
  lemma CommitmentsWereProposed(cs: seq<Command>, job: JobId)
    requires AllWellFormed(cs) && job in Serve(cs).rows && RunOf(Serve(cs).rows[job]).Some?
    requires IsCommittedStatus(Serve(cs).rows[job].status) || Serve(cs).rows[job].status.Completed?
    ensures Proposes(Latest(HistoryOf(Serve(cs).history, job), false), Serve(cs).rows[job])
  {
    ServeSound(cs);
    JobOf(Serve(cs), job);
  }

  /** In every run no stored commitment is ever found inconsistent, so no operation is refused for that. */
  lemma NoIntegrityViolation(cs: seq<Command>, job: JobId)
    requires AllWellFormed(cs) && job in Serve(cs).rows
    ensures var row := Serve(cs).rows[job];
            CommittedStateProblems(row.status, row.block, row.start, row.end) == []
  {
    ServeSound(cs);
    JobOf(Serve(cs), job);
  }
}
