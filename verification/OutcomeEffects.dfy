/**
 What an optimization attempt does to the jobs it considered: exactly when its
 outcome is applied, what every job then looks like, and which error it meets.
 */
module OutcomeEffects {
  import opened Wrappers
  import opened JobModel
  import opened Planners
  import opened JobInvariant
  import opened GuardedWrites
  import opened StoreInvariant
  import opened ServiceRuns

  // ------------------------------------------------------------------
  // One job
  // ------------------------------------------------------------------

  /** Why an outcome cannot be applied to a job, if it cannot. */
  function Obstacle(row: Row, placements: map<JobId, Placement>, refusals: map<JobId, string>,
                    expected: Option<map<JobId, Status>>): Option<LifecycleError> {
    var job := row.jobId;
    if expected.Some? && (job !in expected.value || expected.value[job] != row.status) then Some(ConcurrentModification)
    else if job in placements && (row.status.Notified? || row.status.InProgress?)
            && (row.start != Some(placements[job].start) || row.end != Some(placements[job].end)) then Some(CommittedJob)
    else if job !in placements && job !in refusals then Some(BadValue)
    else None
  }

  /** Reported again, its placement cleared, for this reason. */
  function Cleared(row: Row, reason: string): Row {
    row.(status := Reported, start := None, end := None, refusal := Some(reason),
         block := row.block.(status := Planned, committed := false, meta := Meta(Absent, Absent, Absent, Absent)))
  }

  /** Scheduled in a window, naming the attempt's run. */
  function PlacedIn(row: Row, p: Placement, run: Option<string>): Row {
    row.(status := Scheduled, start := Some(p.start), end := Some(p.end), refusal := None,
         block := row.block.(status := Proposed, committed := false,
                             meta := Meta(Val(p.start), Val(p.end), match run case Some(id) => Val(id) case None => Absent,
                                          row.block.meta.execId)))
  }

  /** A committed job keeps its placement; a live one is placed, or refused and its proposal withdrawn. */
  function Considered(row: Row, attempt: Attempt, at: int, solver: string, placements: map<JobId, Placement>,
                      refusals: map<JobId, string>): Row {
    var seen := row.(updatedAt := Some(at), solverStatus := Some(solver));
    var committed := row.status.Notified? || row.status.InProgress?;
    if row.jobId in placements then
      if committed then seen.(refusal := None) else PlacedIn(seen, placements[row.jobId], attempt.runId)
    else if row.jobId in refusals then
      if row.status.Scheduled? then Cleared(seen, refusals[row.jobId]) else seen.(refusal := Some(refusals[row.jobId]))
    else seen
  }

  /** What the last of the three events says became of the job. */
  function OutcomeKind(row: Row, placed: bool): EventKind {
    match row.status
    case Notified => if placed then CommittedPreserved else CommittedConflict
    case InProgress => if placed then CommittedPreserved else CommittedConflict
    case Scheduled => if placed then BlockReproposed else ProposalInvalidated
    case _ => if placed then BlockProposed else OptimizationRefused
  }

  predicate IsEvent(e: Event, row: Row, kind: EventKind, actor: Actor, at: int, reason: Option<string>, run: Option<string>, after: Row) {
    && e.jobId == row.jobId && e.kind == kind && e.actor == actor && e.at == at && e.reason == reason && e.runId == run
    && e.before == Some(SnapshotOf(row)) && e.after == Some(SnapshotOf(after))
  }

  /** The request, the completion, and what became of the job, all of the attempt's run. */
  predicate TellsOutcome(es: seq<Event>, row: Row, after: Row, attempt: Attempt, at: int, placements: map<JobId, Placement>,
                         refusals: map<JobId, string>) {
    && |es| == 3
    && IsEvent(es[0], row, OptimizationRequested, attempt.requester, attempt.requestedAt, None, attempt.runId, row)
    && IsEvent(es[1], row, OptimizationCompleted, SystemActor, at, None, attempt.runId, row)
    && IsEvent(es[2], row, OutcomeKind(row, row.jobId in placements), SystemActor, at,
               if row.jobId !in placements && row.jobId in refusals then Some(refusals[row.jobId]) else None, attempt.runId, after)
  }

  lemma OutcomeForExactly(row: Row, attempt: Attempt, at: int, solver: string, placements: map<JobId, Placement>,
                          refusals: map<JobId, string>, expected: Option<map<JobId, Status>>)
    ensures var r, obstacle := OutcomeFor(row, attempt, at, solver, placements, refusals, expected),
                               Obstacle(row, placements, refusals, expected);
            var after := Considered(row, attempt, at, solver, placements, refusals);
            if obstacle.Some? then r == Err(obstacle.value)
            else
              && r.Ok?
              && AsJob(r.value.mutation, row) == after
              && TellsOutcome(r.value.events, row, after, attempt, at, placements, refusals)
  {
  }

  // ------------------------------------------------------------------
  // The batch
  // ------------------------------------------------------------------

  /** A listed job is stored and nothing keeps the outcome from it. */
  predicate Applies(s: Store, c: Command, job: JobId)
    requires c.Optimized?
  {
    job in s.rows && Obstacle(s.rows[job], c.placements, c.refusals, c.expected).None?
  }

  function PlannerOf(c: Command): Planner
    requires c.Optimized?
  {
    OutcomePlanner(c.attempt, c.at, c.solver, c.placements, c.refusals, c.expected)
  }

  lemma AppliesExactly(s: Store, c: Command, job: JobId)
    requires c.Optimized?
    ensures Plans(s.rows, PlannerOf(c), job) <==> Applies(s, c, job)
    ensures job in s.rows && !Applies(s, c, job) ==>
              PlannerOf(c)(s.rows[job]) == Err(Obstacle(s.rows[job], c.placements, c.refusals, c.expected).value)
  {
    if job in s.rows {
      OutcomeForExactly(s.rows[job], c.attempt, c.at, c.solver, c.placements, c.refusals, c.expected);
    }
  }

  /** The planner returns exactly when the outcome applies to every listed job. */
  lemma OutcomePlansExactly(s: Store, c: Command)
    requires c.Optimized?
    ensures BatchOf(s, c).Ok? <==> forall i :: 0 <= i < |c.jobIds| ==> Applies(s, c, c.jobIds[i])
  {
    SharesExactly(s.rows, c.jobIds, PlannerOf(c));
    forall i | 0 <= i < |c.jobIds| ensures Plans(s.rows, PlannerOf(c), c.jobIds[i]) <==> Applies(s, c, c.jobIds[i]) {
      AppliesExactly(s, c, c.jobIds[i]);
    }
  }

  /** Otherwise the first listed job it does not apply to gives the error. */
  lemma FirstObstacle(s: Store, c: Command, k: nat)
    requires c.Optimized? && k < |c.jobIds| && !Applies(s, c, c.jobIds[k])
    requires forall i :: 0 <= i < k ==> Applies(s, c, c.jobIds[i])
    ensures BatchOf(s, c) ==
            Err(if c.jobIds[k] in s.rows then Obstacle(s.rows[c.jobIds[k]], c.placements, c.refusals, c.expected).value else UnknownJob)
  {
    forall i | 0 <= i <= k ensures Plans(s.rows, PlannerOf(c), c.jobIds[i]) <==> Applies(s, c, c.jobIds[i]) {
      AppliesExactly(s, c, c.jobIds[i]);
    }
    AppliesExactly(s, c, c.jobIds[k]);
    FirstShareError(s.rows, c.jobIds, PlannerOf(c), k);
  }

  // ------------------------------------------------------------------
  // In the store
  // ------------------------------------------------------------------

  /** A live job is placed in a window that is one, and no completed job is listed. */
  predicate Reachable(row: Row, placements: map<JobId, Placement>) {
    && !row.status.Completed?
    && (row.jobId in placements && (row.status.Reported? || row.status.Scheduled?) ==>
          placements[row.jobId].start < placements[row.jobId].end)
  }

  predicate OutcomeStands(s: Store, c: Command)
    requires c.Optimized?
  {
    forall i :: 0 <= i < |c.jobIds| ==> Applies(s, c, c.jobIds[i]) && Reachable(s.rows[c.jobIds[i]], c.placements)
  }

  /** What the call makes of one stored job. */
  ghost predicate OutcomeSeen(s: Store, c: Command, after: Store, job: JobId)
    requires c.Optimized? && job in s.rows
  {
    var row := s.rows[job];
    var seen := Considered(row, c.attempt, c.at, c.solver, c.placements, c.refusals);
    && job in after.rows
    && if job in c.jobIds then
         && after.rows[job] == seen
         && exists es :: HistoryOf(after.history, job) == HistoryOf(s.history, job) + es
                         && TellsOutcome(es, row, seen, c.attempt, c.at, c.placements, c.refusals)
       else after.rows[job] == row && HistoryOf(after.history, job) == HistoryOf(s.history, job)
  }

  lemma PlannerOwn(row: Row, c: Command)
    requires c.Optimized?
    ensures OwnShare(PlannerOf(c), row)
  {
    var r := OutcomeFor(row, c.attempt, c.at, c.solver, c.placements, c.refusals, c.expected);
    if r.Ok? {
      OutcomeShape(row, c.attempt, c.at, c.solver, c.placements, c.refusals, c.expected);
    }
  }

  lemma ShareSeen(s: Store, c: Command, b: Batch, after: Store, job: JobId)
    requires c.Optimized? && job in s.rows && s.rows[job].jobId == job && GetsShare(s.rows, c.jobIds, PlannerOf(c), b, job)
    requires job in c.jobIds ==> Applies(s, c, job)
    requires after == Store(Written(s.rows, b.mutations), s.history + b.events)
    ensures OutcomeSeen(s, c, after, job)
  {
    HistoryConcat(s.history, b.events, job);
    OutcomeForExactly(s.rows[job], c.attempt, c.at, c.solver, c.placements, c.refusals, c.expected);
    if job !in c.jobIds {
      assert HistoryOf(s.history, job) + [] == HistoryOf(s.history, job);
    } else {
      AppliesExactly(s, c, job);
    }
  }

  lemma ReachesExactly(row: Row, placements: map<JobId, Placement>)
    ensures Placeable(row, placements) <==> Reachable(row, placements)
  {
  }

  lemma StandsExactly(s: Store, c: Command)
    requires c.Optimized? && forall i :: 0 <= i < |c.jobIds| ==> Applies(s, c, c.jobIds[i])
    ensures OutcomeStands(s, c) <==> WithinReach(s, c)
  {
    forall i | 0 <= i < |c.jobIds| ensures Placeable(s.rows[c.jobIds[i]], c.placements) <==> Reachable(s.rows[c.jobIds[i]], c.placements) {
      assert Applies(s, c, c.jobIds[i]);
      ReachesExactly(s.rows[c.jobIds[i]], c.placements);
    }
    if WithinReach(s, c) {
      forall i | 0 <= i < |c.jobIds| ensures Applies(s, c, c.jobIds[i]) && Reachable(s.rows[c.jobIds[i]], c.placements) {
      }
    }
  }

  lemma StandsIsAccepted(s: Store, c: Command, b: Batch)
    requires StoreSound(s) && WellFormed(c) && c.Optimized? && BatchOf(s, c) == Ok(b)
    ensures Judge(s.rows, c.jobIds, Ok(b), true).Ok? <==> OutcomeStands(s, c)
  {
    OutcomePlansExactly(s, c);
    StandsExactly(s, c);
    PlannersAgreeWithGuard(s, c);
  }

  lemma OutcomeShares(s: Store, c: Command, b: Batch, job: JobId)
    requires StoreSound(s) && WellFormed(c) && c.Optimized? && job in s.rows && BatchOf(s, c) == Ok(b)
    ensures GetsShare(s.rows, c.jobIds, PlannerOf(c), b, job)
  {
    forall k | k in s.rows ensures s.rows[k].jobId == k && OwnShare(PlannerOf(c), s.rows[k]) {
      JobOf(s, k);
      PlannerOwn(s.rows[k], c);
    }
    SharesEffect(s.rows, c.jobIds, PlannerOf(c), job);
  }

  /** What the repository makes of a planned outcome. */
  lemma OutcomeWritten(s: Store, c: Command, b: Batch)
    requires StoreSound(s) && WellFormed(c) && c.Optimized? && BatchOf(s, c) == Ok(b)
    ensures Perform(s, c) == if OutcomeStands(s, c) then Store(Written(s.rows, b.mutations), s.history + b.events) else s
  {
    StandsIsAccepted(s, c, b);
  }

  /**
   In a sound store an outcome is applied exactly when it stands for every listed
   job: each has the status the solver saw, is placed or refused, and is placed,
   if committed, where it was, if live, in a window. Then every listed job becomes
   what the outcome says and no other job changes; otherwise nothing does.
   */
  lemma OutcomeExactly(s: Store, c: Command, job: JobId)
    requires StoreSound(s) && WellFormed(c) && c.Optimized? && job in s.rows
    ensures !OutcomeStands(s, c) ==> Perform(s, c) == s
    ensures OutcomeStands(s, c) ==> Perform(s, c).rows.Keys == s.rows.Keys && OutcomeSeen(s, c, Perform(s, c), job)
  {
    OutcomePlansExactly(s, c);
    if BatchOf(s, c).Ok? {
      var b := BatchOf(s, c).value;
      OutcomeWritten(s, c, b);
      if OutcomeStands(s, c) {
        OutcomeShares(s, c, b, job);
        JobOf(s, job);
        ShareSeen(s, c, b, Perform(s, c), job);
      }
    }
  }

  /**
   So in every run, a job that an outcome changed had, when it was changed, the
   status the outcome was computed for.
   */
  lemma OutcomesWereExpected(cs: seq<Command>, n: nat, job: JobId)
    requires AllWellFormed(cs) && n < |cs| && cs[n].Optimized? && cs[n].expected.Some? && job in Serve(cs[..n]).rows
    requires job !in Serve(cs[..n + 1]).rows || Serve(cs[..n + 1]).rows[job] != Serve(cs[..n]).rows[job]
    ensures job in cs[n].jobIds && job in cs[n].expected.value && cs[n].expected.value[job] == Serve(cs[..n]).rows[job].status
  {
    var s, c := Serve(cs[..n]), cs[n];
    ServeSound(cs[..n]);
    ServeNext(cs, n);
    OutcomeExactly(s, c, job);
    JobOf(s, job);
    var i :| 0 <= i < |c.jobIds| && c.jobIds[i] == job;
    assert Applies(s, c, c.jobIds[i]);
  }

  // ------------------------------------------------------------------
  // Attempts without an outcome
  // ------------------------------------------------------------------

  /** A completed job is left alone, a proposal is withdrawn, and any other job is told why. */
  function Failed(row: Row, at: int, reason: string, lbl: string): Row {
    var told := row.(updatedAt := Some(at), solverStatus := Some(lbl), refusal := Some(reason));
    match row.status
    case Completed => row
    case Scheduled => Cleared(told, reason)
    case _ => told
  }

  predicate TellsFailure(es: seq<Event>, row: Row, after: Row, attempt: Attempt, at: int, reason: string) {
    if row.status.Completed? then es == []
    else
      && |es| == (if row.status.Scheduled? then 3 else 2)
      && IsEvent(es[0], row, OptimizationRequested, attempt.requester, attempt.requestedAt, None, attempt.runId, row)
      && IsEvent(es[1], row, OptimizationFailed, SystemActor, at, Some(reason), attempt.runId, row)
      && (row.status.Scheduled? ==>
            IsEvent(es[2], row, ProposalInvalidated, SystemActor, at, Some(reason), attempt.runId, after))
  }

  function FailurePlannerOf(c: Command): Planner
    requires c.OptimizationErrored?
  {
    FailurePlanner(c.attempt, c.at, c.reason, c.lbl)
  }

  ghost predicate FailureSeen(s: Store, c: Command, after: Store, job: JobId)
    requires c.OptimizationErrored? && job in s.rows
  {
    var row := s.rows[job];
    var told := Failed(row, c.at, c.reason, c.lbl);
    && job in after.rows
    && if job in c.jobIds then
         && after.rows[job] == told
         && exists es :: HistoryOf(after.history, job) == HistoryOf(s.history, job) + es
                         && TellsFailure(es, row, told, c.attempt, c.at, c.reason)
       else after.rows[job] == row && HistoryOf(after.history, job) == HistoryOf(s.history, job)
  }

  lemma FailureForExactly(row: Row, attempt: Attempt, at: int, reason: string, lbl: string)
    requires !row.status.Completed?
    ensures var share := FailureFor(row, attempt, at, reason, lbl);
            && AsJob(share.mutation, row) == Failed(row, at, reason, lbl)
            && TellsFailure(share.events, row, Failed(row, at, reason, lbl), attempt, at, reason)
            && OwnEvents(row, share)
  {
  }

  lemma FailureShareSeen(s: Store, c: Command, b: Batch, after: Store, job: JobId)
    requires c.OptimizationErrored? && job in s.rows && s.rows[job].jobId == job
    requires GetsShare(s.rows, c.jobIds, FailurePlannerOf(c), b, job)
    requires after == Store(Written(s.rows, b.mutations), s.history + b.events)
    ensures FailureSeen(s, c, after, job)
  {
    HistoryConcat(s.history, b.events, job);
    assert HistoryOf(s.history, job) + [] == HistoryOf(s.history, job);
    if !s.rows[job].status.Completed? {
      FailureForExactly(s.rows[job], c.attempt, c.at, c.reason, c.lbl);
    } else {
      assert TellsFailure([], s.rows[job], Failed(s.rows[job], c.at, c.reason, c.lbl), c.attempt, c.at, c.reason);
    }
  }

  lemma FailurePlannerOwn(row: Row, c: Command)
    requires c.OptimizationErrored?
    ensures OwnShare(FailurePlannerOf(c), row)
  {
    if !row.status.Completed? { FailureForExactly(row, c.attempt, c.at, c.reason, c.lbl); }
  }

  predicate AllStored(s: Store, jobIds: seq<JobId>) { forall i :: 0 <= i < |jobIds| ==> jobIds[i] in s.rows }

  lemma FailurePlansExactly(s: Store, c: Command)
    requires c.OptimizationErrored?
    ensures BatchOf(s, c).Ok? <==> AllStored(s, c.jobIds)
  {
    SharesExactly(s.rows, c.jobIds, FailurePlannerOf(c));
    forall i | 0 <= i < |c.jobIds| ensures Plans(s.rows, FailurePlannerOf(c), c.jobIds[i]) <==> c.jobIds[i] in s.rows {
    }
  }

  lemma FailureShares(s: Store, c: Command, b: Batch, job: JobId)
    requires StoreSound(s) && WellFormed(c) && c.OptimizationErrored? && job in s.rows && BatchOf(s, c) == Ok(b)
    ensures GetsShare(s.rows, c.jobIds, FailurePlannerOf(c), b, job)
  {
    forall k | k in s.rows ensures s.rows[k].jobId == k && OwnShare(FailurePlannerOf(c), s.rows[k]) {
      JobOf(s, k);
      FailurePlannerOwn(s.rows[k], c);
    }
    SharesEffect(s.rows, c.jobIds, FailurePlannerOf(c), job);
  }

  lemma FailureWritten(s: Store, c: Command, b: Batch)
    requires StoreSound(s) && WellFormed(c) && c.OptimizationErrored? && BatchOf(s, c) == Ok(b)
    ensures Perform(s, c) == Store(Written(s.rows, b.mutations), s.history + b.events)
  {
    PlannersAgreeWithGuard(s, c);
  }

  /** In a sound store a failed attempt is recorded exactly when every listed job is stored, on each of them. */
  lemma FailureExactly(s: Store, c: Command, job: JobId)
    requires StoreSound(s) && WellFormed(c) && c.OptimizationErrored? && job in s.rows
    ensures !AllStored(s, c.jobIds) ==> Perform(s, c) == s
    ensures AllStored(s, c.jobIds) ==> Perform(s, c).rows.Keys == s.rows.Keys && FailureSeen(s, c, Perform(s, c), job)
  {
    FailurePlansExactly(s, c);
    if AllStored(s, c.jobIds) {
      var b := BatchOf(s, c).value;
      FailureWritten(s, c, b);
      FailureShares(s, c, b, job);
      JobOf(s, job);
      FailureShareSeen(s, c, b, Perform(s, c), job);
    }
  }
}
