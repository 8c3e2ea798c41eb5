/**
 Approved blocks and the way out of `notified`: which ones can be released, and
 which stay where they are whatever is tried.
 */
module Approvals {
  import opened Wrappers
  import opened JobModel
  import opened Planners
  import opened JobInvariant
  import opened GuardedWrites
  import opened StoreInvariant
  import opened ServiceRuns

  /** The row names the run that proposed it, and the name is more than white space. */
  predicate NamesRun(row: Row) { RunOf(row).Some? && !Blank(RunOf(row).value) }

  /** An approved block without a usable run, at this window. */
  predicate ApprovedWithoutRun(row: Row, start: Option<int>, end: Option<int>) {
    row.status.Notified? && !NamesRun(row) && row.start == start && row.end == end
  }

  // ------------------------------------------------------------------
  // How such a block comes about
  // ------------------------------------------------------------------

  /** Approving a scheduled block without pinning its run always succeeds and keeps whatever run it names. */
  lemma UnpinnedApprovalKeepsRun(row: Row, actor: Actor, at: int)
    requires RowSound(row) && row.status.Scheduled? && actor.IdentifiedHuman?
    ensures PlanCommit(row, actor, at, None).Ok?
    ensures var approved := AsJob(PlanCommit(row, actor, at, None).value.mutation, row);
            approved.status.Notified? && RunOf(approved) == RunOf(row) && approved.start == row.start && approved.end == row.end
  {
  }

  /** A window assigned directly names no run. */
  lemma AssignedNamesNoRun(row: Row, from: int, to: int, actor: Actor, at: int)
    requires RowSound(row) && row.status.Reported? && from < to
    ensures PlanScheduleAssignment(row, from, to, actor, at).Ok?
    ensures var scheduled := AsJob(PlanScheduleAssignment(row, from, to, actor, at).value.mutation, row);
            RowSound(scheduled) && scheduled.status.Scheduled? && !NamesRun(scheduled)
  {
  }

  /** A window proposed by an attempt names that attempt's run, blank or not. */
  lemma ProposedNamesItsRun(row: Row, attempt: Attempt, at: int, solver: string, placements: map<JobId, Placement>,
                            refusals: map<JobId, string>)
    requires RowSound(row) && row.status.Reported? && row.jobId in placements && Placeable(row, placements)
    ensures OutcomeFor(row, attempt, at, solver, placements, refusals, None).Ok?
    ensures var proposed := AsJob(OutcomeFor(row, attempt, at, solver, placements, refusals, None).value.mutation, row);
            RowSound(proposed) && proposed.status.Scheduled? && RunOf(proposed) == attempt.runId
  {
  }

  // ------------------------------------------------------------------
  // It stays where it is
  // ------------------------------------------------------------------

  /** If the row was such a block, it still is one, at the same window. */
  predicate StaysApproved(a: Row, b: Row) {
    a.status.Notified? && !NamesRun(a) ==> ApprovedWithoutRun(b, a.start, a.end)
  }

  lemma OutcomeStays(row: Row, plan: Planner, rel: Relation, attempt: Attempt, at: int, solver: string,
                     placements: map<JobId, Placement>, refusals: map<JobId, string>, expected: Option<map<JobId, Status>>)
    requires plan == OutcomePlanner(attempt, at, solver, placements, refusals, expected) && rel == StaysApproved
    ensures PlanMoves(plan, rel, row)
  {
    if OutcomeFor(row, attempt, at, solver, placements, refusals, expected).Ok? {
      OutcomeShape(row, attempt, at, solver, placements, refusals, expected);
    }
  }

  lemma FailureStays(row: Row, plan: Planner, rel: Relation, attempt: Attempt, at: int, reason: string, lbl: string)
    requires plan == FailurePlanner(attempt, at, reason, lbl) && rel == StaysApproved
    ensures PlanMoves(plan, rel, row)
  {
  }

  /** No decision on such a block is even planned. */
  lemma DecisionRefused(row: Row, h: seq<Event>, d: Decision, actor: Actor, at: int)
    requires row.status.Notified? && !NamesRun(row)
    ensures DecisionShare(row, h, d, actor, at).Err?
  {
  }

  lemma DecisionStays(row: Row, h: seq<Event>, d: Decision, actor: Actor, at: int, s: Share)
    requires DecisionShare(row, h, d, actor, at) == Ok(s)
    ensures s.mutation.jobId == row.jobId && StaysApproved(row, AsJob(s.mutation, row))
  {
    if row.status.Notified? && !NamesRun(row) {
      DecisionRefused(row, h, d, actor, at);
    }
  }

  lemma CommandStays(s: Store, c: Command, job: JobId)
    requires KeyedRows(s) && job in s.rows
    ensures job in Perform(s, c).rows && StaysApproved(s.rows[job], Perform(s, c).rows[job])
  {
    var rel: Relation := StaysApproved;
    match c {
      case Optimized(jobIds, attempt, at, solver, placements, refusals, expected) =>
        var plan := OutcomePlanner(attempt, at, solver, placements, refusals, expected);
        forall k | k in s.rows ensures PlanMoves(plan, rel, s.rows[k]) {
          OutcomeStays(s.rows[k], plan, rel, attempt, at, solver, placements, refusals, expected);
        }
        if BatchOf(s, c).Ok? { BatchMoves(s, rel, jobIds, plan, BatchOf(s, c).value, true, job); }
      case OptimizationErrored(jobIds, attempt, at, reason, lbl) =>
        var plan := FailurePlanner(attempt, at, reason, lbl);
        forall k | k in s.rows ensures PlanMoves(plan, rel, s.rows[k]) {
          FailureStays(s.rows[k], plan, rel, attempt, at, reason, lbl);
        }
        if BatchOf(s, c).Ok? { BatchMoves(s, rel, jobIds, plan, BatchOf(s, c).value, false, job); }
      case Decide(decided, d, actor, at) =>
        if BatchOf(s, c).Ok? {
          var row, h := s.rows[decided], HistoryOf(s.history, decided);
          var share := DecisionShare(row, h, d, actor, at).value;
          DecisionStays(row, h, d, actor, at, share);
          ShareMoves(s, rel, decided, share, job);
        }
      case _ =>
    }
  }

  /**
   A block approved without a usable run stays approved at its window in every
   continuation of every run: it can be neither started nor released.
   */
  lemma {:induction false} UnproposedCommitmentIsStuck(cs: seq<Command>, n: nat, job: JobId, start: Option<int>, end: Option<int>)
    requires AllWellFormed(cs) && n <= |cs|
    requires job in Serve(cs[..n]).rows && ApprovedWithoutRun(Serve(cs[..n]).rows[job], start, end)
    ensures job in Serve(cs).rows && ApprovedWithoutRun(Serve(cs).rows[job], start, end)
  {
    if n == |cs| {
      assert cs[..n] == cs;
    } else {
      var before, c := cs[..|cs| - 1], cs[|cs| - 1];
      assert before[..n] == cs[..n];
      UnproposedCommitmentIsStuck(before, n, job, start, end);
      ServeSound(before);
      CommandStays(Serve(before), c, job);
    }
  }

  // ------------------------------------------------------------------
  // Exactly which blocks have a way out
  // ------------------------------------------------------------------

  /** Some run to name makes the release of an approved row succeed exactly if the row names one. */
  lemma ReleasableExactly(row: Row, actor: Actor, at: int, why: string, horizon: int)
    requires RowSound(row) && row.status.Notified? && actor.IdentifiedHuman? && !Blank(why)
    ensures (exists run :: PlanRelease(row, actor, at, why, run, horizon).Ok?) <==> NamesRun(row)
  {
    if NamesRun(row) {
      assert PlanRelease(row, actor, at, why, RunOf(row).value, horizon).Ok?;
    }
  }

  lemma ReleasedShare(row: Row, h: seq<Event>, actor: Actor, at: int, why: string, horizon: int, run: string) returns (s: Share)
    requires RowSound(row) && row.status.Notified? && NamesRun(row) && run == RunOf(row).value
    requires actor.IdentifiedHuman? && !Blank(why)
    ensures DecisionShare(row, h, Release(why, horizon, run), actor, at) == Ok(s)
    ensures s.mutation.jobId == row.jobId && AsJob(s.mutation, row).status.Reported?
  {
    s := PlanRelease(row, actor, at, why, run, horizon).value;
  }

  /** The command takes the job out of `notified`. */
  predicate TakesOut(s: Store, c: Command, job: JobId) {
    WellFormed(c) && job in Perform(s, c).rows && !Perform(s, c).rows[job].status.Notified?
  }

  /** Naming the stored run, the guard accepts the release and the job is reported again. */
  lemma NamedRunIsReleased(s: Store, job: JobId, c: Command, actor: Actor, at: int, why: string, horizon: int, run: string)
    requires StoreSound(s) && job in s.rows && s.rows[job].status.Notified? && NamesRun(s.rows[job])
    requires actor.IdentifiedHuman? && !Blank(why) && run == RunOf(s.rows[job]).value
    requires c == Decide(job, Release(why, horizon, run), actor, at)
    ensures BatchOf(s, c).Ok? && Judge(s.rows, [job], BatchOf(s, c), false).Ok?
    ensures job in Perform(s, c).rows && Perform(s, c).rows[job].status.Reported?
    ensures TakesOut(s, c, job)
  {
    JobOf(s, job);
    var share := ReleasedShare(s.rows[job], HistoryOf(s.history, job), actor, at, why, horizon, run);
    DecisionWritten(s, job, Release(why, horizon, run), actor, at, share);
    DecisionPerformed(s, c, share);
  }

  lemma NamedRunHasWayOut(s: Store, job: JobId, why: string)
    requires StoreSound(s) && job in s.rows && s.rows[job].status.Notified? && NamesRun(s.rows[job]) && !Blank(why)
    ensures exists c :: TakesOut(s, c, job)
  {
    var run := RunOf(s.rows[job]).value;
    NamedRunIsReleased(s, job, Decide(job, Release(why, 0, run), IdentifiedHuman, 0), IdentifiedHuman, 0, why, 0, run);
  }

  /** In a sound store an approved job has a way out, by any command at all, exactly if its row names a run. */
  lemma WayOutExactly(s: Store, job: JobId)
    requires StoreSound(s) && job in s.rows && s.rows[job].status.Notified?
    ensures (exists c :: TakesOut(s, c, job)) <==> NamesRun(s.rows[job])
  {
    if NamesRun(s.rows[job]) {
      var why := "x";
      assert !IsSpace(why[0]);
      NamedRunHasWayOut(s, job, why);
    } else {
      forall c ensures !TakesOut(s, c, job) { NoWayOut(s, c, job); }
    }
  }

  lemma NoWayOut(s: Store, c: Command, job: JobId)
    requires KeyedRows(s) && job in s.rows && s.rows[job].status.Notified? && !NamesRun(s.rows[job])
    ensures !TakesOut(s, c, job)
  {
    CommandStays(s, c, job);
  }

  /** In every run: an approved job can still leave exactly if it names a run. */
  lemma WayOutInEveryRun(cs: seq<Command>, job: JobId)
    requires AllWellFormed(cs) && job in Serve(cs).rows && Serve(cs).rows[job].status.Notified?
    ensures (exists c :: TakesOut(Serve(cs), c, job)) <==> NamesRun(Serve(cs).rows[job])
  {
    ServeSound(cs);
    WayOutExactly(Serve(cs), job);
  }
}
