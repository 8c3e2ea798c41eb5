/**
 What the planners record and what they never do: facts that survive the round
 trip through the history, replanning windows that only widen, and human
 transitions that only identified people make.
 */
module PlannerEffects {
  import opened Wrappers
  import opened JobModel
  import opened EventBacking
  import opened Execution
  import opened Planners
  import opened JobInvariant
  import opened GuardedWrites
  import opened StoreInvariant
  import opened ServiceRuns

  // ------------------------------------------------------------------
  // Records derived from the history say what the planner was told
  // ------------------------------------------------------------------

  /** The record of an accepted start: whose it is, which block, when, and with what evidence. */
  predicate StartRecord(row: Row, f: StartFacts, at: int, attempt: int, r: ExecutionRecord) {
    && r.executionId == f.executionId && r.attempt == attempt && r.status.Open?
    && r.runId == f.expectedRun && RunOf(row) == Some(r.runId)
    && Some(r.plannedStart) == row.start && Some(r.plannedEnd) == row.end
    && r.proposalId == "PROP-" + r.runId + "-" + row.jobId
    && r.section == (match row.block.sectionId case Some(id) => Text(id) case None => Nil)
    && r.track == Text(row.trackId) && r.digest == Hash(BlockIdentity(r.proposalId, row.jobId, r.runId, f.corridor, row.trackId, row.block.sectionId,
                                      r.plannedStart, r.plannedEnd, r.plannedEnd - r.plannedStart, row.workType))
    && r.startedAt == at && r.actualStartAt == f.actualStartAt
    && r.actualStartMinute == MinuteOf(f.actualStartAt, f.horizonStart)
    && (r.startedEarly <==> r.actualStartMinute < r.plannedStart)
    && r.before == RecordEvidence(f.evidence, BeforeWork)
  }

  lemma BegunRecords(row: Row, rs: seq<ExecutionRecord>, actor: Actor, at: int, f: StartFacts, s: Share)
    requires RowSound(row) && PlanExecutionStart(row, actor, at, f, rs) == Ok(s)
    requires HeaderOk(row.jobId, s.events[0]) && StartFactsOk(s.events[0])
    ensures StartRecord(row, f, at, |rs| + 1, Begun(row.jobId, s.events[0]))
  {
    ObservedExactly(f.actualStartAt, f.horizonStart);
  }

  /** Starting an execution adds one record to the derived ones, and it states exactly the facts given. */
  lemma StartIsRecorded(row: Row, h: seq<Event>, actor: Actor, at: int, f: StartFacts, s: Share) returns (open: ExecutionRecord)
    requires JobSound(row, h) && PlanExecutionStart(row, actor, at, f, Derive(row.jobId, h).value) == Ok(s)
    ensures Derive(row.jobId, h + s.events) == Ok(Derive(row.jobId, h).value + [open])
    ensures StartRecord(row, f, at, |Derive(row.jobId, h).value| + 1, open)
  {
    var rs := Derive(row.jobId, h).value;
    StartShape(row, rs, actor, at, f);
    StartAdmits(row, rs, actor, at, f);
    var e := s.events[0];
    assert s.events == [e];
    DeriveAfterOne(row.jobId, h, e);
    BegunRecords(row, rs, actor, at, f, s);
    open := Begun(row.jobId, e);
  }

  /** The open record closed by an outcome: nothing of its start changes. */
  predicate EndRecord(r: ExecutionRecord, f: EndFacts, at: int, closed: ExecutionRecord) {
    && closed == r.(status := closed.status, endedAt := Some(at), actualEndAt := Some(f.actualEndAt),
                    actualEndMinute := Some(MinuteAfter(f.actualEndAt, f.horizonStart)), endedLate := closed.endedLate,
                    after := closed.after, failure := closed.failure, reason := closed.reason)
    && closed.endedLate == Some(closed.actualEndMinute.value > r.plannedEnd)
    && r.actualStartAt <= f.actualEndAt
  }

  lemma CompleteEnds(row: Row, record: ExecutionRecord, actor: Actor, at: int, f: EndFacts, s: Share)
    requires RowSound(row) && PlanExecutionComplete(row, actor, at, f, Some(record)) == Ok(s) && EndFactsOk(s.events[0])
    ensures EndRecord(record, f, at, Ended(record, s.events[0]))
    ensures Ended(record, s.events[0]).status.Done? && Ended(record, s.events[0]).after == RecordEvidence(f.evidence, AfterWork)
  {
    ObservedExactly(f.actualEndAt, f.horizonStart);
  }

  /** Completing an execution closes the open record with exactly the facts given. */
  lemma CompletionIsRecorded(row: Row, h: seq<Event>, actor: Actor, at: int, f: EndFacts, s: Share) returns (closed: ExecutionRecord)
    requires JobSound(row, h) && PlanExecutionComplete(row, actor, at, f, OpenRecord(Derive(row.jobId, h).value)) == Ok(s)
    ensures var rs := Derive(row.jobId, h).value;
            && rs != [] && EndRecord(rs[|rs| - 1], f, at, closed)
            && Derive(row.jobId, h + s.events) == Ok(rs[|rs| - 1 := closed])
            && closed.status.Done? && closed.after == RecordEvidence(f.evidence, AfterWork)
  {
    var rs := Derive(row.jobId, h).value;
    OpenRecordOfJob(row, rs);
    var record := rs[|rs| - 1];
    CompleteShape(row, record, actor, at, f, s);
    CompleteAdmitted(row, record, actor, at, f, s);
    closed := OutcomeCloses(row, h, rs, s);
    CompleteEnds(row, record, actor, at, f, s);
  }

  lemma OutcomeCloses(row: Row, h: seq<Event>, rs: seq<ExecutionRecord>, s: Share) returns (closed: ExecutionRecord)
    requires row.status.InProgress? && RecordsFit(row, rs) && Derive(row.jobId, h) == Ok(rs) && |s.events| == 1
    requires OutcomeEventOf(row.jobId, rs[|rs| - 1], s.events[0])
    ensures EndFactsOk(s.events[0]) && closed == Ended(rs[|rs| - 1], s.events[0])
    ensures Derive(row.jobId, h + s.events) == Ok(rs[|rs| - 1 := closed])
  {
    var e := s.events[0];
    assert s.events == [e];
    EndAdmits(row, rs, e);
    DeriveAfterOne(row.jobId, h, e);
    closed := Ended(rs[|rs| - 1], e);
  }

  lemma NotCompletedEnds(row: Row, record: ExecutionRecord, actor: Actor, at: int, f: EndFacts, why: string, horizon: int, s: Share)
    requires RowSound(row) && PlanExecutionNotCompleted(row, actor, at, f, why, horizon, Some(record)) == Ok(s) && EndFactsOk(s.events[0])
    ensures EndRecord(record, f, at, Ended(record, s.events[0]))
    ensures var closed := Ended(record, s.events[0]);
            closed.status.NotDone? && closed.reason == Some(why) && closed.failure == RecordEvidence(f.evidence, FailureRecord)
  {
    ObservedExactly(f.actualEndAt, f.horizonStart);
  }

  /** Reporting an execution not completed closes the open record with exactly the facts and the reason given. */
  lemma FailureIsRecorded(row: Row, h: seq<Event>, actor: Actor, at: int, f: EndFacts, why: string, horizon: int, s: Share)
    returns (closed: ExecutionRecord)
    requires JobSound(row, h)
    requires PlanExecutionNotCompleted(row, actor, at, f, why, horizon, OpenRecord(Derive(row.jobId, h).value)) == Ok(s)
    ensures var rs := Derive(row.jobId, h).value;
            && rs != [] && EndRecord(rs[|rs| - 1], f, at, closed)
            && Derive(row.jobId, h + s.events) == Ok(rs[|rs| - 1 := closed])
            && closed.status.NotDone? && closed.reason == Some(why) && closed.failure == RecordEvidence(f.evidence, FailureRecord)
  {
    var rs := Derive(row.jobId, h).value;
    OpenRecordOfJob(row, rs);
    var record := rs[|rs| - 1];
    NotCompletedShape(row, record, actor, at, f, why, horizon, s);
    NotCompletedAdmitted(row, record, actor, at, f, why, horizon, s);
    closed := OutcomeCloses(row, h, rs, s);
    NotCompletedEnds(row, record, actor, at, f, why, horizon, s);
  }

  // ------------------------------------------------------------------
  // Replanning windows
  // ------------------------------------------------------------------

  function EarliestOf(row: Row): int { OrElse(row.block.earliest, 0) }

  function LatestOf(row: Row): int { OrElse(row.block.latest, 1440) }

  /** The latest end is never brought forward, and the not-before is only lowered if that is allowed. */
  predicate Widens(row: Row, after: Row, mayLower: bool) {
    LatestOf(row) <= LatestOf(after) && (!mayLower ==> EarliestOf(row) <= EarliestOf(after))
  }

  lemma OutcomeWidens(row: Row, attempt: Attempt, at: int, solver: string, placements: map<JobId, Placement>,
                      refusals: map<JobId, string>, expected: Option<map<JobId, Status>>)
    requires OutcomeFor(row, attempt, at, solver, placements, refusals, expected).Ok?
    ensures Widens(row, AsJob(OutcomeFor(row, attempt, at, solver, placements, refusals, expected).value.mutation, row), false)
  {
  }

  lemma FailureWidens(row: Row, attempt: Attempt, at: int, reason: string, lbl: string)
    requires !row.status.Completed?
    ensures Widens(row, AsJob(FailureFor(row, attempt, at, reason, lbl).mutation, row), false)
  {
  }

  lemma DecisionWidens(row: Row, h: seq<Event>, d: Decision, actor: Actor, at: int, s: Share)
    requires DecisionShare(row, h, d, actor, at) == Ok(s)
    ensures Widens(row, AsJob(s.mutation, row), d.Postpone?)
  {
  }

  lemma OutcomePlanWidens(row: Row, plan: Planner, rel: Relation, lower: bool, attempt: Attempt, at: int, solver: string,
                          placements: map<JobId, Placement>, refusals: map<JobId, string>, expected: Option<map<JobId, Status>>)
    requires plan == OutcomePlanner(attempt, at, solver, placements, refusals, expected)
    requires rel == ((a: Row, b: Row) => Widens(a, b, lower))
    ensures PlanMoves(plan, rel, row)
  {
    if OutcomeFor(row, attempt, at, solver, placements, refusals, expected).Ok? {
      OutcomeWidens(row, attempt, at, solver, placements, refusals, expected);
      OutcomeShape(row, attempt, at, solver, placements, refusals, expected);
    }
  }

  lemma FailurePlanWidens(row: Row, plan: Planner, rel: Relation, lower: bool, attempt: Attempt, at: int, reason: string, lbl: string)
    requires plan == FailurePlanner(attempt, at, reason, lbl)
    requires rel == ((a: Row, b: Row) => Widens(a, b, lower))
    ensures PlanMoves(plan, rel, row)
  {
    if !row.status.Completed? {
      FailureWidens(row, attempt, at, reason, lbl);
    }
  }

  /** The command postpones this job: the one way its not-before can come down. */
  predicate Postpones(c: Command, job: JobId) { c.Decide? && c.job == job && c.decision.Postpone? }

  lemma DecisionOwn(row: Row, h: seq<Event>, d: Decision, actor: Actor, at: int, s: Share)
    requires DecisionShare(row, h, d, actor, at) == Ok(s)
    ensures s.mutation.jobId == row.jobId
  {
  }

  lemma CommandWidens(s: Store, c: Command, job: JobId)
    requires KeyedRows(s) && job in s.rows
    ensures job in Perform(s, c).rows && Widens(s.rows[job], Perform(s, c).rows[job], Postpones(c, job))
  {
    var lower := Postpones(c, job);
    var rel: Relation := (a: Row, b: Row) => Widens(a, b, lower);
    match c {
      case Optimized(jobIds, attempt, at, solver, placements, refusals, expected) =>
        var plan := OutcomePlanner(attempt, at, solver, placements, refusals, expected);
        forall k | k in s.rows ensures PlanMoves(plan, rel, s.rows[k]) {
          OutcomePlanWidens(s.rows[k], plan, rel, lower, attempt, at, solver, placements, refusals, expected);
        }
        if BatchOf(s, c).Ok? { BatchMoves(s, rel, jobIds, plan, BatchOf(s, c).value, true, job); }
      case OptimizationErrored(jobIds, attempt, at, reason, lbl) =>
        var plan := FailurePlanner(attempt, at, reason, lbl);
        forall k | k in s.rows ensures PlanMoves(plan, rel, s.rows[k]) {
          FailurePlanWidens(s.rows[k], plan, rel, lower, attempt, at, reason, lbl);
        }
        if BatchOf(s, c).Ok? { BatchMoves(s, rel, jobIds, plan, BatchOf(s, c).value, false, job); }
      case Decide(decided, d, actor, at) =>
        if BatchOf(s, c).Ok? {
          var row, h := s.rows[decided], HistoryOf(s.history, decided);
          var share := DecisionShare(row, h, d, actor, at).value;
          DecisionWidens(row, h, d, actor, at, share);
          DecisionOwn(row, h, d, actor, at, share);
          ShareMoves(s, rel, decided, share, job);
        }
      case _ =>
    }
  }

  lemma WidensOn(a: Row, b: Row, c: Row, first: bool, second: bool, either: bool)
    requires Widens(a, b, first) && Widens(b, c, second) && (either <==> first || second)
    ensures Widens(a, c, either)
  {
  }

  /** Some command from the n-th on postpones the job. */
  predicate PostponedSince(cs: seq<Command>, n: nat, job: JobId) { exists i :: n <= i < |cs| && Postpones(cs[i], job) }

  lemma PostponedLater(cs: seq<Command>, n: nat, job: JobId)
    requires n < |cs|
    ensures PostponedSince(cs, n, job) <==> PostponedSince(cs[..|cs| - 1], n, job) || Postpones(cs[|cs| - 1], job)
  {
    var before := cs[..|cs| - 1];
    assert forall i :: n <= i < |before| ==> before[i] == cs[i];
  }

  /**
   In every run a job's replanning window only widens: its latest end is never
   brought forward, and its not-before never comes down except by postponing it.
   */
  lemma {:induction false} ReplanningWindowsWiden(cs: seq<Command>, n: nat, job: JobId)
    requires AllWellFormed(cs) && n <= |cs| && job in Serve(cs[..n]).rows
    ensures job in Serve(cs).rows
    ensures Widens(Serve(cs[..n]).rows[job], Serve(cs).rows[job], PostponedSince(cs, n, job))
  {
    if n == |cs| {
      assert cs[..n] == cs;
    } else {
      var before, c := cs[..|cs| - 1], cs[|cs| - 1];
      assert before[..n] == cs[..n];
      ReplanningWindowsWiden(before, n, job);
      ServeSound(before);
      CommandWidens(Serve(before), c, job);
      PostponedLater(cs, n, job);
      WidensOn(Serve(cs[..n]).rows[job], Serve(before).rows[job], Serve(cs).rows[job],
               PostponedSince(before, n, job), Postpones(c, job), PostponedSince(cs, n, job));
    }
  }

  /** The command is this decision on this job, and its plan succeeds. */
  predicate Decides(s: Store, c: Command, job: JobId, share: Share) {
    && c.Decide? && c.job == job && job in s.rows && !c.decision.Assign?
    && DecisionShare(s.rows[job], HistoryOf(s.history, job), c.decision, c.actor, c.at) == Ok(share)
  }

  lemma DecisionStored(s: Store, c: Command, job: JobId, share: Share)
    requires StoreSound(s) && Decides(s, c, job, share)
    ensures job in Perform(s, c).rows && Perform(s, c).rows[job] == AsJob(share.mutation, s.rows[job])
  {
    JobOf(s, job);
    DecisionOwn(s.rows[job], HistoryOf(s.history, job), c.decision, c.actor, c.at, share);
    DecisionWritten(s, job, c.decision, c.actor, c.at, share);
    DecisionPerformed(s, c, share);
  }

  /** What a decision rules out for replanning: time before the date chosen, the block given up, or the work observed. */
  function RuledOut(row: Row, d: Decision): int
    requires row.end.Some?
  {
    match d
    case Postpone(_, notBefore, _, _) => notBefore
    case Release(_, _, _) => row.end.value
    case ReportNotCompleted(facts, _, _) =>
      Max(row.end.value, OrElse(ObservedMinute(facts.actualEndAt, facts.horizonStart, true), row.end.value))
    case _ => 0
  }

  predicate SendsBack(d: Decision) { d.Postpone? || d.Release? || d.ReportNotCompleted? }

  lemma SentBackRow(row: Row, h: seq<Event>, d: Decision, actor: Actor, at: int, s: Share)
    requires DecisionShare(row, h, d, actor, at) == Ok(s) && SendsBack(d)
    ensures row.end.Some? && RuledOut(row, d) <= EarliestOf(AsJob(s.mutation, row))
  {
  }

  /**
   In every run, a job sent back at step n is never again free for replanning
   into time that decision ruled out, until it is postponed anew.
   */
  lemma RuledOutStaysClosed(cs: seq<Command>, n: nat, job: JobId, share: Share)
    requires AllWellFormed(cs) && n < |cs| && Decides(Serve(cs[..n]), cs[n], job, share) && SendsBack(cs[n].decision)
    requires !PostponedSince(cs, n + 1, job)
    ensures job in Serve(cs).rows && Serve(cs[..n]).rows[job].end.Some?
    ensures RuledOut(Serve(cs[..n]).rows[job], cs[n].decision) <= EarliestOf(Serve(cs).rows[job])
  {
    var s, c := Serve(cs[..n]), cs[n];
    ServeSound(cs[..n]);
    SentBackRow(s.rows[job], HistoryOf(s.history, job), c.decision, c.actor, c.at, share);
    DecisionStored(s, c, job, share);
    ServeNext(cs, n);
    ReplanningWindowsWiden(cs, n + 1, job);
  }

  // ------------------------------------------------------------------
  // What every event of a history is like
  // ------------------------------------------------------------------

  type EventRule = Event -> bool

  predicate AllEvents(es: seq<Event>, rule: EventRule) { forall i :: 0 <= i < |es| ==> rule(es[i]) }

  predicate PlanEvents(row: Row, plan: Planner, rule: EventRule) {
    plan(row).Ok? && plan(row).value.Some? ==> AllEvents(plan(row).value.value.events, rule)
  }

  lemma {:induction false} BatchEvents(rows: map<JobId, Row>, jobIds: seq<JobId>, plan: Planner, rule: EventRule)
    requires Shares(rows, jobIds, plan).Ok? && forall k :: k in rows ==> PlanEvents(rows[k], plan, rule)
    ensures AllEvents(Shares(rows, jobIds, plan).value.events, rule)
  {
    if jobIds != [] {
      BatchEvents(rows, jobIds[..|jobIds| - 1], plan, rule);
      assert PlanEvents(rows[jobIds[|jobIds| - 1]], plan, rule);
    }
  }

  /** Approving, rejecting, postponing, releasing and reporting work are recorded as done by an identified person. */
  predicate Accountable(e: Event) {
    (e.kind.BlockCommitted? || e.kind.ProposalRejected? || e.kind.ProposalPostponed? || e.kind.BlockReleased?
     || IsExecutionEvent(e.kind)) ==> e.actor.IdentifiedHuman?
  }

  predicate PlacesBlock(k: EventKind) {
    k.BlockProposed? || k.BlockReproposed? || k.CommittedPreserved? || k.BlockCommitted? || k.ScheduleAssigned?
  }

  /** An event that places a block states the very window of the state it leaves. */
  predicate StatesWindow(e: Event) {
    PlacesBlock(e.kind) ==>
      && e.after.Some? && e.after.value.start.Some? && e.after.value.end.Some?
      && e.meta.startMinute == Num(e.after.value.start.value)
      && e.meta.endMinute == Num(e.after.value.end.value)
  }

  predicate Kept(e: Event) { Accountable(e) && StatesWindow(e) }

  lemma OutcomeEventsKept(row: Row, plan: Planner, attempt: Attempt, at: int, solver: string, placements: map<JobId, Placement>,
                          refusals: map<JobId, string>, expected: Option<map<JobId, Status>>)
    requires plan == OutcomePlanner(attempt, at, solver, placements, refusals, expected)
    ensures PlanEvents(row, plan, Kept)
  {
  }

  lemma FailureEventsKept(row: Row, plan: Planner, attempt: Attempt, at: int, reason: string, lbl: string)
    requires plan == FailurePlanner(attempt, at, reason, lbl)
    ensures PlanEvents(row, plan, Kept)
  {
  }

  lemma DecisionAccountable(row: Row, h: seq<Event>, d: Decision, actor: Actor, at: int, s: Share)
    requires DecisionShare(row, h, d, actor, at) == Ok(s)
    ensures AllEvents(s.events, Accountable)
  {
  }

  lemma DecisionStatesWindow(row: Row, h: seq<Event>, d: Decision, actor: Actor, at: int, s: Share)
    requires DecisionShare(row, h, d, actor, at) == Ok(s)
    ensures AllEvents(s.events, StatesWindow)
  {
  }

  lemma BothKept(es: seq<Event>)
    requires AllEvents(es, Accountable) && AllEvents(es, StatesWindow)
    ensures AllEvents(es, Kept)
  {
  }

  lemma BatchEventsKept(s: Store, c: Command, b: Batch)
    requires BatchOf(s, c) == Ok(b)
    ensures AllEvents(b.events, Kept)
  {
    match c {
      case Optimized(jobIds, attempt, at, solver, placements, refusals, expected) =>
        var plan := OutcomePlanner(attempt, at, solver, placements, refusals, expected);
        forall k | k in s.rows ensures PlanEvents(s.rows[k], plan, Kept) {
          OutcomeEventsKept(s.rows[k], plan, attempt, at, solver, placements, refusals, expected);
        }
        BatchEvents(s.rows, jobIds, plan, Kept);
      case OptimizationErrored(jobIds, attempt, at, reason, lbl) =>
        var plan := FailurePlanner(attempt, at, reason, lbl);
        forall k | k in s.rows ensures PlanEvents(s.rows[k], plan, Kept) {
          FailureEventsKept(s.rows[k], plan, attempt, at, reason, lbl);
        }
        BatchEvents(s.rows, jobIds, plan, Kept);
      case Decide(job, d, actor, at) =>
        var share := DecisionShare(s.rows[job], HistoryOf(s.history, job), d, actor, at).value;
        DecisionAccountable(s.rows[job], HistoryOf(s.history, job), d, actor, at, share);
        DecisionStatesWindow(s.rows[job], HistoryOf(s.history, job), d, actor, at, share);
        BothKept(share.events);
      case _ =>
    }
  }

  /** What one call appends to the history. */
  lemma AppliedHistory(s: Store, w: Write) returns (es: seq<Event>)
    ensures Apply(s, w).history == s.history + es
    ensures es == [] || (w.CreateJob? && es == w.created) || (w.Mutate? && es == w.batch.events) || (w.AppendEvents? && es == w.events)
  {
    es := match w
      case CreateJob(row, created) => if row.jobId in s.rows then [] else created
      case Mutate(_, batch, _) => if Accepted(s, w) then batch.events else []
      case AppendEvents(events) => events
      case _ => [];
    assert s.history + [] == s.history;
  }

  lemma WriteKept(s: Store, c: Command, w: Write)
    requires WriteOf(s, c) == Some(w)
    ensures w.CreateJob? ==> AllEvents(w.created, Kept)
    ensures w.Mutate? ==> AllEvents(w.batch.events, Kept)
    ensures w.AppendEvents? ==> AllEvents(w.events, Kept)
  {
    if BatchOf(s, c).Ok? {
      BatchEventsKept(s, c, BatchOf(s, c).value);
    }
  }

  lemma {:induction false} HistoryKept(cs: seq<Command>)
    ensures AllEvents(Serve(cs).history, Kept)
  {
    if cs != [] {
      var s, c := Serve(cs[..|cs| - 1]), cs[|cs| - 1];
      HistoryKept(cs[..|cs| - 1]);
      var w := WriteOf(s, c);
      if w.Some? {
        WriteKept(s, c, w.value);
        var es := AppliedHistory(s, w.value);
        assert AllEvents(es, Kept);
      }
    }
  }

  /** In every run every approval, rejection, postponement, release and execution event names an identified person. */
  lemma HistoryIsAccountable(cs: seq<Command>)
    ensures AllEvents(Serve(cs).history, Accountable)
  {
    HistoryKept(cs);
    forall i | 0 <= i < |Serve(cs).history| ensures Accountable(Serve(cs).history[i]) { assert Kept(Serve(cs).history[i]); }
  }

  /** In every run every event that places a block states the window of the state it leaves. */
  lemma HistoryStatesWindows(cs: seq<Command>)
    ensures AllEvents(Serve(cs).history, StatesWindow)
  {
    HistoryKept(cs);
    forall i | 0 <= i < |Serve(cs).history| ensures StatesWindow(Serve(cs).history[i]) { assert Kept(Serve(cs).history[i]); }
  }

  // ------------------------------------------------------------------
  // One mutation per job
  // ------------------------------------------------------------------

  lemma OutcomeOwn(row: Row, plan: Planner, attempt: Attempt, at: int, solver: string, placements: map<JobId, Placement>,
                   refusals: map<JobId, string>, expected: Option<map<JobId, Status>>)
    requires plan == OutcomePlanner(attempt, at, solver, placements, refusals, expected)
    ensures OwnPlan(plan, row)
  {
    if OutcomeFor(row, attempt, at, solver, placements, refusals, expected).Ok? {
      OutcomeShape(row, attempt, at, solver, placements, refusals, expected);
    }
  }

  /** The batch of every planned command mutates each job at most once, so it conserves every job's executions. */
  lemma PlannedBatchesAreDistinct(s: Store, c: Command, b: Batch)
    requires KeyedRows(s) && WellFormed(c) && BatchOf(s, c) == Ok(b)
    ensures DistinctJobs(b.mutations)
    ensures forall job :: LastCarriesExecution(b.mutations, job) && LastCarriesRelease(b.mutations, job)
  {
    match c {
      case Optimized(jobIds, attempt, at, solver, placements, refusals, expected) =>
        var plan := OutcomePlanner(attempt, at, solver, placements, refusals, expected);
        forall k | k in s.rows ensures OwnPlan(plan, s.rows[k]) {
          OutcomeOwn(s.rows[k], plan, attempt, at, solver, placements, refusals, expected);
        }
        SharesAreDistinct(s.rows, jobIds, plan);
      case OptimizationErrored(jobIds, attempt, at, reason, lbl) =>
        SharesAreDistinct(s.rows, jobIds, FailurePlanner(attempt, at, reason, lbl));
      case _ =>
    }
    forall job ensures LastCarriesExecution(b.mutations, job) && LastCarriesRelease(b.mutations, job) {
      DistinctLastCarries(b.mutations, job);
    }
  }
}
