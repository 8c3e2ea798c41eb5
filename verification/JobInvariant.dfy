/**
 What the shipped planners keep true of one job and its history, and that
 each of their results passes the guard and keeps it true.
 */
module JobInvariant {
  import opened Wrappers
  import opened JobModel
  import opened Guard
  import opened EventBacking
  import opened Execution
  import opened Planners

  // ------------------------------------------------------------------
  // The row
  // ------------------------------------------------------------------

  predicate Placed(row: Row) {
    && ValidWindow(row.start, row.end)
    && row.block.meta.cStart == Val(row.start.value)
    && row.block.meta.cEnd == Val(row.end.value)
    && !row.block.meta.run.Null?
  }

  /** Status, block status, flag, columns and placement metadata agree. */
  predicate RowSound(row: Row) {
    && row.trackId != ""
    && row.block.sectionId != Some("")
    && match row.status
       case Reported => FullyWithdrawn(row.block, row.start, row.end)
       case Scheduled =>
         row.block.status == Proposed && !row.block.committed && Placed(row) && row.block.meta.execId.Absent?
       case Notified => Pinned(row.block) && Placed(row) && row.block.meta.execId.Absent?
       case _ => Pinned(row.block) && Placed(row) && Truthy(row.block.meta.execId) && Truthy(row.block.meta.run)
  }

  // ------------------------------------------------------------------
  // The journal
  // ------------------------------------------------------------------

  /** Consecutive events link: each begins in the state the one before it ended in. */
  predicate Chain(es: seq<Event>, first: Option<Snapshot>, last: Option<Snapshot>) {
    && es != []
    && es[0].before == first
    && es[|es| - 1].after == last
    && forall i :: 0 < i < |es| ==> es[i].before.Some? && es[i].before == es[i - 1].after
  }

  lemma ChainConcat(a: seq<Event>, b: seq<Event>, first: Option<Snapshot>, mid: Snapshot, last: Option<Snapshot>)
    requires Chain(a, first, Some(mid)) && Chain(b, Some(mid), last)
    ensures Chain(a + b, first, last)
  {
    var c := a + b;
    forall i | 0 < i < |c| ensures c[i].before.Some? && c[i].before == c[i - 1].after {
      if i < |a| {
        assert c[i] == a[i] && c[i - 1] == a[i - 1];
      } else if i == |a| {
        assert c[i] == b[0] && c[i - 1] == a[|a| - 1];
      } else {
        assert c[i] == b[i - |a|] && c[i - 1] == b[i - |a| - 1];
      }
    }
  }

  // ------------------------------------------------------------------
  // Proposals
  // ------------------------------------------------------------------

  predicate IsProposal(k: EventKind) { k.BlockProposed? || k.BlockReproposed? }

  /** The events in which an optimization attempt that considered the job says what became of it. */
  predicate IsConsidering(k: EventKind) {
    || IsProposal(k) || k.OptimizationRefused? || k.ProposalInvalidated? || k.OptimizationFailed?
    || k.CommittedPreserved? || k.CommittedConflict?
  }

  predicate Picked(k: EventKind, considering: bool) { if considering then IsConsidering(k) else IsProposal(k) }

  function Latest(es: seq<Event>, considering: bool): Option<Event> {
    if es == [] then None
    else if Picked(es[|es| - 1].kind, considering) then Some(es[|es| - 1])
    else Latest(es[..|es| - 1], considering)
  }

  lemma {:induction false} LatestConcat(a: seq<Event>, b: seq<Event>, considering: bool)
    ensures Latest(a + b, considering) == if Latest(b, considering).Some? then Latest(b, considering) else Latest(a, considering)
  {
    if b == [] {
      assert a + b == a;
    } else {
      assert (a + b)[..|a + b| - 1] == a + b[..|b| - 1];
      LatestConcat(a, b[..|b| - 1], considering);
    }
  }

  predicate Proposes(o: Option<Event>, row: Row) {
    && o.Some?
    && IsProposal(o.value.kind)
    && o.value.runId == RunOf(row)
    && row.start.Some? && o.value.meta.startMinute == Num(row.start.value)
    && row.end.Some? && o.value.meta.endMinute == Num(row.end.value)
  }

  /**
   A placed job that names a run has that run's proposal of exactly its window
   as the latest proposal in its history; while merely scheduled, no later
   attempt has even considered it.
   */
  predicate Traced(row: Row, h: seq<Event>) {
    !row.status.Reported? && RunOf(row).Some? ==>
      && Proposes(Latest(h, false), row)
      && (row.status.Scheduled? ==> Latest(h, true) == Latest(h, false))
  }

  // ------------------------------------------------------------------
  // Execution records
  // ------------------------------------------------------------------

  /** The open record is the row's own execution of the row's own committed block. */
  predicate OpenMatches(row: Row, r: ExecutionRecord) {
    && ExecutionOf(row).Some? && NamesOpenExecution(row, ExecutionOf(row).value, r)
    && IsExecutionId(r.executionId)
    && row.start.Some? && row.end.Some?
    && r.digest.Hash?
    && r.digest.of == CommittedBlockDigest(row, r.digest.of.corridorId, r.runId)
  }

  predicate RecordsFit(row: Row, rs: seq<ExecutionRecord>) {
    && (forall k :: 0 <= k < |rs| ==> rs[k].jobId == row.jobId)
    && (forall k :: 0 <= k < |rs| - 1 ==> rs[k].status.NotDone?)
    && match row.status
       case InProgress => rs != [] && OpenMatches(row, rs[|rs| - 1])
       case Completed => rs != [] && rs[|rs| - 1].status.Done?
       case _ => rs != [] ==> rs[|rs| - 1].status.NotDone?
  }

  predicate Executed(row: Row, h: seq<Event>) {
    Derive(row.jobId, h).Ok? && RecordsFit(row, Derive(row.jobId, h).value)
  }

  predicate JobSound(row: Row, h: seq<Event>) {
    && RowSound(row)
    && Chain(h, None, Some(SnapshotOf(row)))
    && Traced(row, h)
    && Executed(row, h)
  }

  /** Under the invariant the derivation never refuses the history, and the row agrees with it. */
  lemma RecordsNeverRefused(row: Row, h: seq<Event>)
    requires Executed(row, h)
    ensures RecordsOf(row, h) == Derive(row.jobId, h)
    ensures OpenRecords(Derive(row.jobId, h).value) ==
            if row.status.InProgress? then [Derive(row.jobId, h).value[|Derive(row.jobId, h).value| - 1]] else []
  {
    OpenIsLast(Derive(row.jobId, h).value);
  }

  // ------------------------------------------------------------------
  // What a planner's share must do
  // ------------------------------------------------------------------

  predicate Ungated(k: EventKind) { !IsExecutionEvent(k) && !k.BlockReleased? && !k.LegacyCompleted? }

  /** No token and no gated event; or one event, and the token it needs. */
  predicate LocallyBacked(s: Share) {
    || (NoTokens(s.mutation) && forall i :: 0 <= i < |s.events| ==> Ungated(s.events[i].kind))
    || (&& |s.events| == 1
        && s.events[0].jobId == s.mutation.jobId
        && s.mutation.release.None?
        && s.mutation.execution.Some?
        && MatchesToken(s.events[0], s.mutation.jobId, s.mutation.execution.value)
        && (s.events[0].kind.ExecutionCompleted? ==> HasEvidence(s.events[0].meta.afterEvidence)))
    || (&& |s.events| == 1
        && s.mutation.execution.None?
        && s.mutation.release.Some?
        && MatchesRelease(s.events[0], s.mutation.jobId, s.mutation.release.value))
  }

  predicate OwnEvents(row: Row, s: Share) {
    s.mutation.jobId == row.jobId && forall i :: 0 <= i < |s.events| ==> s.events[i].jobId == row.jobId
  }

  /** The guard permits the share, its tokens are backed, and it keeps the invariant. */
  predicate ShareSound(row: Row, h: seq<Event>, s: Share) {
    && OwnEvents(row, s)
    && MovePermitted(row, s.mutation)
    && LocallyBacked(s)
    && JobSound(AsJob(s.mutation, row), h + s.events)
  }

  // ------------------------------------------------------------------
  // Writes that leave executions alone
  // ------------------------------------------------------------------

  lemma {:induction false} DeriveQuiet(job: JobId, h: seq<Event>, es: seq<Event>)
    requires forall i :: 0 <= i < |es| ==> !IsExecutionEvent(es[i].kind)
    ensures Derive(job, h + es) == Derive(job, h)
  {
    if es == [] {
      assert h + es == h;
    } else {
      assert (h + es)[..|h + es| - 1] == h + es[..|es| - 1];
      DeriveQuiet(job, h, es[..|es| - 1]);
    }
  }

  /** The change does not touch what the execution records speak about. */
  predicate SameExecutionSide(a: Row, b: Row) {
    && a.jobId == b.jobId
    && (a.status.InProgress? <==> b.status.InProgress?)
    && (a.status.Completed? <==> b.status.Completed?)
    && (a.status.InProgress? ==>
          && a.block.meta == b.block.meta && a.block.sectionId == b.block.sectionId
          && a.start == b.start && a.end == b.end && a.trackId == b.trackId && a.workType == b.workType)
  }

  lemma KeepsQuietly(row: Row, h: seq<Event>, s: Share)
    requires JobSound(row, h) && OwnEvents(row, s)
    requires var after := AsJob(s.mutation, row);
             && RowSound(after) && SameExecutionSide(row, after)
             && Chain(s.events, Some(SnapshotOf(row)), Some(SnapshotOf(after)))
             && Traced(after, h + s.events)
    requires forall i :: 0 <= i < |s.events| ==> !IsExecutionEvent(s.events[i].kind)
    ensures JobSound(AsJob(s.mutation, row), h + s.events)
  {
    DeriveQuiet(row.jobId, h, s.events);
    ChainConcat(h, s.events, None, SnapshotOf(row), Some(SnapshotOf(AsJob(s.mutation, row))));
  }

  /** A single event that is neither a proposal nor a considered attempt leaves the trace alone. */
  lemma LatestAfterOne(h: seq<Event>, e: Event)
    ensures forall c :: Latest(h + [e], c) == if Picked(e.kind, c) then Some(e) else Latest(h, c)
  {
    assert (h + [e])[..|h|] == h;
  }

  // ------------------------------------------------------------------
  // Optimization
  // ------------------------------------------------------------------

  lemma LatestAfterThree(h: seq<Event>, a: Event, b: Event, c: Event)
    requires !Picked(a.kind, true) && !Picked(b.kind, true)
    ensures forall k :: Latest(h + [a, b, c], k) == if Picked(c.kind, k) then Some(c) else Latest(h, k)
  {
    assert h + [a, b, c] == h + [a] + [b] + [c];
    LatestAfterOne(h, a);
    LatestAfterOne(h + [a], b);
    LatestAfterOne(h + [a] + [b], c);
  }

  predicate Placeable(row: Row, placements: map<JobId, Placement>) {
    && !row.status.Completed?
    && (row.jobId in placements && !IsCommittedStatus(row.status) ==>
          placements[row.jobId].start < placements[row.jobId].end)
  }

  /** The guard accepts a solver outcome for a job exactly when the job is live and its window is a window. */
  lemma OutcomePermitted(row: Row, attempt: Attempt, at: int, solver: string, placements: map<JobId, Placement>,
                         refusals: map<JobId, string>, expected: Option<map<JobId, Status>>)
    requires RowSound(row) && OutcomeFor(row, attempt, at, solver, placements, refusals, expected).Ok?
    ensures MovePermitted(row, OutcomeFor(row, attempt, at, solver, placements, refusals, expected).value.mutation)
            <==> Placeable(row, placements)
  {
  }

  predicate SameProposal(a: Row, b: Row) {
    a.status == b.status && RunOf(a) == RunOf(b) && a.start == b.start && a.end == b.end
  }

  /** A solver outcome keeps the row sound and its executions untouched. */
  lemma OutcomeRow(row: Row, attempt: Attempt, at: int, solver: string, placements: map<JobId, Placement>,
                   refusals: map<JobId, string>, expected: Option<map<JobId, Status>>)
    requires RowSound(row) && Placeable(row, placements)
    requires OutcomeFor(row, attempt, at, solver, placements, refusals, expected).Ok?
    ensures var s := OutcomeFor(row, attempt, at, solver, placements, refusals, expected).value;
            RowSound(AsJob(s.mutation, row)) && SameExecutionSide(row, AsJob(s.mutation, row))
  {
  }

  /** Two events that change nothing and an outcome make a linked, ungated stretch of three. */
  lemma ConsideredShape(row: Row, attempt: Attempt, at: int, outcome: Event, after: Row, es: seq<Event>)
    requires es == ConsideredEvents(row, attempt, at, outcome)
    requires outcome.jobId == row.jobId && Ungated(outcome.kind)
    requires outcome.before == Some(SnapshotOf(row)) && outcome.after == Some(SnapshotOf(after))
    ensures |es| == 3 && es[2] == outcome && !Picked(es[0].kind, true) && !Picked(es[1].kind, true)
    ensures Chain(es, Some(SnapshotOf(row)), Some(SnapshotOf(after)))
    ensures forall i :: 0 <= i < |es| ==> Ungated(es[i].kind) && es[i].jobId == row.jobId
  {
  }

  /** A solver outcome writes three linked, ungated events of the job itself, and no token. */
  lemma OutcomeShape(row: Row, attempt: Attempt, at: int, solver: string, placements: map<JobId, Placement>,
                     refusals: map<JobId, string>, expected: Option<map<JobId, Status>>)
    requires OutcomeFor(row, attempt, at, solver, placements, refusals, expected).Ok?
    ensures var s := OutcomeFor(row, attempt, at, solver, placements, refusals, expected).value;
            && OwnEvents(row, s) && NoTokens(s.mutation)
            && Chain(s.events, Some(SnapshotOf(row)), Some(SnapshotOf(AsJob(s.mutation, row))))
            && |s.events| == 3 && !Picked(s.events[0].kind, true) && !Picked(s.events[1].kind, true)
            && forall i :: 0 <= i < |s.events| ==> Ungated(s.events[i].kind)
  {
    var s := OutcomeFor(row, attempt, at, solver, placements, refusals, expected).value;
    ConsideredShape(row, attempt, at, s.events[2], AsJob(s.mutation, row), s.events);
  }

  /** What the last event of an outcome says about the row it leaves behind. */
  lemma OutcomeEvent(row: Row, attempt: Attempt, at: int, solver: string, placements: map<JobId, Placement>,
                     refusals: map<JobId, string>, expected: Option<map<JobId, Status>>)
    requires RowSound(row) && Placeable(row, placements)
    requires OutcomeFor(row, attempt, at, solver, placements, refusals, expected).Ok?
    ensures var s := OutcomeFor(row, attempt, at, solver, placements, refusals, expected).value;
            var after, e := AsJob(s.mutation, row), s.events[2];
            && (after.status.Scheduled? ==> Proposes(Some(e), after))
            && (IsCommittedStatus(after.status) ==> !IsProposal(e.kind) && SameProposal(row, after))
            && !after.status.Completed?
  {
  }

  lemma OutcomeKeeps(row: Row, h: seq<Event>, attempt: Attempt, at: int, solver: string,
                     placements: map<JobId, Placement>, refusals: map<JobId, string>,
                     expected: Option<map<JobId, Status>>)
    requires JobSound(row, h) && OutcomeFor(row, attempt, at, solver, placements, refusals, expected).Ok?
    requires Placeable(row, placements)
    ensures ShareSound(row, h, OutcomeFor(row, attempt, at, solver, placements, refusals, expected).value)
    ensures NoTokens(OutcomeFor(row, attempt, at, solver, placements, refusals, expected).value.mutation)
  {
    var s := OutcomeFor(row, attempt, at, solver, placements, refusals, expected).value;
    OutcomePermitted(row, attempt, at, solver, placements, refusals, expected);
    OutcomeRow(row, attempt, at, solver, placements, refusals, expected);
    OutcomeShape(row, attempt, at, solver, placements, refusals, expected);
    OutcomeEvent(row, attempt, at, solver, placements, refusals, expected);
    QuietOutcome(row, h, s);
  }

  lemma QuietOutcome(row: Row, h: seq<Event>, s: Share)
    requires JobSound(row, h) && OwnEvents(row, s) && |s.events| == 3
    requires RowSound(AsJob(s.mutation, row)) && SameExecutionSide(row, AsJob(s.mutation, row))
    requires Chain(s.events, Some(SnapshotOf(row)), Some(SnapshotOf(AsJob(s.mutation, row))))
    requires !Picked(s.events[0].kind, true) && !Picked(s.events[1].kind, true)
    requires forall i :: 0 <= i < |s.events| ==> Ungated(s.events[i].kind)
    requires var after, e := AsJob(s.mutation, row), s.events[2];
             && (after.status.Scheduled? ==> Proposes(Some(e), after))
             && (IsCommittedStatus(after.status) ==> !IsProposal(e.kind) && SameProposal(row, after))
             && !after.status.Completed?
    ensures JobSound(AsJob(s.mutation, row), h + s.events)
  {
    assert s.events == [s.events[0], s.events[1], s.events[2]];
    LatestAfterThree(h, s.events[0], s.events[1], s.events[2]);
    KeepsQuietly(row, h, s);
  }

  lemma FailureShape(row: Row, attempt: Attempt, at: int, reason: string, lbl: string)
    requires RowSound(row) && !row.status.Completed?
    ensures var s := FailureFor(row, attempt, at, reason, lbl);
            var after := AsJob(s.mutation, row);
            && OwnEvents(row, s) && NoTokens(s.mutation) && MovePermitted(row, s.mutation)
            && RowSound(after) && SameExecutionSide(row, after)
            && Chain(s.events, Some(SnapshotOf(row)), Some(SnapshotOf(after)))
            && forall i :: 0 <= i < |s.events| ==> Ungated(s.events[i].kind)
  {
  }

  lemma FailureKeeps(row: Row, h: seq<Event>, attempt: Attempt, at: int, reason: string, lbl: string)
    requires JobSound(row, h) && !row.status.Completed?
    ensures ShareSound(row, h, FailureFor(row, attempt, at, reason, lbl))
    ensures NoTokens(FailureFor(row, attempt, at, reason, lbl).mutation)
  {
    var s := FailureFor(row, attempt, at, reason, lbl);
    FailureShape(row, attempt, at, reason, lbl);
    if !row.status.Scheduled? {
      assert h + s.events == h + [s.events[0]] + [s.events[1]];
      LatestAfterOne(h, s.events[0]);
      LatestAfterOne(h + [s.events[0]], s.events[1]);
    }
    KeepsQuietly(row, h, s);
  }

  // ------------------------------------------------------------------
  // Human decisions
  // ------------------------------------------------------------------

  lemma CommitKeeps(row: Row, h: seq<Event>, actor: Actor, at: int, expectedRun: Option<string>)
    requires JobSound(row, h) && PlanCommit(row, actor, at, expectedRun).Ok?
    ensures ShareSound(row, h, PlanCommit(row, actor, at, expectedRun).value)
  {
    var s := PlanCommit(row, actor, at, expectedRun).value;
    LatestAfterOne(h, s.events[0]);
    KeepsQuietly(row, h, s);
  }

  lemma RejectKeeps(row: Row, h: seq<Event>, actor: Actor, at: int, reason: string, expectedRun: string)
    requires JobSound(row, h) && PlanReject(row, actor, at, reason, expectedRun).Ok?
    ensures ShareSound(row, h, PlanReject(row, actor, at, reason, expectedRun).value)
  {
    KeepsQuietly(row, h, PlanReject(row, actor, at, reason, expectedRun).value);
  }

  lemma PostponeKeeps(row: Row, h: seq<Event>, actor: Actor, at: int, reason: string, notBefore: int, horizon: int,
                      expectedRun: string)
    requires JobSound(row, h) && PlanPostpone(row, actor, at, reason, notBefore, horizon, expectedRun).Ok?
    ensures ShareSound(row, h, PlanPostpone(row, actor, at, reason, notBefore, horizon, expectedRun).value)
  {
    KeepsQuietly(row, h, PlanPostpone(row, actor, at, reason, notBefore, horizon, expectedRun).value);
  }

  lemma ReleaseKeeps(row: Row, h: seq<Event>, actor: Actor, at: int, reason: string, expectedRun: string, horizon: int)
    requires JobSound(row, h) && PlanRelease(row, actor, at, reason, expectedRun, horizon).Ok?
    ensures ShareSound(row, h, PlanRelease(row, actor, at, reason, expectedRun, horizon).value)
  {
    KeepsQuietly(row, h, PlanRelease(row, actor, at, reason, expectedRun, horizon).value);
  }

  /** A direct assignment is accepted exactly when its window is a window. */
  lemma AssignKeeps(row: Row, h: seq<Event>, start: int, end: int, actor: Actor, at: int)
    requires JobSound(row, h) && PlanScheduleAssignment(row, start, end, actor, at).Ok?
    ensures start < end <==> MovePermitted(row, PlanScheduleAssignment(row, start, end, actor, at).value.mutation)
    ensures start < end ==> ShareSound(row, h, PlanScheduleAssignment(row, start, end, actor, at).value)
  {
    if start < end {
      KeepsQuietly(row, h, PlanScheduleAssignment(row, start, end, actor, at).value);
    }
  }

  // ------------------------------------------------------------------
  // Execution
  // ------------------------------------------------------------------

  lemma DeriveAfterOne(job: JobId, h: seq<Event>, e: Event)
    requires Derive(job, h).Ok?
    ensures Derive(job, h + [e]) == Admit(job, Derive(job, h).value, e)
  {
    assert (h + [e])[..|h|] == h;
  }

  /** A start the planner accepts is a start the derivation admits. */
  lemma StartAdmits(row: Row, rs: seq<ExecutionRecord>, actor: Actor, at: int, f: StartFacts)
    requires RowSound(row) && row.status.Notified? && RecordsFit(row, rs)
    requires PlanExecutionStart(row, actor, at, f, rs).Ok?
    ensures var s := PlanExecutionStart(row, actor, at, f, rs).value;
            && HeaderOk(row.jobId, s.events[0]) && StartFactsOk(s.events[0])
            && Admit(row.jobId, rs, s.events[0]) == Ok(rs + [Begun(row.jobId, s.events[0])])
  {
    var e := PlanExecutionStart(row, actor, at, f, rs).value.events[0];
    assert e.meta.beforeEvidence.items != [];
    forall k | 0 <= k < |rs|
      ensures rs[k].executionId != f.executionId && rs[k].runId != f.expectedRun && rs[k].status.NotDone?
    {
      assert !ForbidsStart(rs[k], row, f.executionId);
    }
  }

  lemma StartShape(row: Row, rs: seq<ExecutionRecord>, actor: Actor, at: int, f: StartFacts)
    requires RowSound(row) && PlanExecutionStart(row, actor, at, f, rs).Ok?
    ensures var s := PlanExecutionStart(row, actor, at, f, rs).value;
            var after := AsJob(s.mutation, row);
            && row.status.Notified?
            && OwnEvents(row, s) && MovePermitted(row, s.mutation) && LocallyBacked(s)
            && |s.events| == 1 && s.events[0].kind.ExecutionStarted?
            && RowSound(after)
            && after.status.InProgress?
            && Chain(s.events, Some(SnapshotOf(row)), Some(SnapshotOf(after)))
            && RunOf(after) == RunOf(row) && after.start == row.start && after.end == row.end
  {
  }

  lemma StartOpens(row: Row, rs: seq<ExecutionRecord>, actor: Actor, at: int, f: StartFacts)
    requires RowSound(row) && PlanExecutionStart(row, actor, at, f, rs).Ok?
    requires var e := PlanExecutionStart(row, actor, at, f, rs).value.events[0];
             HeaderOk(row.jobId, e) && StartFactsOk(e)
    ensures var s := PlanExecutionStart(row, actor, at, f, rs).value;
            OpenMatches(AsJob(s.mutation, row), Begun(row.jobId, s.events[0]))
  {
  }

  lemma StartKeeps(row: Row, h: seq<Event>, actor: Actor, at: int, f: StartFacts)
    requires JobSound(row, h)
    requires PlanExecutionStart(row, actor, at, f, Derive(row.jobId, h).value).Ok?
    ensures ShareSound(row, h, PlanExecutionStart(row, actor, at, f, Derive(row.jobId, h).value).value)
  {
    var rs := Derive(row.jobId, h).value;
    var s := PlanExecutionStart(row, actor, at, f, rs).value;
    StartShape(row, rs, actor, at, f);
    StartAdmits(row, rs, actor, at, f);
    StartOpens(row, rs, actor, at, f);
    KeepsWithOneEvent(row, AsJob(s.mutation, row), h, s.events[0], rs, rs + [Begun(row.jobId, s.events[0])]);
    assert s.events == [s.events[0]];
  }

  predicate SameRunAndWindow(a: Row, b: Row) { RunOf(a) == RunOf(b) && a.start == b.start && a.end == b.end }

  /** The common end of the three execution planners: one event, admitted with these records. */
  lemma KeepsWithOneEvent(row: Row, after: Row, h: seq<Event>, e: Event, rs: seq<ExecutionRecord>, out: seq<ExecutionRecord>)
    requires Chain(h, None, Some(SnapshotOf(row))) && Traced(row, h) && Derive(row.jobId, h) == Ok(rs)
    requires IsExecutionEvent(e.kind) && Admit(row.jobId, rs, e) == Ok(out)
    requires after.jobId == row.jobId && RowSound(after) && RecordsFit(after, out)
    requires Chain([e], Some(SnapshotOf(row)), Some(SnapshotOf(after)))
    requires !row.status.Reported? && !after.status.Scheduled?
    requires after.status.Reported? || SameRunAndWindow(row, after)
    ensures JobSound(after, h + [e])
  {
    DeriveAfterOne(row.jobId, h, e);
    LatestAfterOne(h, e);
    ChainConcat(h, [e], None, SnapshotOf(row), Some(SnapshotOf(after)));
  }

  /** The derivation admits an outcome of the open record, closing it in place. */
  lemma EndAdmits(row: Row, rs: seq<ExecutionRecord>, e: Event)
    requires row.status.InProgress? && RecordsFit(row, rs) && DistinctIds(rs)
    requires HeaderOk(row.jobId, e) && (e.kind.ExecutionCompleted? || e.kind.ExecutionNotCompleted?)
    requires e.meta.executionId == Text(rs[|rs| - 1].executionId) && EndAdmitted(rs[|rs| - 1], e)
    ensures Admit(row.jobId, rs, e) == Ok(rs[|rs| - 1 := Ended(rs[|rs| - 1], e)])
  {
    assert Find(rs, e.meta.executionId.s) == |rs| - 1;
  }

  /** The record an outcome is given: the open one of the job's derived history, if any. */
  function OpenRecord(rs: seq<ExecutionRecord>): Option<ExecutionRecord> {
    if OpenRecords(rs) == [] then None else Some(OpenRecords(rs)[0])
  }

  lemma OpenRecordOfJob(row: Row, rs: seq<ExecutionRecord>)
    requires RecordsFit(row, rs)
    ensures OpenRecord(rs) == if row.status.InProgress? then Some(rs[|rs| - 1]) else None
  {
    OpenIsLast(rs);
  }

  /** The one event of an outcome, the row it leaves, and the token it claims. */
  predicate OutcomeShare(row: Row, s: Share) {
    && OwnEvents(row, s) && MovePermitted(row, s.mutation) && LocallyBacked(s)
    && |s.events| == 1
    && RowSound(AsJob(s.mutation, row))
    && Chain([s.events[0]], Some(SnapshotOf(row)), Some(SnapshotOf(AsJob(s.mutation, row))))
  }

  /** An outcome event that the derivation admits for this record. */
  predicate OutcomeEventOf(job: JobId, record: ExecutionRecord, e: Event) {
    && (e.kind.ExecutionCompleted? || e.kind.ExecutionNotCompleted?)
    && HeaderOk(job, e) && EndAdmitted(record, e)
    && e.meta.executionId == Text(record.executionId)
  }

  lemma CompleteShape(row: Row, record: ExecutionRecord, actor: Actor, at: int, f: EndFacts, s: Share)
    requires RowSound(row) && row.status.InProgress? && PlanExecutionComplete(row, actor, at, f, Some(record)) == Ok(s)
    ensures OutcomeShare(row, s) && s.events[0].kind.ExecutionCompleted?
    ensures AsJob(s.mutation, row).status.Completed? && SameRunAndWindow(row, AsJob(s.mutation, row))
  {
    assert s.events[0].meta.afterEvidence.items != [];
  }

  lemma CompleteAdmitted(row: Row, record: ExecutionRecord, actor: Actor, at: int, f: EndFacts, s: Share)
    requires RowSound(row) && row.status.InProgress? && OpenMatches(row, record)
    requires PlanExecutionComplete(row, actor, at, f, Some(record)) == Ok(s)
    ensures OutcomeEventOf(row.jobId, record, s.events[0])
  {
    assert s.events[0].meta.afterEvidence.items != [];
  }

  lemma NotCompletedShape(row: Row, record: ExecutionRecord, actor: Actor, at: int, f: EndFacts, reason: string, horizon: int, s: Share)
    requires RowSound(row) && row.status.InProgress?
    requires PlanExecutionNotCompleted(row, actor, at, f, reason, horizon, Some(record)) == Ok(s)
    ensures OutcomeShare(row, s) && s.events[0].kind.ExecutionNotCompleted? && AsJob(s.mutation, row).status.Reported?
  {
  }

  lemma NotCompletedAdmitted(row: Row, record: ExecutionRecord, actor: Actor, at: int, f: EndFacts, reason: string, horizon: int, s: Share)
    requires RowSound(row) && row.status.InProgress? && OpenMatches(row, record)
    requires PlanExecutionNotCompleted(row, actor, at, f, reason, horizon, Some(record)) == Ok(s)
    ensures OutcomeEventOf(row.jobId, record, s.events[0])
  {
  }

  /** The records after the open one has ended, for the row that outcome leaves. */
  lemma EndedFits(row: Row, after: Row, rs: seq<ExecutionRecord>, e: Event, out: seq<ExecutionRecord>)
    requires row.status.InProgress? && RecordsFit(row, rs) && OutcomeEventOf(row.jobId, rs[|rs| - 1], e)
    requires out == rs[|rs| - 1 := Ended(rs[|rs| - 1], e)] && after.jobId == row.jobId
    requires if e.kind.ExecutionCompleted? then after.status.Completed? else after.status.Reported?
    ensures RecordsFit(after, out)
  {
  }

  /** Any planned outcome of the open record keeps the invariant. */
  lemma OutcomeOfOpenKeeps(row: Row, h: seq<Event>, rs: seq<ExecutionRecord>, s: Share)
    requires JobSound(row, h) && row.status.InProgress? && Derive(row.jobId, h) == Ok(rs)
    requires OutcomeShare(row, s) && OutcomeEventOf(row.jobId, rs[|rs| - 1], s.events[0])
    requires var after := AsJob(s.mutation, row);
             if s.events[0].kind.ExecutionCompleted? then after.status.Completed? && SameRunAndWindow(row, after)
             else after.status.Reported?
    ensures ShareSound(row, h, s)
  {
    var e, after := s.events[0], AsJob(s.mutation, row);
    var out := rs[|rs| - 1 := Ended(rs[|rs| - 1], e)];
    EndAdmits(row, rs, e);
    EndedFits(row, after, rs, e, out);
    KeepsWithOneEvent(row, after, h, e, rs, out);
    assert s.events == [e];
  }

  lemma CompleteKeeps(row: Row, h: seq<Event>, actor: Actor, at: int, f: EndFacts, s: Share)
    requires JobSound(row, h) && PlanExecutionComplete(row, actor, at, f, OpenRecord(Derive(row.jobId, h).value)) == Ok(s)
    ensures ShareSound(row, h, s)
  {
    var rs := Derive(row.jobId, h).value;
    OpenRecordOfJob(row, rs);
    CompleteShape(row, rs[|rs| - 1], actor, at, f, s);
    CompleteAdmitted(row, rs[|rs| - 1], actor, at, f, s);
    OutcomeOfOpenKeeps(row, h, rs, s);
  }

  lemma NotCompletedKeeps(row: Row, h: seq<Event>, actor: Actor, at: int, f: EndFacts, reason: string, horizon: int, s: Share)
    requires JobSound(row, h)
    requires PlanExecutionNotCompleted(row, actor, at, f, reason, horizon, OpenRecord(Derive(row.jobId, h).value)) == Ok(s)
    ensures ShareSound(row, h, s)
  {
    var rs := Derive(row.jobId, h).value;
    OpenRecordOfJob(row, rs);
    NotCompletedShape(row, rs[|rs| - 1], actor, at, f, reason, horizon, s);
    NotCompletedAdmitted(row, rs[|rs| - 1], actor, at, f, reason, horizon, s);
    OutcomeOfOpenKeeps(row, h, rs, s);
  }

  /**
   Under the invariant the integrity checks of an outcome never misfire: for the
   caller's own current execution and corridor, the open record is found, it
   names the row's placement, and the recomputed digest equals the captured one.
   */
  lemma OpenChecksNeverMisfire(row: Row, h: seq<Event>, executionId: string, corridor: string)
    requires JobSound(row, h) && row.status.InProgress? && ExecutionOf(row) == Some(executionId)
    ensures var record := OpenRecord(Derive(row.jobId, h).value);
            && record.Some?
            && record.value.digest.Hash?
            && (OpenExecutionRefusal(row, executionId, record, corridor).None? <==> corridor == record.value.digest.of.corridorId)
  {
    var rs := Derive(row.jobId, h).value;
    OpenRecordOfJob(row, rs);
  }

  // ------------------------------------------------------------------
  // Creation and refused attempts
  // ------------------------------------------------------------------

  /** What job intake writes: a reported row with no placement on a named track. */
  predicate Creatable(row: Row) { row.status.Reported? && RowSound(row) }

  lemma CreationSound(row: Row, reporter: Actor, at: int)
    requires Creatable(row)
    ensures JobSound(row, CreationEvents(row, reporter, at))
  {
    DeriveQuiet(row.jobId, [], CreationEvents(row, reporter, at));
    assert [] + CreationEvents(row, reporter, at) == CreationEvents(row, reporter, at);
  }

  lemma RejectionKeeps(row: Row, h: seq<Event>, actor: Actor, at: int, reason: string)
    requires JobSound(row, h)
    ensures JobSound(row, h + [RejectedEvent(row, actor, at, reason)])
  {
    var e := RejectedEvent(row, actor, at, reason);
    LatestAfterOne(h, e);
    DeriveQuiet(row.jobId, h, [e]);
    ChainConcat(h, [e], None, SnapshotOf(row), Some(SnapshotOf(row)));
  }
}
