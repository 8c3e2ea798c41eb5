/**
 The shipped planners: what each lifecycle operation changes on a row and
 which events it writes.
 */
module Planners {
  import opened Wrappers
  import opened JobModel
  import opened Guard
  import opened Execution

  // ------------------------------------------------------------------
  // Block helpers
  // ------------------------------------------------------------------

  function WithPlacement(block: Block, start: int, end: int, run: Option<string>): Block {
    block.(meta := block.meta.(cStart := Val(start), cEnd := Val(end),
                               run := if run.None? then Absent else Val(run.value)),
           status := Proposed, committed := false)
  }

  function WithoutPlacement(block: Block): Block {
    block.(meta := NO_META, status := Planned, committed := false)
  }

  function CommittedBlock(block: Block): Block { block.(status := Committed, committed := true) }

  /** Clear the placement and return to reported: one state change shared by every withdrawal. */
  function Withdrawn(base: Mutation, row: Row, reason: string): Mutation {
    base.(status := Reported, start := None, end := None, refusal := Some(reason), block := WithoutPlacement(row.block))
  }

  function OrElse(v: Option<int>, fallback: int): int { if v.Some? then v.value else fallback }

  function Max(a: int, b: int): int { if a < b then b else a }

  /** The replanning window: a not-before, never lowered unless asked, and a latest end only ever widened. */
  function RaiseNotBefore(block: Block, notBefore: int, horizon: int, neverLower: bool): (r: Block)
    ensures r == block.(earliest := r.earliest, latest := r.latest)
    ensures r.earliest.Some? && r.latest.Some?
    ensures neverLower ==> r.earliest.value >= notBefore && r.earliest.value >= OrElse(block.earliest, 0)
    ensures neverLower ==> r.earliest.value == notBefore || r.earliest.value == OrElse(block.earliest, 0)
    ensures !neverLower ==> r.earliest.value == notBefore
    ensures r.latest.value >= horizon && r.latest.value >= OrElse(block.latest, 1440)
    ensures r.latest.value == horizon || r.latest.value == OrElse(block.latest, 1440)
  {
    var earliest := if neverLower then Max(OrElse(block.earliest, 0), notBefore) else notBefore;
    block.(earliest := Some(earliest), latest := Some(Max(OrElse(block.latest, 1440), horizon)))
  }

  // ------------------------------------------------------------------
  // Optimization outcomes and failures
  // ------------------------------------------------------------------

  datatype Attempt = Attempt(requester: Actor, requestedAt: int, runId: Option<string>)

  datatype Placement = Placement(start: int, end: int)

  /** What one job contributes to a batch. */
  datatype Share = Share(mutation: Mutation, events: seq<Event>)

  function RequestedEvent(row: Row, attempt: Attempt): Event {
    Event(row.jobId, OptimizationRequested, attempt.requester, attempt.requestedAt, None, attempt.runId,
          Some(SnapshotOf(row)), Some(SnapshotOf(row)), NO_EVENT_META)
  }

  function OptimizerEvent(row: Row, kind: EventKind, at: int, reason: Option<string>, attempt: Attempt,
                          after: Row, meta: EventMeta): Event {
    Event(row.jobId, kind, SystemActor, at, reason, attempt.runId, Some(SnapshotOf(row)), Some(SnapshotOf(after)), meta)
  }

  function LocationMeta(p: Placement): EventMeta {
    NO_EVENT_META.(startMinute := Num(p.start), endMinute := Num(p.end))
  }

  function PlacementMutation(row: Row, base: Mutation, p: Placement, attempt: Attempt): Result<Mutation, LifecycleError> {
    if IsCommittedStatus(row.status) then
      if Some(p.start) != row.start || Some(p.end) != row.end then Err(CommittedJob)
      else Ok(base.(refusal := None))
    else Ok(base.(status := Scheduled, start := Some(p.start), end := Some(p.end), refusal := None,
                  block := WithPlacement(row.block, p.start, p.end, attempt.runId)))
  }

  function PlacementKind(status: Status): EventKind {
    if IsCommittedStatus(status) then CommittedPreserved
    else if status.Scheduled? then BlockReproposed
    else BlockProposed
  }

  function RefusalMutation(row: Row, base: Mutation, reason: string): Mutation {
    if row.status.Scheduled? then Withdrawn(base, row, reason) else base.(refusal := Some(reason))
  }

  function RefusalKind(status: Status): EventKind {
    if IsCommittedStatus(status) then CommittedConflict
    else if status.Scheduled? then ProposalInvalidated
    else OptimizationRefused
  }

  function ConsideredEvents(row: Row, attempt: Attempt, at: int, outcome: Event): seq<Event> {
    [RequestedEvent(row, attempt),
     OptimizerEvent(row, OptimizationCompleted, at, None, attempt, row, NO_EVENT_META),
     outcome]
  }

  /** One job's share of a solver outcome: placed, refused, or neither (an error). */
  function OutcomeFor(row: Row, attempt: Attempt, at: int, solver: string, placements: map<JobId, Placement>,
                      refusals: map<JobId, string>, expected: Option<map<JobId, Status>>): Result<Share, LifecycleError> {
    var base := Unchanged(row).(updatedAt := Some(at), solverStatus := Some(solver));
    if expected.Some? && !(row.jobId in expected.value && expected.value[row.jobId] == row.status) then
      Err(ConcurrentModification)
    else if row.jobId in placements then
      var p := placements[row.jobId];
      var m := PlacementMutation(row, base, p, attempt);
      if m.Err? then Err(m.error)
      else Ok(Share(m.value, ConsideredEvents(row, attempt, at,
             OptimizerEvent(row, PlacementKind(row.status), at, None, attempt, AsJob(m.value, row), LocationMeta(p)))))
    else if row.jobId in refusals then
      var m := RefusalMutation(row, base, refusals[row.jobId]);
      Ok(Share(m, ConsideredEvents(row, attempt, at,
         OptimizerEvent(row, RefusalKind(row.status), at, Some(refusals[row.jobId]), attempt, AsJob(m, row), NO_EVENT_META))))
    else Err(BadValue)
  }

  /** What a planner makes of one job: an error, nothing to do, or its share of the batch. */
  type Planner = Row -> Result<Option<Share>, LifecycleError>

  /** A batch is the shares of its jobs in order; the first error is the batch's. */
  function Shares(rows: map<JobId, Row>, jobIds: seq<JobId>, plan: Planner): Result<Batch, LifecycleError> {
    if jobIds == [] then Ok(Batch([], []))
    else
      var rest := Shares(rows, jobIds[..|jobIds| - 1], plan);
      var job := jobIds[|jobIds| - 1];
      if rest.Err? then rest
      else if job !in rows then Err(UnknownJob)
      else
        var share := plan(rows[job]);
        if share.Err? then Err(share.error)
        else if share.value.None? then rest
        else Ok(Batch(rest.value.mutations + [share.value.value.mutation], rest.value.events + share.value.value.events))
  }

  lemma {:induction false} ShareErrorStays(rows: map<JobId, Row>, jobIds: seq<JobId>, n: nat, plan: Planner)
    requires n <= |jobIds| && Shares(rows, jobIds[..n], plan).Err?
    ensures Shares(rows, jobIds, plan) == Shares(rows, jobIds[..n], plan)
    decreases |jobIds| - n
  {
    if n == |jobIds| {
      assert jobIds[..n] == jobIds;
    } else {
      assert jobIds[..n + 1][..n] == jobIds[..n];
      ShareErrorStays(rows, jobIds, n + 1, plan);
    }
  }

  function OutcomePlanner(attempt: Attempt, at: int, solver: string, placements: map<JobId, Placement>,
                          refusals: map<JobId, string>, expected: Option<map<JobId, Status>>): Planner {
    (row: Row) =>
      var share := OutcomeFor(row, attempt, at, solver, placements, refusals, expected);
      if share.Err? then Err(share.error) else Ok(Some(share.value))
  }

  method PlanOptimizationOutcome(rows: map<JobId, Row>, jobIds: seq<JobId>, attempt: Attempt, at: int, solver: string,
                                 placements: map<JobId, Placement>, refusals: map<JobId, string>,
                                 expected: Option<map<JobId, Status>>) returns (r: Result<Batch, LifecycleError>)
    ensures r == Shares(rows, jobIds, OutcomePlanner(attempt, at, solver, placements, refusals, expected))
  {
    ghost var plan := OutcomePlanner(attempt, at, solver, placements, refusals, expected);
    var mutations: seq<Mutation> := [];
    var events: seq<Event> := [];
    for i := 0 to |jobIds|
      invariant Shares(rows, jobIds[..i], plan) == Ok(Batch(mutations, events))
    {
      assert jobIds[..i + 1][..i] == jobIds[..i];
      var share: Result<Share, LifecycleError> := Err(UnknownJob);
      if jobIds[i] in rows {
        share := OutcomeFor(rows[jobIds[i]], attempt, at, solver, placements, refusals, expected);
      }
      if share.Err? {
        ShareErrorStays(rows, jobIds, i + 1, plan);
        return Err(share.error);
      }
      mutations := mutations + [share.value.mutation];
      events := events + share.value.events;
    }
    assert jobIds[..|jobIds|] == jobIds;
    return Ok(Batch(mutations, events));
  }

  /** One job's share of an attempt that produced no outcome; a terminal job has none. */
  function FailureFor(row: Row, attempt: Attempt, at: int, reason: string, lbl: string): (s: Share)
    requires !row.status.Completed?
    ensures s.mutation.jobId == row.jobId
  {
    var base := Unchanged(row).(updatedAt := Some(at), solverStatus := Some(lbl), refusal := Some(reason));
    var m := if row.status.Scheduled? then Withdrawn(base, row, reason) else base;
    var failed := OptimizerEvent(row, OptimizationFailed, at, Some(reason), attempt, row, NO_EVENT_META);
    Share(m, [RequestedEvent(row, attempt), failed] +
             (if row.status.Scheduled?
              then [OptimizerEvent(row, ProposalInvalidated, at, Some(reason), attempt, AsJob(m, row), NO_EVENT_META)]
              else []))
  }

  function FailurePlanner(attempt: Attempt, at: int, reason: string, lbl: string): Planner {
    (row: Row) => if row.status.Completed? then Ok(None) else Ok(Some(FailureFor(row, attempt, at, reason, lbl)))
  }

  method PlanOptimizationFailure(rows: map<JobId, Row>, jobIds: seq<JobId>, attempt: Attempt, at: int, reason: string,
                                 lbl: string) returns (r: Result<Batch, LifecycleError>)
    ensures r == Shares(rows, jobIds, FailurePlanner(attempt, at, reason, lbl))
  {
    ghost var plan := FailurePlanner(attempt, at, reason, lbl);
    var mutations: seq<Mutation> := [];
    var events: seq<Event> := [];
    for i := 0 to |jobIds|
      invariant Shares(rows, jobIds[..i], plan) == Ok(Batch(mutations, events))
    {
      assert jobIds[..i + 1][..i] == jobIds[..i];
      if jobIds[i] !in rows {
        ShareErrorStays(rows, jobIds, i + 1, plan);
        return Err(UnknownJob);
      }
      if !rows[jobIds[i]].status.Completed? {
        var share := FailureFor(rows[jobIds[i]], attempt, at, reason, lbl);
        mutations := mutations + [share.mutation];
        events := events + share.events;
      }
    }
    assert jobIds[..|jobIds|] == jobIds;
    return Ok(Batch(mutations, events));
  }

  // ------------------------------------------------------------------
  // Human-initiated transitions
  // ------------------------------------------------------------------

  function HumanEvent(row: Row, kind: EventKind, actor: Actor, at: int, reason: Option<string>, run: Option<string>,
                      after: Row, meta: EventMeta): Event {
    Event(row.jobId, kind, actor, at, reason, run, Some(SnapshotOf(row)), Some(SnapshotOf(after)), meta)
  }

  function PlanCommit(row: Row, actor: Actor, at: int, expectedRun: Option<string>): Result<Share, LifecycleError> {
    if !row.status.Scheduled? then Err(InvalidTransition)
    else if !actor.IdentifiedHuman? then Err(InvalidTransition)
    else if row.start.None? || row.end.None? then Err(InvalidTransition)
    else if expectedRun.Some? && expectedRun != RunOf(row) then Err(StaleProposal)
    else
      var m := Unchanged(row).(status := Notified, updatedAt := Some(at), block := CommittedBlock(row.block));
      Ok(Share(m, [HumanEvent(row, BlockCommitted, actor, at, None, RunOf(row), AsJob(m, row),
                              NO_EVENT_META.(startMinute := Num(row.start.value), endMinute := Num(row.end.value)))]))
  }

  /** The checks reject and postpone share. */
  function ReviewRefusal(row: Row, actor: Actor, reason: string, expectedRun: string): Option<LifecycleError> {
    if Blank(expectedRun) || Blank(reason) then Some(InvalidTransition)
    else if !row.status.Scheduled? then Some(InvalidTransition)
    else if !actor.IdentifiedHuman? then Some(InvalidTransition)
    else if row.start.None? || row.end.None? then Some(InvalidTransition)
    else if Some(expectedRun) != RunOf(row) then Some(StaleProposal)
    else None
  }

  function PlanReject(row: Row, actor: Actor, at: int, reason: string, expectedRun: string): Result<Share, LifecycleError> {
    var refusal := ReviewRefusal(row, actor, reason, expectedRun);
    if refusal.Some? then Err(refusal.value)
    else
      var m := Withdrawn(Unchanged(row).(updatedAt := Some(at)), row, reason);
      Ok(Share(m, [HumanEvent(row, ProposalRejected, actor, at, Some(reason), RunOf(row), AsJob(m, row), NO_EVENT_META)]))
  }

  function PlanPostpone(row: Row, actor: Actor, at: int, reason: string, notBefore: int, horizon: int,
                        expectedRun: string): Result<Share, LifecycleError> {
    var refusal := ReviewRefusal(row, actor, reason, expectedRun);
    if refusal.Some? then Err(refusal.value)
    else if notBefore < 0 || horizon <= notBefore then Err(InvalidTransition)
    else
      var w := Withdrawn(Unchanged(row).(updatedAt := Some(at)), row, reason);
      var m := w.(block := RaiseNotBefore(w.block, notBefore, horizon, false));
      Ok(Share(m, [HumanEvent(row, ProposalPostponed, actor, at, Some(reason), RunOf(row), AsJob(m, row), NO_EVENT_META)]))
  }

  function PlanRelease(row: Row, actor: Actor, at: int, reason: string, expectedRun: string, horizon: int)
    : Result<Share, LifecycleError>
  {
    if Blank(expectedRun) || Blank(reason) then Err(InvalidTransition)
    else if CommittedStateProblems(row.status, row.block, row.start, row.end) != [] then Err(CommittedStateIntegrity)
    else if !row.status.Notified? then Err(InvalidTransition)
    else if !actor.IdentifiedHuman? then Err(InvalidTransition)
    else if Some(expectedRun) != RunOf(row) then Err(StaleProposal)
    else if row.end.None? then Err(BadValue)
    else
      var w := Withdrawn(Unchanged(row).(updatedAt := Some(at)), row, reason);
      var m := w.(block := RaiseNotBefore(w.block, row.end.value, horizon, true),
                  release := Some(expectedRun));
      Ok(Share(m, [HumanEvent(row, BlockReleased, actor, at, Some(reason), RunOf(row), AsJob(m, row),
                              NO_EVENT_META.(run := Text(expectedRun), proposal := Text(ProposalId(expectedRun, row.jobId)),
                                             releasedRun := Text(expectedRun)))]))
  }

  function PlanScheduleAssignment(row: Row, start: int, end: int, actor: Actor, at: int): Result<Share, LifecycleError> {
    if row.status.Completed? then Err(TerminalJob)
    else if IsCommittedStatus(row.status) then Err(CommittedJob)
    else
      var m := Unchanged(row).(status := Scheduled, start := Some(start), end := Some(end), updatedAt := Some(at),
                               refusal := None, block := WithPlacement(row.block, start, end, None));
      Ok(Share(m, [HumanEvent(row, ScheduleAssigned, actor, at, None, None, AsJob(m, row),
                              NO_EVENT_META.(startMinute := Num(start), endMinute := Num(end)))]))
  }

  // ------------------------------------------------------------------
  // Field execution
  // ------------------------------------------------------------------

  const TICKS_PER_MINUTE: int := 60_000_000
  const FUTURE_SKEW: int := 5 * TICKS_PER_MINUTE
  const MAX_EVIDENCE_ITEMS: int := 10

  datatype EvidenceItem = EvidenceItem(reference: string, capturedAt: int)

  /** The horizon-relative minute of an observed moment; None when the horizon is not on a whole minute. */
  function ObservedMinute(moment: int, horizonStart: int, ceil: bool): Option<int> {
    if horizonStart % TICKS_PER_MINUTE != 0 then None
    else Some(moment / TICKS_PER_MINUTE - horizonStart / TICKS_PER_MINUTE
              + (if ceil && moment % TICKS_PER_MINUTE != 0 then 1 else 0))
  }

  /** The minute of the horizon a moment falls in, and the first one that does not begin before it. */
  function MinuteOf(moment: int, horizonStart: int): int { (moment - horizonStart) / 60_000_000 }

  function MinuteAfter(moment: int, horizonStart: int): int { (moment - horizonStart + 59_999_999) / 60_000_000 }

  /** From a horizon on a whole minute, starts are observed rounded down and ends rounded up. */
  lemma ObservedExactly(moment: int, horizonStart: int)
    ensures ObservedMinute(moment, horizonStart, false) ==
            if horizonStart % 60_000_000 == 0 then Some(MinuteOf(moment, horizonStart)) else None
    ensures ObservedMinute(moment, horizonStart, true) ==
            if horizonStart % 60_000_000 == 0 then Some(MinuteAfter(moment, horizonStart)) else None
  {
    if horizonStart % 60_000_000 == 0 {
      var q, m := horizonStart / 60_000_000, moment / 60_000_000;
      assert horizonStart == q * 60_000_000 && moment == m * 60_000_000 + moment % 60_000_000;
      Rounded(moment - horizonStart, m - q, moment % 60_000_000);
    }
  }

  lemma Rounded(n: int, m: int, r: int)
    requires n == m * 60_000_000 + r && 0 <= r < 60_000_000
    ensures n / 60_000_000 == m && (n + 59_999_999) / 60_000_000 == m + (if r == 0 then 0 else 1)
  {
  }

  predicate InFuture(moment: int, now: int) { moment > now + FUTURE_SKEW }

  predicate EvidenceSetOk(items: seq<EvidenceItem>, now: int, minimum: nat, notAfter: Option<int>,
                          notBefore: Option<int>, forbidden: seq<EvidenceEntry>) {
    && minimum <= |items| <= MAX_EVIDENCE_ITEMS
    && (forall i, j :: 0 <= i < j < |items| ==> items[i].reference != items[j].reference)
    && (forall i, j :: 0 <= i < |items| && 0 <= j < |forbidden| && forbidden[j].Entry? ==>
                         items[i].reference != forbidden[j].reference)
    && (forall i :: 0 <= i < |items| ==>
          && !InFuture(items[i].capturedAt, now)
          && (notAfter.Some? ==> items[i].capturedAt <= notAfter.value)
          && (notBefore.Some? ==> notBefore.value <= items[i].capturedAt))
  }

  function RecordEvidence(items: seq<EvidenceItem>, phase: Phase): (r: seq<EvidenceEntry>)
    ensures |r| == |items|
    ensures forall i :: 0 <= i < |r| ==> r[i] == Entry(phase, items[i].reference, items[i].capturedAt)
  {
    seq(|items|, i requires 0 <= i < |items| => Entry(phase, items[i].reference, items[i].capturedAt))
  }

  function SectionValue(section: Option<string>): Value { if section.None? then Nil else Text(section.value) }

  datatype StartFacts = StartFacts(
    executionId: string, expectedRun: string, actualStartAt: int, evidence: seq<EvidenceItem>,
    corridor: string, horizonStart: int)

  /** Whether an earlier record forbids starting this execution of this run. */
  predicate ForbidsStart(r: ExecutionRecord, row: Row, executionId: string) {
    r.jobId != row.jobId || r.status.Open? || r.executionId == executionId || Some(r.runId) == RunOf(row)
  }

  function StartMeta(row: Row, f: StartFacts, attempt: int, minute: int): EventMeta
    requires row.start.Some? && row.end.Some?
  {
    NO_EVENT_META.(
      executionId := Text(f.executionId),
      attempt := Num(attempt),
      run := Text(f.expectedRun),
      proposal := Text(ProposalId(f.expectedRun, row.jobId)),
      track := Text(row.trackId),
      section := SectionValue(row.block.sectionId),
      plannedStart := Num(row.start.value),
      plannedEnd := Num(row.end.value),
      digest := Hash(CommittedBlockDigest(row, f.corridor, f.expectedRun)),
      actualStartAt := Moment(f.actualStartAt),
      actualStartMinute := Num(minute),
      beforeEvidence := EvidenceList(RecordEvidence(f.evidence, BeforeWork)),
      startedEarly := Flag(minute < row.start.value))
  }

  function PlanExecutionStart(row: Row, actor: Actor, at: int, f: StartFacts, previous: seq<ExecutionRecord>)
    : Result<Share, LifecycleError>
  {
    if CommittedStateProblems(row.status, row.block, row.start, row.end) != [] then Err(CommittedStateIntegrity)
    else if !row.status.Notified? then Err(InvalidTransition)
    else if !actor.IdentifiedHuman? then Err(InvalidTransition)
    else if Blank(f.expectedRun) then Err(InvalidTransition)
    else if Some(f.expectedRun) != RunOf(row) then Err(StaleProposal)
    else if !IsExecutionId(f.executionId) then Err(InvalidTransition)
    else if exists i :: 0 <= i < |previous| && ForbidsStart(previous[i], row, f.executionId) then Err(ExecutionIntegrity)
    else if InFuture(f.actualStartAt, at) then Err(InvalidTransition)
    else if !EvidenceSetOk(f.evidence, at, 1, Some(f.actualStartAt), None, []) then Err(InvalidTransition)
    else
      var minute := ObservedMinute(f.actualStartAt, f.horizonStart, false);
      if minute.None? || row.start.None? || row.end.None? then Err(BadValue)
      else
        var m := Unchanged(row).(status := InProgress, updatedAt := Some(at),
                                 block := row.block.(meta := row.block.meta.(execId := Val(f.executionId))),
                                 execution := Some(ExecutionToken(Start, f.executionId)));
        Ok(Share(m, [HumanEvent(row, ExecutionStarted, actor, at, None, RunOf(row), AsJob(m, row),
                                StartMeta(row, f, |previous| + 1, minute.value))]))
  }

  datatype EndFacts = EndFacts(
    executionId: string, actualEndAt: int, evidence: seq<EvidenceItem>, corridor: string, horizonStart: int)

  /** Integrity, status, the caller's execution, the record, and the digest: in that order. */
  function OpenExecutionRefusal(row: Row, executionId: string, record: Option<ExecutionRecord>, corridor: string)
    : Option<LifecycleError>
  {
    if CommittedStateProblems(row.status, row.block, row.start, row.end) != [] then Some(CommittedStateIntegrity)
    else if !row.status.InProgress? then Some(InvalidTransition)
    else if ExecutionOf(row) != Some(executionId) then Some(StaleExecution)
    else if RunOf(row).None? || row.start.None? || row.end.None? || record.None?
            || !NamesOpenExecution(row, executionId, record.value) then Some(ExecutionIntegrity)
    else if record.value.digest != Hash(CommittedBlockDigest(row, corridor, RunOf(row).value)) then
      Some(CommittedStateIntegrity)
    else None
  }

  predicate NamesOpenExecution(row: Row, executionId: string, r: ExecutionRecord) {
    && r.jobId == row.jobId
    && r.executionId == executionId
    && r.status.Open?
    && Some(r.runId) == RunOf(row)
    && r.proposalId == ProposalId(r.runId, row.jobId)
    && Some(r.plannedStart) == row.start
    && Some(r.plannedEnd) == row.end
  }

  /** Observation checks shared by both outcomes: not in the future, not before the start. */
  predicate EndObserved(endAt: int, record: ExecutionRecord, now: int) {
    !InFuture(endAt, now) && record.actualStartAt <= endAt
  }

  function EndMeta(row: Row, record: ExecutionRecord, f: EndFacts, minute: int): EventMeta {
    NO_EVENT_META.(
      executionId := Text(f.executionId),
      run := Text(record.runId),
      proposal := Text(record.proposalId),
      digest := record.digest,
      actualEndAt := Moment(f.actualEndAt),
      actualEndMinute := Num(minute),
      startedEarly := Flag(record.startedEarly),
      endedLate := Flag(minute > record.plannedEnd))
  }

  function PlanExecutionComplete(row: Row, actor: Actor, at: int, f: EndFacts, record: Option<ExecutionRecord>)
    : Result<Share, LifecycleError>
  {
    var refusal := OpenExecutionRefusal(row, f.executionId, record, f.corridor);
    if refusal.Some? then Err(refusal.value)
    else if !actor.IdentifiedHuman? then Err(InvalidTransition)
    else if !EndObserved(f.actualEndAt, record.value, at) then Err(InvalidTransition)
    else
      var minute := ObservedMinute(f.actualEndAt, f.horizonStart, true);
      if minute.None? then Err(BadValue)
      else if !EvidenceSetOk(f.evidence, at, 1, None, Some(record.value.actualStartAt), record.value.before) then
        Err(InvalidTransition)
      else
        var m := Unchanged(row).(status := Completed, updatedAt := Some(at),
                                 execution := Some(ExecutionToken(Complete, f.executionId)));
        Ok(Share(m, [HumanEvent(row, ExecutionCompleted, actor, at, None, Some(record.value.runId), AsJob(m, row),
                                EndMeta(row, record.value, f, minute.value).(
                                  afterEvidence := EvidenceList(RecordEvidence(f.evidence, AfterWork))))]))
  }

  function PlanExecutionNotCompleted(row: Row, actor: Actor, at: int, f: EndFacts, reason: string, horizon: int,
                                     record: Option<ExecutionRecord>): Result<Share, LifecycleError> {
    if Blank(reason) then Err(InvalidTransition)
    else
      var refusal := OpenExecutionRefusal(row, f.executionId, record, f.corridor);
      if refusal.Some? then Err(refusal.value)
      else if !actor.IdentifiedHuman? then Err(InvalidTransition)
      else if !EndObserved(f.actualEndAt, record.value, at) then Err(InvalidTransition)
      else
        var minute := ObservedMinute(f.actualEndAt, f.horizonStart, true);
        if minute.None? then Err(BadValue)
        else if !EvidenceSetOk(f.evidence, at, 0, None, None, []) then Err(InvalidTransition)
        else
          var w := Withdrawn(Unchanged(row).(updatedAt := Some(at)), row, reason);
          var m := w.(block := RaiseNotBefore(w.block, Max(row.end.value, minute.value), horizon, true),
                      execution := Some(ExecutionToken(NotCompleted, f.executionId)));
          Ok(Share(m, [HumanEvent(row, ExecutionNotCompleted, actor, at, Some(reason), RunOf(row), AsJob(m, row),
                                  EndMeta(row, record.value, f, minute.value).(
                                    failureEvidence := EvidenceList(RecordEvidence(f.evidence, FailureRecord)),
                                    releasedRun := Text(record.value.runId)))]))
  }

  // ------------------------------------------------------------------
  // Creation and refused attempts
  // ------------------------------------------------------------------

  function CreationEvents(row: Row, reporter: Actor, at: int): seq<Event> {
    [Event(row.jobId, JobCreated, reporter, at, None, None, None, Some(SnapshotOf(row)), NO_EVENT_META),
     Event(row.jobId, JobScored, SystemActor, at, None, None, Some(SnapshotOf(row)), Some(SnapshotOf(row)), NO_EVENT_META)]
  }

  function RejectedEvent(row: Row, actor: Actor, at: int, reason: string): Event {
    Event(row.jobId, TransitionRejected, actor, at, Some(reason), None, Some(SnapshotOf(row)), Some(SnapshotOf(row)),
          NO_EVENT_META)
  }
}
