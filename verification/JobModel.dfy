/**
 Maintenance jobs, their stored rows, the changes a plan asks for, and the
 append-only events that describe those changes.
 */
module JobModel {
  import opened Wrappers

  type JobId = string

  /** The white space that stripping a text removes. */
  predicate IsSpace(c: char) {
    var n := c as int;
    || 9 <= n <= 13 || 28 <= n <= 32 || n == 133 || n == 160
    || n == 5760 || 8192 <= n <= 8202 || n == 8232 || n == 8233 || n == 8239 || n == 8287 || n == 12288
  }

  /** What `not value or not value.strip()` finds in a string. */
  predicate Blank(s: string) { forall i :: 0 <= i < |s| ==> IsSpace(s[i]) }

  datatype Status = Reported | Scheduled | Notified | InProgress | Completed

  predicate IsCommittedStatus(s: Status) { s.Notified? || s.InProgress? }

  datatype BlockStatus = Planned | Proposed | Committed | Affected | Unscheduled | Cancelled

  /** One key of the block's JSON metadata: missing, null, or a value. */
  datatype Slot<T> = Absent | Null | Val(v: T)

  /** Reading a key with `dict.get`: a missing key and a null both read as None. */
  function Get<T>(s: Slot<T>): Option<T> {
    if s.Val? then Some(s.v) else None
  }

  /** committed_start_minute, committed_end_minute, proposal_run_id, execution_id. */
  datatype Meta = Meta(cStart: Slot<int>, cEnd: Slot<int>, run: Slot<string>, execId: Slot<string>)

  const NO_META := Meta(Absent, Absent, Absent, Absent)

  datatype Block = Block(
    status: BlockStatus,
    committed: bool,
    sectionId: Option<string>,
    earliest: Option<int>,
    latest: Option<int>,
    meta: Meta)

  datatype Row = Row(
    jobId: JobId,
    trackId: string,
    workType: string,
    status: Status,
    start: Option<int>,
    end: Option<int>,
    updatedAt: Option<int>,
    solverStatus: Option<string>,
    refusal: Option<string>,
    block: Block)

  function RunOf(row: Row): Option<string> { Get(row.block.meta.run) }

  function ExecutionOf(row: Row): Option<string> { Get(row.block.meta.execId) }

  predicate ValidWindow(start: Option<int>, end: Option<int>) {
    start.Some? && end.Some? && start.value < end.value
  }

  datatype ExecutionKind = Start | Complete | NotCompleted

  /** The permission for one execution-gated move, carried on the mutation. */
  datatype ExecutionToken = ExecutionToken(kind: ExecutionKind, executionId: string)

  /** The complete new value of every mutable column, plus the two permissions. */
  datatype Mutation = Mutation(
    jobId: JobId,
    status: Status,
    start: Option<int>,
    end: Option<int>,
    updatedAt: Option<int>,
    solverStatus: Option<string>,
    refusal: Option<string>,
    block: Block,
    execution: Option<ExecutionToken>,
    release: Option<string>)

  function Unchanged(row: Row): Mutation {
    Mutation(row.jobId, row.status, row.start, row.end, row.updatedAt,
             row.solverStatus, row.refusal, row.block, None, None)
  }

  /** The row as it reads once the mutation is written. */
  function AsJob(m: Mutation, row: Row): Row {
    row.(status := m.status, start := m.start, end := m.end, updatedAt := m.updatedAt,
         solverStatus := m.solverStatus, refusal := m.refusal, block := m.block)
  }

  datatype LifecycleError =
    | TerminalJob
    | CommittedJob
    | CommittedStateIntegrity
    | ExecutionTokenRefused
    | ReleaseTokenRefused
    | InvalidTransition
    | StaleProposal
    | StaleExecution
    | ConcurrentModification
    | ExecutionIntegrity
    | UnknownJob
    | BadValue

  datatype Actor = IdentifiedHuman | UnidentifiedHuman | SystemActor

  datatype EventKind =
    | JobCreated
    | JobScored
    | OptimizationRequested
    | OptimizationCompleted
    | OptimizationFailed
    | BlockProposed
    | BlockReproposed
    | OptimizationRefused
    | ProposalInvalidated
    | CommittedPreserved
    | CommittedConflict
    | ScheduleAssigned
    | BlockCommitted
    | LegacyCompleted
    | ProposalRejected
    | ProposalPostponed
    | TransitionRejected
    | ExecutionStarted
    | ExecutionCompleted
    | ExecutionNotCompleted
    | BlockReleased

  predicate IsExecutionEvent(k: EventKind) {
    k.ExecutionStarted? || k.ExecutionCompleted? || k.ExecutionNotCompleted?
  }

  /** The one event kind that must accompany each kind of execution token. */
  function EventFor(k: ExecutionKind): EventKind {
    match k
    case Start => ExecutionStarted
    case Complete => ExecutionCompleted
    case NotCompleted => ExecutionNotCompleted
  }

  datatype Phase = BeforeWork | AfterWork | FailureRecord

  datatype EvidenceEntry =
    | Malformed
    | Entry(phase: Phase, reference: string, capturedAt: int)

  /**
   What the committed-block digest is computed over. The digest is modelled
   as these fields themselves, so that two digests agree exactly when the
   placements they stand for do.
   */
  datatype BlockIdentity = BlockIdentity(
    proposalId: string,
    jobId: JobId,
    runId: string,
    corridorId: string,
    trackId: string,
    sectionId: Option<string>,
    start: int,
    end: int,
    duration: int,
    workType: string)

  /** An event metadata value: whatever JSON a stored history may hold under a key. */
  datatype Value =
    | Missing
    | Nil
    | Flag(b: bool)
    | Num(n: int)
    | Text(s: string)
    | Hash(of: BlockIdentity)
    | Moment(at: int)
    | EvidenceList(items: seq<EvidenceEntry>)

  datatype EventMeta = EventMeta(
    executionId: Value,
    attempt: Value,
    run: Value,
    proposal: Value,
    digest: Value,
    track: Value,
    section: Value,
    plannedStart: Value,
    plannedEnd: Value,
    actualStartAt: Value,
    actualStartMinute: Value,
    actualEndAt: Value,
    actualEndMinute: Value,
    beforeEvidence: Value,
    afterEvidence: Value,
    failureEvidence: Value,
    startedEarly: Value,
    endedLate: Value,
    releasedRun: Value,
    startMinute: Value,
    endMinute: Value)

  const NO_EVENT_META := EventMeta(
    Missing, Missing, Missing, Missing, Missing, Missing, Missing, Missing, Missing, Missing, Missing,
    Missing, Missing, Missing, Missing, Missing, Missing, Missing, Missing, Missing, Missing)

  /** The lifecycle-relevant state of one job at one moment. */
  datatype Snapshot = Snapshot(
    status: Status,
    blockStatus: BlockStatus,
    committed: bool,
    start: Option<int>,
    end: Option<int>,
    run: Option<string>)

  function SnapshotOf(row: Row): Snapshot {
    Snapshot(row.status, row.block.status, row.block.committed, row.start, row.end, RunOf(row))
  }

  datatype Event = Event(
    jobId: JobId,
    kind: EventKind,
    actor: Actor,
    at: int,
    reason: Option<string>,
    runId: Option<string>,
    before: Option<Snapshot>,
    after: Option<Snapshot>,
    meta: EventMeta)

  datatype Batch = Batch(mutations: seq<Mutation>, events: seq<Event>)

  /** How many events of one kind the history holds for one job. */
  function Count(es: seq<Event>, job: JobId, kind: EventKind): nat {
    if es == [] then 0
    else Count(es[..|es| - 1], job, kind) +
         (if es[|es| - 1].jobId == job && es[|es| - 1].kind == kind then 1 else 0)
  }

  lemma {:induction false} CountConcat(a: seq<Event>, b: seq<Event>, job: JobId, kind: EventKind)
    ensures Count(a + b, job, kind) == Count(a, job, kind) + Count(b, job, kind)
  {
    if b == [] {
      assert a + b == a;
    } else {
      assert (a + b)[..|a + b| - 1] == a + b[..|b| - 1];
      CountConcat(a, b[..|b| - 1], job, kind);
    }
  }

  /** One job's events, in history order. */
  function HistoryOf(es: seq<Event>, job: JobId): (h: seq<Event>)
    ensures forall i :: 0 <= i < |h| ==> h[i].jobId == job && h[i] in es
  {
    if es == [] then []
    else
      var rest := HistoryOf(es[..|es| - 1], job);
      if es[|es| - 1].jobId == job then rest + [es[|es| - 1]] else rest
  }

  lemma {:induction false} HistoryConcat(a: seq<Event>, b: seq<Event>, job: JobId)
    ensures HistoryOf(a + b, job) == HistoryOf(a, job) + HistoryOf(b, job)
  {
    if b == [] {
      assert a + b == a;
    } else {
      assert (a + b)[..|a + b| - 1] == a + b[..|b| - 1];
      HistoryConcat(a, b[..|b| - 1], job);
    }
  }

  lemma {:induction false} HistoryOfOwn(es: seq<Event>, job: JobId)
    requires forall i :: 0 <= i < |es| ==> es[i].jobId == job
    ensures HistoryOf(es, job) == es
  {
    if es != [] {
      HistoryOfOwn(es[..|es| - 1], job);
    }
  }

  lemma {:induction false} HistoryOfOthers(es: seq<Event>, job: JobId)
    requires forall i :: 0 <= i < |es| ==> es[i].jobId != job
    ensures HistoryOf(es, job) == []
  {
    if es != [] {
      HistoryOfOthers(es[..|es| - 1], job);
    }
  }
}
