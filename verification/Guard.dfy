/**
 The checks every write to a job row must pass: protected committed and
 terminal state, the two token gates, the transition graph, and the
 agreement of status with placement.
 */
module Guard {
  import opened Wrappers
  import opened JobModel

  datatype Problem = NoExecutionNamed | StrayExecution | BlockNotCommitted | FlagNotSet | NoWindow

  /** Python truthiness of `metadata.get(key)` for a string-valued key. */
  predicate Truthy(s: Slot<string>) { s.Val? && s.v != "" }

  /** Why a job in this status with this block and window is not validly committed. */
  function CommittedStateProblems(status: Status, block: Block, start: Option<int>, end: Option<int>)
    : (problems: seq<Problem>)
    ensures problems == [] <==> (IsCommittedStatus(status) ==> SoundCommitment(status, block, start, end))
  {
    if !IsCommittedStatus(status) then []
    else
      (if status.InProgress? && !Truthy(block.meta.execId) then [NoExecutionNamed] else []) +
      (if status.Notified? && !block.meta.execId.Absent? then [StrayExecution] else []) +
      (if block.status != Committed then [BlockNotCommitted] else []) +
      (if !block.committed then [FlagNotSet] else []) +
      (if start.None? || end.None? || end.value <= start.value then [NoWindow] else [])
  }

  /** A pinned block: COMMITTED, flagged, with a real window and the execution its status implies. */
  predicate SoundCommitment(status: Status, block: Block, start: Option<int>, end: Option<int>) {
    && Pinned(block)
    && ValidWindow(start, end)
    && (status.InProgress? ==> Truthy(block.meta.execId))
    && (status.Notified? ==> block.meta.execId.Absent?)
  }

  predicate Pinned(block: Block) { block.status == Committed && block.committed }

  /** Stored rows whose committed state is inconsistent, as the integrity error names them. */
  function Inconsistent(jobs: seq<Row>): seq<JobId> {
    if jobs == [] then []
    else
      var rest, last := Inconsistent(jobs[..|jobs| - 1]), jobs[|jobs| - 1];
      if HasProblems(last) then rest + [last.jobId] else rest
  }

  /** Nothing to keep, or kept soundly. */
  predicate ConsistentRow(row: Row) {
    IsCommittedStatus(row.status) ==> SoundCommitment(row.status, row.block, row.start, row.end)
  }

  lemma NoProblemsIffConsistent(row: Row)
    ensures CommittedStateProblems(row.status, row.block, row.start, row.end) == [] <==> ConsistentRow(row)
  {
  }

  /** No finding exactly when every committed row is kept soundly. */
  lemma {:induction false} InconsistentExactly(jobs: seq<Row>)
    ensures Inconsistent(jobs) == [] <==> forall i :: 0 <= i < |jobs| ==> ConsistentRow(jobs[i])
  {
    if jobs != [] {
      InconsistentExactly(jobs[..|jobs| - 1]);
      NoProblemsIffConsistent(jobs[|jobs| - 1]);
      assert forall i :: 0 <= i < |jobs| - 1 ==> jobs[..|jobs| - 1][i] == jobs[i];
    }
  }

  predicate HasProblems(row: Row) { CommittedStateProblems(row.status, row.block, row.start, row.end) != [] }

  lemma InconsistentNext(jobs: seq<Row>, n: nat, findings: seq<JobId>, problems: bool)
    requires n < |jobs| && findings == Inconsistent(jobs[..n]) && problems == HasProblems(jobs[n])
    ensures Inconsistent(jobs[..n + 1]) == if problems then findings + [jobs[n].jobId] else findings
  {
    assert jobs[..n + 1][..n] == jobs[..n];
  }

  method AssertCommittedStateConsistent(jobs: seq<Row>) returns (findings: seq<JobId>)
    ensures findings == Inconsistent(jobs)
  {
    findings := [];
    for n := 0 to |jobs|
      invariant findings == Inconsistent(jobs[..n])
    {
      var problems := HasProblems(jobs[n]);
      InconsistentNext(jobs, n, findings, problems);
      if problems {
        findings := findings + [jobs[n].jobId];
      }
    }
    assert jobs[..|jobs|] == jobs;
  }

  /** notified -> reported needs a release token naming the stored run, and nothing else may carry one. */
  function GateRelease(row: Row, status: Status, release: Option<string>): Outcome<LifecycleError> {
    if !(row.status.Notified? && status.Reported?) then
      if release.Some? then Fail(ReleaseTokenRefused) else Pass
    else if release.None? then Fail(ReleaseTokenRefused)
    else if Some(release.value) != RunOf(row) then Fail(ReleaseTokenRefused)
    else Pass
  }

  function GateExecution(row: Row, status: Status, block: Block,
                         execution: Option<ExecutionToken>, release: Option<string>): Outcome<LifecycleError> {
    if execution.Some? && release.Some? then Fail(ReleaseTokenRefused)
    else if GateRelease(row, status, release).Fail? then GateRelease(row, status, release)
    else
      var required :=
        if status.InProgress? && !row.status.InProgress? then Some(Start)
        else if status.Completed? then Some(Complete)
        else if status.Reported? && row.status.InProgress? then Some(NotCompleted)
        else None;
      if required.None? then
        if execution.Some? then Fail(ExecutionTokenRefused) else Pass
      else if execution.None? then Fail(ExecutionTokenRefused)
      else if execution.value.kind != required.value then Fail(ExecutionTokenRefused)
      else if required.value.Start? && !row.status.Notified? then Fail(ExecutionTokenRefused)
      else if required.value.Complete? && !row.status.InProgress? then Fail(ExecutionTokenRefused)
      else
        var named := if required.value.Start? then Get(block.meta.execId) else ExecutionOf(row);
        if named != Some(execution.value.executionId) then Fail(ExecutionTokenRefused) else Pass
  }

  /** Where a committed job may go. Every target but `reported` keeps the commitment. */
  predicate CommittedTarget(from: Status, to: Status) {
    || (from.Notified? && (to.Notified? || to.InProgress? || to.Reported?))
    || (from.InProgress? && (to.InProgress? || to.Completed? || to.Reported?))
  }

  predicate FullyWithdrawn(block: Block, start: Option<int>, end: Option<int>) {
    block.status == Planned && !block.committed && start.None? && end.None? && block.meta == NO_META
  }

  predicate SamePlacement(row: Row, block: Block, start: Option<int>, end: Option<int>) {
    && start == row.start
    && end == row.end
    && Get(block.meta.cStart) == Get(row.block.meta.cStart)
    && Get(block.meta.cEnd) == Get(row.block.meta.cEnd)
    && Get(block.meta.run) == Get(row.block.meta.run)
  }

  /** The invariants every write path respects: terminal state first, then integrity, then the gates, then the commitment. */
  function Protect(row: Row, status: Status, block: Block, start: Option<int>, end: Option<int>,
                   execution: Option<ExecutionToken>, release: Option<string>): Outcome<LifecycleError> {
    if row.status.Completed? then Fail(TerminalJob)
    else if CommittedStateProblems(row.status, row.block, row.start, row.end) != [] then
      Fail(CommittedStateIntegrity)
    else if CommittedStateProblems(status, block, start, end) != [] then Fail(CommittedJob)
    else if GateExecution(row, status, block, execution, release).Fail? then
      GateExecution(row, status, block, execution, release)
    else if !IsCommittedStatus(row.status) then Pass
    else if !CommittedTarget(row.status, status) then Fail(CommittedJob)
    else if status.Reported? then
      if FullyWithdrawn(block, start, end) then Pass else Fail(CommittedJob)
    else if !Pinned(block) then Fail(CommittedJob)
    else if start != row.start || end != row.end then Fail(CommittedJob)
    else if !SamePlacement(row, block, start, end) then Fail(CommittedJob)
    else if row.status.InProgress? && Get(block.meta.execId) != ExecutionOf(row) then Fail(CommittedJob)
    else Pass
  }

  predicate AllowedTransition(from: Status, to: Status) {
    match from
    case Reported => to.Reported? || to.Scheduled?
    case Scheduled => to.Scheduled? || to.Reported? || to.Notified?
    case Notified => to.Notified? || to.InProgress? || to.Reported?
    case InProgress => to.InProgress? || to.Completed? || to.Reported?
    case Completed => false
  }

  function PlacementInvariants(status: Status, start: Option<int>, end: Option<int>): Outcome<LifecycleError> {
    if status.Reported? && (start.Some? || end.Some?) then Fail(InvalidTransition)
    else if (status.Scheduled? || IsCommittedStatus(status)) && !ValidWindow(start, end) then Fail(InvalidTransition)
    else Pass
  }

  /** The moves the service path accepts, stated move by move. */
  predicate MovePermitted(row: Row, m: Mutation) {
    match (row.status, m.status)
    case (Reported, Reported) => NoTokens(m) && m.start.None? && m.end.None?
    case (Reported, Scheduled) => NoTokens(m) && ValidWindow(m.start, m.end)
    case (Scheduled, Reported) => NoTokens(m) && m.start.None? && m.end.None?
    case (Scheduled, Scheduled) => NoTokens(m) && ValidWindow(m.start, m.end)
    case (Scheduled, Notified) => NoTokens(m) && SoundCommitment(Notified, m.block, m.start, m.end)
    case (Notified, Notified) => NoTokens(m) && KeepsCommitment(row, m) && m.block.meta.execId.Absent?
    case (Notified, InProgress) =>
      && KeepsCommitment(row, m)
      && m.release.None?
      && Truthy(m.block.meta.execId)
      && m.execution == Some(ExecutionToken(Start, m.block.meta.execId.v))
    case (Notified, Reported) =>
      && SoundCommitment(Notified, row.block, row.start, row.end)
      && m.execution.None?
      && m.release.Some?
      && m.release == RunOf(row)
      && FullyWithdrawn(m.block, m.start, m.end)
    case (InProgress, InProgress) => NoTokens(m) && KeepsCommitment(row, m) && Get(m.block.meta.execId) == ExecutionOf(row)
    case (InProgress, Completed) =>
      && KeepsCommitment(row, m)
      && Get(m.block.meta.execId) == ExecutionOf(row)
      && m.release.None?
      && m.execution == Some(ExecutionToken(Complete, row.block.meta.execId.v))
    case (InProgress, Reported) =>
      && SoundCommitment(InProgress, row.block, row.start, row.end)
      && m.release.None?
      && m.execution == Some(ExecutionToken(NotCompleted, row.block.meta.execId.v))
      && FullyWithdrawn(m.block, m.start, m.end)
    case _ => false
  }

  predicate NoTokens(m: Mutation) { m.execution.None? && m.release.None? }

  /** The stored row was soundly committed and the mutation leaves it pinned where it was. */
  predicate KeepsCommitment(row: Row, m: Mutation) {
    && SoundCommitment(row.status, row.block, row.start, row.end)
    && Pinned(m.block)
    && SamePlacement(row, m.block, m.start, m.end)
  }

  /** Protected state, then the transition graph, then placement. */
  function ValidateMutation(row: Row, m: Mutation): (r: Outcome<LifecycleError>)
    ensures r.Pass? <==> MovePermitted(row, m)
    ensures row.status.Completed? ==> r == Fail(TerminalJob)
    ensures IsCommittedStatus(row.status) && !SoundCommitment(row.status, row.block, row.start, row.end) ==>
              r == Fail(CommittedStateIntegrity)
  {
    var protected := Protect(row, m.status, m.block, m.start, m.end, m.execution, m.release);
    if protected.Fail? then protected
    else if !AllowedTransition(row.status, m.status) then Fail(InvalidTransition)
    else PlacementInvariants(m.status, m.start, m.end)
  }
}
