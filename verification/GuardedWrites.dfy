/**
 The job store and every way of writing to it, and what the guard forces on
 any run of writes whatever planner produced them.
 */
module GuardedWrites {
  import opened Wrappers
  import opened JobModel
  import opened Guard
  import opened EventBacking

  datatype Store = Store(rows: map<JobId, Row>, history: seq<Event>)

  const EMPTY := Store(map[], [])

  /** One call on the repository: what it is given, not whether it is accepted. */
  datatype Write =
    | CreateJob(row: Row, created: seq<Event>)
    | Mutate(jobIds: seq<JobId>, batch: Batch, rejectTerminal: bool)
    | UpdateStatus(job: JobId, status: Status, blockStatus: Option<BlockStatus>, flag: Option<bool>, when: Option<int>)
    | UpdateSchedule(job: JobId, start: int, end: int, at: int, solver: Option<string>)
    | RecordRefusal(job: JobId, reason: string, at: int, solver: Option<string>)
    | AppendEvents(events: seq<Event>)

  /** The rows a call reads, or the error of the first missing or (when refused) terminal one. */
  function ReadRows(rows: map<JobId, Row>, jobIds: seq<JobId>, rejectTerminal: bool)
    : Result<map<JobId, Row>, LifecycleError>
  {
    if exists i :: 0 <= i < |jobIds| && jobIds[i] !in rows then Err(UnknownJob)
    else if rejectTerminal && exists i :: 0 <= i < |jobIds| && jobIds[i] in rows && rows[jobIds[i]].status.Completed?
    then Err(TerminalJob)
    else Ok(map job | job in rows && job in jobIds :: rows[job])
  }

  /** A call reads its jobs exactly if all are stored and, where that is refused, none is completed; a missing one is found first. */
  lemma ReadsExactly(rows: map<JobId, Row>, jobIds: seq<JobId>, rejectTerminal: bool)
    ensures var r := ReadRows(rows, jobIds, rejectTerminal);
            if exists i :: 0 <= i < |jobIds| && jobIds[i] !in rows then r == Err(UnknownJob)
            else if rejectTerminal && exists i :: 0 <= i < |jobIds| && jobIds[i] in rows && rows[jobIds[i]].status.Completed? then
              r == Err(TerminalJob)
            else
              && r.Ok?
              && (forall job :: job in r.value <==> job in jobIds)
              && (forall job :: job in r.value ==> job in rows && r.value[job] == rows[job])
  {
  }

  /** The first refusal among the mutations, each judged against the row as it was read. */
  function FirstRefusal(read: map<JobId, Row>, ms: seq<Mutation>): Outcome<LifecycleError> {
    if ms == [] then Pass
    else
      var rest := FirstRefusal(read, ms[..|ms| - 1]);
      var last := ms[|ms| - 1];
      if rest.Fail? then rest
      else if last.jobId !in read then Fail(UnknownJob)
      else ValidateMutation(read[last.jobId], last)
  }

  /** All mutations written, in order. */
  function Written(rows: map<JobId, Row>, ms: seq<Mutation>): (w: map<JobId, Row>)
    ensures w.Keys == rows.Keys
  {
    if ms == [] then rows
    else
      var rest := Written(rows, ms[..|ms| - 1]);
      var last := ms[|ms| - 1];
      if last.jobId in rows then rest[last.jobId := AsJob(last, rows[last.jobId])] else rest
  }

  /** Everything one call must pass before anything of it is kept. */
  function Judge(rows: map<JobId, Row>, jobIds: seq<JobId>, plan: Result<Batch, LifecycleError>, rejectTerminal: bool)
    : (r: Result<Batch, LifecycleError>)
  {
    var read := ReadRows(rows, jobIds, rejectTerminal);
    if read.Err? then Err(read.error)
    else if plan.Err? then plan
    else if FirstRefusal(read.value, plan.value.mutations).Fail? then
      Err(FirstRefusal(read.value, plan.value.mutations).error)
    else if !ExecutionEventsBacked(plan.value.mutations, plan.value.events) then Err(ExecutionTokenRefused)
    else if !ReleaseEventsBacked(plan.value.mutations, plan.value.events) then Err(ReleaseTokenRefused)
    else plan
  }

  type Plan = map<JobId, Row> -> Result<Batch, LifecycleError>

  function PlanOn(rows: map<JobId, Row>, jobIds: seq<JobId>, plan: Plan, rejectTerminal: bool): Result<Batch, LifecycleError> {
    var read := ReadRows(rows, jobIds, rejectTerminal);
    if read.Err? then Err(read.error) else plan(read.value)
  }

  /** The repository, with one transaction per call. */
  class JobRepository {
    var rows: map<JobId, Row>
    var history: seq<Event>

    constructor ()
      ensures rows == map[] && history == []
    {
      rows := map[];
      history := [];
    }

    /** Each mutation judged against the row as read and written to a working copy, up to the first refusal. */
    method WriteAll(read: map<JobId, Row>, ms: seq<Mutation>) returns (verdict: Outcome<LifecycleError>, working: map<JobId, Row>)
      requires forall job :: job in read ==> job in rows && read[job] == rows[job]
      ensures verdict == FirstRefusal(read, ms)
      ensures verdict.Pass? ==> working == Written(rows, ms)
    {
      working := rows;
      for i := 0 to |ms|
        invariant working == Written(rows, ms[..i])
        invariant FirstRefusal(read, ms[..i]).Pass?
      {
        verdict := if ms[i].jobId in read then ValidateMutation(read[ms[i].jobId], ms[i]) else Fail(UnknownJob);
        RefusalNext(read, ms, i, verdict);
        assert ms[..i + 1][..i] == ms[..i];
        if verdict.Fail? {
          return;
        }
        working := working[ms[i].jobId := AsJob(ms[i], rows[ms[i].jobId])];
      }
      assert ms[..|ms|] == ms;
      return Pass, working;
    }

    /** Read, plan, validate and write row by row, check the tokens, append: all of it or none of it. */
    method MutateJobs(jobIds: seq<JobId>, plan: Plan, rejectTerminal: bool) returns (r: Outcome<LifecycleError>)
      modifies this
      ensures
        var verdict := Judge(old(rows), jobIds, PlanOn(old(rows), jobIds, plan, rejectTerminal), rejectTerminal);
        match verdict
        case Ok(batch) => r.Pass? && rows == Written(old(rows), batch.mutations) && history == old(history) + batch.events
        case Err(e) => r == Fail(e) && rows == old(rows) && history == old(history)
    {
      var read := ReadRows(rows, jobIds, rejectTerminal);
      if read.Err? {
        return Fail(read.error);
      }
      var planned := plan(read.value);
      if planned.Err? {
        return Fail(planned.error);
      }
      var ms, es := planned.value.mutations, planned.value.events;
      var verdict, working := WriteAll(read.value, ms);
      if verdict.Fail? {
        return verdict;
      }
      var backed := ValidateExecutionEvents(ms, es);
      if backed.Fail? {
        return backed;
      }
      backed := ValidateReleaseEvents(ms, es);
      if backed.Fail? {
        return backed;
      }
      rows := working;
      history := history + es;
      return Pass;
    }
  }

  lemma RefusalNext(read: map<JobId, Row>, ms: seq<Mutation>, i: nat, verdict: Outcome<LifecycleError>)
    requires i < |ms| && FirstRefusal(read, ms[..i]).Pass?
    requires verdict == if ms[i].jobId in read then ValidateMutation(read[ms[i].jobId], ms[i]) else Fail(UnknownJob)
    ensures FirstRefusal(read, ms[..i + 1]) == verdict
    ensures verdict.Fail? ==> FirstRefusal(read, ms) == verdict
  {
    assert ms[..i + 1][..i] == ms[..i];
    if verdict.Fail? {
      RefusalStays(read, ms, i + 1);
    }
  }

  lemma {:induction false} RefusalStays(read: map<JobId, Row>, ms: seq<Mutation>, n: nat)
    requires n <= |ms| && FirstRefusal(read, ms[..n]).Fail?
    ensures FirstRefusal(read, ms) == FirstRefusal(read, ms[..n])
    decreases |ms| - n
  {
    if n == |ms| {
      assert ms[..n] == ms;
    } else {
      assert ms[..n + 1][..n] == ms[..n];
      RefusalStays(read, ms, n + 1);
    }
  }

  /** The effect of one call, whatever it is: the new store if accepted, the old one if refused. */
  function Apply(s: Store, w: Write): Store {
    match w
    case CreateJob(row, created) =>
      if row.jobId in s.rows then s else Store(s.rows[row.jobId := row], s.history + created)
    case Mutate(jobIds, batch, rejectTerminal) =>
      if Judge(s.rows, jobIds, Ok(batch), rejectTerminal).Err? then s
      else Store(Written(s.rows, batch.mutations), s.history + batch.events)
    case UpdateStatus(job, status, blockStatus, flag, when) =>
      if job !in s.rows then s
      else
        var row := s.rows[job];
        var block := row.block.(status := if blockStatus.Some? then blockStatus.value else row.block.status,
                                committed := if flag.Some? then flag.value else row.block.committed);
        if Protect(row, status, block, row.start, row.end, None, None).Fail?
           || PlacementInvariants(status, row.start, row.end).Fail? then s
        else s.(rows := s.rows[job := row.(status := status, block := block,
                                           updatedAt := if when.Some? then when else row.updatedAt)])
    case UpdateSchedule(job, start, end, at, solver) =>
      if job !in s.rows then s
      else
        var row := s.rows[job];
        var block := row.block.(status := Proposed,
                                meta := row.block.meta.(cStart := Val(start), cEnd := Val(end)));
        if Protect(row, Scheduled, block, Some(start), Some(end), None, None).Fail? then s
        else s.(rows := s.rows[job := row.(status := Scheduled, start := Some(start), end := Some(end), block := block,
                                           updatedAt := Some(at), solverStatus := solver, refusal := None)])
    case RecordRefusal(job, reason, at, solver) =>
      if job !in s.rows || s.rows[job].status.Completed? || IsCommittedStatus(s.rows[job].status) then s
      else s.(rows := s.rows[job := s.rows[job].(updatedAt := Some(at), solverStatus := solver, refusal := Some(reason))])
    case AppendEvents(events) => s.(history := s.history + events)
  }

  function Run(s: Store, ws: seq<Write>): Store {
    if ws == [] then s else Apply(Run(s, ws[..|ws| - 1]), ws[|ws| - 1])
  }

  /**
   What the callers of the repository keep to besides their batches: a job is
   created reported with its creation events, and events appended without a
   state change are refused attempts.
   */
  predicate Disciplined(w: Write) {
    match w
    case CreateJob(row, created) =>
      row.status.Reported? && forall i :: 0 <= i < |created| ==> created[i].kind.JobCreated? || created[i].kind.JobScored?
    case AppendEvents(events) => forall i :: 0 <= i < |events| ==> events[i].kind.TransitionRejected?
    case _ => true
  }

  // ------------------------------------------------------------------
  // One write, one job
  // ------------------------------------------------------------------

  /** The row of a job after a batch is that of its last mutation, whose tokens are the batch's tokens for it. */
  lemma {:induction false} LastMutation(rows: map<JobId, Row>, ms: seq<Mutation>, job: JobId) returns (i: int)
    requires job in rows
    ensures -1 <= i < |ms|
    ensures LastOfJob(ms, job) == if i == -1 then None else Some(ms[i])
    ensures i == -1 ==> Written(rows, ms)[job] == rows[job] && job !in ExecutionTokens(ms) && job !in ReleaseTokens(ms)
    ensures i >= 0 ==>
              && ms[i].jobId == job
              && Written(rows, ms)[job] == AsJob(ms[i], rows[job])
              && (ms[i].execution.Some? ==> job in ExecutionTokens(ms) && ExecutionTokens(ms)[job] == ms[i].execution.value)
              && (ms[i].release.Some? ==> job in ReleaseTokens(ms) && ReleaseTokens(ms)[job] == ms[i].release.value)
  {
    if ms == [] {
      i := -1;
    } else if ms[|ms| - 1].jobId == job {
      i := |ms| - 1;
    } else {
      i := LastMutation(rows, ms[..|ms| - 1], job);
    }
  }

  lemma {:induction false} NoRefusal(read: map<JobId, Row>, ms: seq<Mutation>)
    requires FirstRefusal(read, ms).Pass?
    ensures forall i :: 0 <= i < |ms| ==> ms[i].jobId in read && MovePermitted(read[ms[i].jobId], ms[i])
  {
    if ms != [] {
      NoRefusal(read, ms[..|ms| - 1]);
      assert forall i :: 0 <= i < |ms| - 1 ==> ms[..|ms| - 1][i] == ms[i];
    }
  }

  /** Everything an accepted batch can do to one job. */
  lemma BatchEffect(rows: map<JobId, Row>, jobIds: seq<JobId>, b: Batch, rejectTerminal: bool, job: JobId) returns (i: int)
    requires Judge(rows, jobIds, Ok(b), rejectTerminal).Ok? && job in rows
    ensures -1 <= i < |b.mutations|
    ensures LastOfJob(b.mutations, job) == if i == -1 then None else Some(b.mutations[i])
    ensures i == -1 ==> Written(rows, b.mutations)[job] == rows[job]
                        && job !in ExecutionTokens(b.mutations) && job !in ReleaseTokens(b.mutations)
    ensures i >= 0 ==>
              && b.mutations[i].jobId == job
              && MovePermitted(rows[job], b.mutations[i])
              && Written(rows, b.mutations)[job] == AsJob(b.mutations[i], rows[job])
              && (b.mutations[i].execution.Some? ==>
                    job in ExecutionTokens(b.mutations) && ExecutionTokens(b.mutations)[job] == b.mutations[i].execution.value)
              && (b.mutations[i].release.Some? ==>
                    job in ReleaseTokens(b.mutations) && ReleaseTokens(b.mutations)[job] == b.mutations[i].release.value)
  {
    NoRefusal(ReadRows(rows, jobIds, rejectTerminal).value, b.mutations);
    i := LastMutation(rows, b.mutations, job);
  }

  // ------------------------------------------------------------------
  // Conservation of executions
  // ------------------------------------------------------------------

  function StatusIn(s: Store, job: JobId): Option<Status> {
    if job in s.rows then Some(s.rows[job].status) else None
  }

  /** Started minus ended is one exactly while in progress; one completion exactly when completed. */
  predicate Balanced(s: Store, job: JobId) {
    && Count(s.history, job, ExecutionStarted) ==
       Count(s.history, job, ExecutionCompleted) + Count(s.history, job, ExecutionNotCompleted)
       + (if StatusIn(s, job) == Some(InProgress) then 1 else 0)
    && Count(s.history, job, ExecutionCompleted) == (if StatusIn(s, job) == Some(Completed) then 1 else 0)
    && Count(s.history, job, LegacyCompleted) == 0
  }

  predicate IsReleaseMove(before: Store, after: Store, job: JobId) {
    StatusIn(before, job) == Some(Notified) && StatusIn(after, job) == Some(Reported)
  }

  /** How many writes of a run moved the job from notified to reported. */
  function ReleaseMoves(ws: seq<Write>, job: JobId): nat {
    if ws == [] then 0
    else
      var front := ws[..|ws| - 1];
      ReleaseMoves(front, job) + (if IsReleaseMove(Run(EMPTY, front), Run(EMPTY, ws), job) then 1 else 0)
  }

  lemma {:induction false} CountForeign(es: seq<Event>, job: JobId, kind: EventKind)
    requires forall i :: 0 <= i < |es| ==> es[i].kind != kind
    ensures Count(es, job, kind) == 0
  {
    if es != [] {
      CountForeign(es[..|es| - 1], job, kind);
    }
  }

  predicate Claims(m: Mutation, kind: ExecutionKind) { m.execution.Some? && m.execution.value.kind == kind }

  /** A permitted mutation claims a start, an end or a release exactly when it is one. */
  lemma ClaimsMatchMove(row: Row, m: Mutation)
    requires MovePermitted(row, m)
    ensures Claims(m, Start) <==> !row.status.InProgress? && m.status.InProgress?
    ensures Claims(m, Complete) <==> row.status.InProgress? && m.status.Completed?
    ensures Claims(m, NotCompleted) <==> row.status.InProgress? && m.status.Reported?
    ensures m.release.Some? <==> row.status.Notified? && m.status.Reported?
    ensures !row.status.Completed? && (m.status.Completed? ==> row.status.InProgress?)
    ensures row.status.InProgress? ==> m.status.InProgress? || m.status.Completed? || m.status.Reported?
  {
  }

  predicate ClaimedFor(ms: seq<Mutation>, job: JobId, kind: ExecutionKind) {
    job in ExecutionTokens(ms) && ExecutionTokens(ms)[job].kind == kind
  }

  predicate Accepted(s: Store, w: Write) { w.Mutate? && Judge(s.rows, w.jobIds, Ok(w.batch), w.rejectTerminal).Ok? }

  /** An accepted batch has no mutation of a job that is not stored. */
  lemma NoMutationOfUnknown(s: Store, w: Write, job: JobId)
    requires Accepted(s, w) && job !in s.rows
    ensures !CarriesExecution(w.batch.mutations, job) && !CarriesRelease(w.batch.mutations, job)
  {
    NoRefusal(ReadRows(s.rows, w.jobIds, w.rejectTerminal).value, w.batch.mutations);
  }

  predicate LastClaims(ms: seq<Mutation>, job: JobId, kind: ExecutionKind) {
    LastOfJob(ms, job).Some? && Claims(LastOfJob(ms, job).value, kind)
  }

  /** The last mutation of a job claims a start, an end or a release exactly when the batch as a whole makes that move. */
  lemma LastClaimsMatchMove(s: Store, w: Write, job: JobId, after: Store)
    requires Accepted(s, w) && job in s.rows && after == Apply(s, w)
    ensures job in after.rows
    ensures LastClaims(w.batch.mutations, job, Start) <==> !s.rows[job].status.InProgress? && after.rows[job].status.InProgress?
    ensures LastClaims(w.batch.mutations, job, Complete) <==> s.rows[job].status.InProgress? && after.rows[job].status.Completed?
    ensures LastClaims(w.batch.mutations, job, NotCompleted) <==> s.rows[job].status.InProgress? && after.rows[job].status.Reported?
    ensures LastOfJob(w.batch.mutations, job).Some? && LastOfJob(w.batch.mutations, job).value.release.Some? <==>
            IsReleaseMove(s, after, job)
    ensures after.rows[job].status.Completed? ==> s.rows[job].status.InProgress? || s.rows[job].status.Completed?
    ensures s.rows[job].status.Completed? ==> after.rows[job].status.Completed?
    ensures s.rows[job].status.InProgress? ==>
              after.rows[job].status.InProgress? || after.rows[job].status.Completed? || after.rows[job].status.Reported?
  {
    var i := BatchEffect(s.rows, w.jobIds, w.batch, w.rejectTerminal, job);
    if i >= 0 {
      ClaimsMatchMove(s.rows[job], w.batch.mutations[i]);
    }
  }

  /** The batch's token of a job is that of its last mutation, if that one carries any. */
  lemma LastTokenWins(s: Store, w: Write, job: JobId, kind: ExecutionKind)
    requires Accepted(s, w) && job in s.rows
    ensures LastClaims(w.batch.mutations, job, kind) ==> ClaimedFor(w.batch.mutations, job, kind)
    ensures LastCarriesExecution(w.batch.mutations, job) && ClaimedFor(w.batch.mutations, job, kind) ==>
              LastClaims(w.batch.mutations, job, kind)
    ensures !LastCarriesExecution(w.batch.mutations, job) ==>
              job in ExecutionTokens(w.batch.mutations) && !LastClaims(w.batch.mutations, job, kind)
  {
    var i := BatchEffect(s.rows, w.jobIds, w.batch, w.rejectTerminal, job);
    TokensAreCarried(w.batch.mutations, job);
  }

  /**
   An accepted batch conserves a job's executions exactly when the job's last
   mutation carries an execution token if any of its mutations does.
   */
  lemma BatchConservesExactly(s: Store, w: Write, job: JobId)
    requires Accepted(s, w) && Balanced(s, job)
    ensures Balanced(Apply(s, w), job) <==> LastCarriesExecution(w.batch.mutations, job)
  {
    BatchCounts(s, w, job);
    TokensAreCarried(w.batch.mutations, job);
    if job in s.rows {
      LastClaimsMatchMove(s, w, job, Apply(s, w));
      LastTokenWins(s, w, job, Start);
      LastTokenWins(s, w, job, Complete);
      LastTokenWins(s, w, job, NotCompleted);
    } else {
      NoMutationOfUnknown(s, w, job);
    }
  }

  function ReleasedCount(s: Store, job: JobId): nat { Count(s.history, job, BlockReleased) }

  /** It records as many releases as it makes exactly when the same holds of the release token. */
  lemma BatchConservesReleasesExactly(s: Store, w: Write, job: JobId)
    requires Accepted(s, w)
    ensures ReleasedCount(Apply(s, w), job) == ReleasedCount(s, job) + (if IsReleaseMove(s, Apply(s, w), job) then 1 else 0) <==>
            LastCarriesRelease(w.batch.mutations, job)
  {
    BatchCounts(s, w, job);
    TokensAreCarried(w.batch.mutations, job);
    if job in s.rows {
      LastClaimsMatchMove(s, w, job, Apply(s, w));
      var i := BatchEffect(s.rows, w.jobIds, w.batch, w.rejectTerminal, job);
    } else {
      NoMutationOfUnknown(s, w, job);
    }
  }

  /** How many events of one execution kind an accepted batch appends for a job. */
  lemma BatchCount(s: Store, w: Write, job: JobId, kind: EventKind, after: Store)
    requires Accepted(s, w) && after == Apply(s, w) && IsExecutionEvent(kind)
    ensures Count(after.history, job, kind) == Count(s.history, job, kind) +
              (if job in ExecutionTokens(w.batch.mutations)
                  && EventFor(ExecutionTokens(w.batch.mutations)[job].kind) == kind then 1 else 0)
  {
    CountConcat(s.history, w.batch.events, job, kind);
    BackedCounts(w.batch.mutations, w.batch.events, job, kind);
  }

  lemma BatchCounts(s: Store, w: Write, job: JobId)
    requires Accepted(s, w)
    ensures forall kind :: IsExecutionEvent(kind) ==>
              Count(Apply(s, w).history, job, kind) == Count(s.history, job, kind) +
                (if job in ExecutionTokens(w.batch.mutations)
                    && EventFor(ExecutionTokens(w.batch.mutations)[job].kind) == kind then 1 else 0)
    ensures Count(Apply(s, w).history, job, BlockReleased) ==
            Count(s.history, job, BlockReleased) + (if job in ReleaseTokens(w.batch.mutations) then 1 else 0)
    ensures Count(Apply(s, w).history, job, LegacyCompleted) == Count(s.history, job, LegacyCompleted)
  {
    forall kind | IsExecutionEvent(kind)
      ensures Count(Apply(s, w).history, job, kind) == Count(s.history, job, kind) +
                (if job in ExecutionTokens(w.batch.mutations)
                    && EventFor(ExecutionTokens(w.batch.mutations)[job].kind) == kind then 1 else 0)
    {
      BatchCount(s, w, job, kind, Apply(s, w));
    }
    CountConcat(s.history, w.batch.events, job, BlockReleased);
    BackedReleaseCounts(w.batch.mutations, w.batch.events, job);
    CountConcat(s.history, w.batch.events, job, LegacyCompleted);
    CountForeign(w.batch.events, job, LegacyCompleted);
  }

  lemma AppendConserves(s: Store, es: seq<Event>, job: JobId)
    requires forall i :: 0 <= i < |es| ==>
               es[i].kind.JobCreated? || es[i].kind.JobScored? || es[i].kind.TransitionRejected?
    ensures forall kind :: IsExecutionEvent(kind) || kind.BlockReleased? || kind.LegacyCompleted? ==>
              Count(s.history + es, job, kind) == Count(s.history, job, kind)
  {
    forall kind | IsExecutionEvent(kind) || kind.BlockReleased? || kind.LegacyCompleted?
      ensures Count(s.history + es, job, kind) == Count(s.history, job, kind)
    {
      CountConcat(s.history, es, job, kind);
      CountForeign(es, job, kind);
    }
  }

  /** The history-less primitives cannot make a gated move. */
  lemma PrimitivesCannotMoveGated(s: Store, w: Write, job: JobId)
    requires w.UpdateStatus? || w.UpdateSchedule? || w.RecordRefusal?
    ensures Apply(s, w).history == s.history
    ensures StatusIn(s, job) == Some(InProgress) <==> StatusIn(Apply(s, w), job) == Some(InProgress)
    ensures StatusIn(s, job) == Some(Completed) <==> StatusIn(Apply(s, w), job) == Some(Completed)
    ensures !IsReleaseMove(s, Apply(s, w), job)
  {
  }

  predicate IsLive(row: Row) { row.status.Reported? || row.status.Scheduled? }

  /** Writing a schedule directly reschedules a live job in that window, keeping whatever run it names, and refuses any other. */
  lemma ScheduleExactly(s: Store, w: Write)
    requires w.UpdateSchedule?
    ensures Apply(s, w) ==
            if w.job in s.rows && IsLive(s.rows[w.job]) then
              var row := s.rows[w.job];
              s.(rows := s.rows[w.job :=
                row.(status := Scheduled, start := Some(w.start), end := Some(w.end), updatedAt := Some(w.at),
                     solverStatus := w.solver, refusal := None,
                     block := row.block.(status := Proposed,
                                         meta := Meta(Val(w.start), Val(w.end), row.block.meta.run, row.block.meta.execId)))])
            else s
  {
  }

  /** Recording a refusal directly tells a live job why, and refuses any other. */
  lemma RefusalExactly(s: Store, w: Write)
    requires w.RecordRefusal?
    ensures Apply(s, w) ==
            if w.job in s.rows && IsLive(s.rows[w.job]) then
              s.(rows := s.rows[w.job :=
                s.rows[w.job].(updatedAt := Some(w.at), solverStatus := w.solver, refusal := Some(w.reason))])
            else s
  {
  }

  /** The status written directly fits the window left in place, and a commitment stays one. */
  predicate StatusFits(row: Row, status: Status, block: Block) {
    match status
    case Reported => IsLive(row) && row.start.None? && row.end.None?
    case Scheduled => IsLive(row) && ValidWindow(row.start, row.end)
    case Notified =>
      && (IsLive(row) || (row.status.Notified? && row.block.status.Committed? && row.block.committed))
      && block.status.Committed? && block.committed && block.meta.execId.Absent? && ValidWindow(row.start, row.end)
    case InProgress =>
      && row.status.InProgress? && row.block.status.Committed? && row.block.committed
      && block.status.Committed? && block.committed && Truthy(block.meta.execId) && ValidWindow(row.start, row.end)
    case Completed => false
  }

  /** The row a direct status change leaves. */
  function Restated(row: Row, w: Write): Row
    requires w.UpdateStatus?
  {
    row.(status := w.status,
         updatedAt := if w.when.Some? then w.when else row.updatedAt,
         block := row.block.(status := if w.blockStatus.Some? then w.blockStatus.value else row.block.status,
                             committed := if w.flag.Some? then w.flag.value else row.block.committed))
  }

  /** Writing a status directly changes that, the block's mirror of it and the moment, exactly when it fits. */
  lemma StatusExactly(s: Store, w: Write)
    requires w.UpdateStatus?
    ensures Apply(s, w) ==
            if w.job in s.rows && StatusFits(s.rows[w.job], w.status, Restated(s.rows[w.job], w).block) then
              s.(rows := s.rows[w.job := Restated(s.rows[w.job], w)])
            else s
  {
    if w.job in s.rows {
      var row := s.rows[w.job];
      StatusFitsExactly(row, w.status, Restated(row, w).block);
    }
  }

  lemma StatusFitsExactly(row: Row, status: Status, block: Block)
    requires block.meta == row.block.meta
    ensures Protect(row, status, block, row.start, row.end, None, None).Pass? && PlacementInvariants(status, row.start, row.end).Pass? <==>
            StatusFits(row, status, block)
  {
  }

  /** The job's executions balance, and its releases are all recorded. */
  predicate Conserved(ws: seq<Write>, job: JobId) {
    Balanced(Run(EMPTY, ws), job) && ReleasedCount(Run(EMPTY, ws), job) == ReleaseMoves(ws, job)
  }

  /** What a batch must be for one job: refused, or its last mutation of the job carries what any of them does. */
  predicate LastSpeaks(s: Store, w: Write, job: JobId) {
    Accepted(s, w) ==> LastCarriesExecution(w.batch.mutations, job) && LastCarriesRelease(w.batch.mutations, job)
  }

  lemma StepConservesExactly(s: Store, w: Write, job: JobId)
    requires Disciplined(w) && Balanced(s, job)
    ensures LastSpeaks(s, w, job) <==>
            Balanced(Apply(s, w), job)
            && ReleasedCount(Apply(s, w), job) == ReleasedCount(s, job) + (if IsReleaseMove(s, Apply(s, w), job) then 1 else 0)
  {
    match w {
      case CreateJob(row, created) => AppendConserves(s, created, job);
      case Mutate(_, _, _) =>
        if Accepted(s, w) {
          BatchConservesExactly(s, w, job);
          BatchConservesReleasesExactly(s, w, job);
        }
      case AppendEvents(events) => AppendConserves(s, events, job);
      case _ => PrimitivesCannotMoveGated(s, w, job);
    }
  }

  predicate ConservedThroughout(ws: seq<Write>, job: JobId) { forall n :: 0 <= n <= |ws| ==> Conserved(ws[..n], job) }

  predicate LastSpeaksThroughout(ws: seq<Write>, job: JobId) {
    forall n :: 0 <= n < |ws| ==> LastSpeaks(Run(EMPTY, ws[..n]), ws[n], job)
  }

  lemma ConservedNext(ws: seq<Write>, n: nat, job: JobId)
    requires n < |ws| && Disciplined(ws[n]) && Conserved(ws[..n], job)
    ensures Conserved(ws[..n + 1], job) <==> LastSpeaks(Run(EMPTY, ws[..n]), ws[n], job)
  {
    var next := ws[..n + 1];
    assert next[..|next| - 1] == ws[..n];
    StepConservesExactly(Run(EMPTY, ws[..n]), ws[n], job);
  }

  lemma {:induction false} ConservedUpTo(ws: seq<Write>, n: nat, job: JobId)
    requires n <= |ws| && LastSpeaksThroughout(ws, job) && forall i :: 0 <= i < |ws| ==> Disciplined(ws[i])
    ensures Conserved(ws[..n], job)
  {
    if n > 0 {
      ConservedUpTo(ws, n - 1, job);
      ConservedNext(ws, n - 1, job);
    }
  }

  /**
   A run of any planners' batches conserves a job's executions and releases
   throughout exactly when, in every accepted batch, the job's last mutation
   carries the tokens that any of its mutations does.
   */
  lemma RunsConserveExactly(ws: seq<Write>, job: JobId)
    requires forall i :: 0 <= i < |ws| ==> Disciplined(ws[i])
    ensures ConservedThroughout(ws, job) <==> LastSpeaksThroughout(ws, job)
  {
    if LastSpeaksThroughout(ws, job) {
      forall n | 0 <= n <= |ws| ensures Conserved(ws[..n], job) { ConservedUpTo(ws, n, job); }
    }
    if ConservedThroughout(ws, job) {
      forall n | 0 <= n < |ws| ensures LastSpeaks(Run(EMPTY, ws[..n]), ws[n], job) {
        assert Conserved(ws[..n], job) && Conserved(ws[..n + 1], job);
        ConservedNext(ws, n, job);
      }
    }
  }

  /** So batches with one mutation per job, the shipped planners' among them, conserve every job in every run. */
  lemma RunsConserveExecutions(ws: seq<Write>, job: JobId)
    requires forall i :: 0 <= i < |ws| ==> Disciplined(ws[i]) && (ws[i].Mutate? ==> DistinctJobs(ws[i].batch.mutations))
    ensures ConservedThroughout(ws, job)
  {
    forall n | 0 <= n < |ws| ensures LastSpeaks(Run(EMPTY, ws[..n]), ws[n], job) {
      if ws[n].Mutate? { DistinctLastCarries(ws[n].batch.mutations, job); }
    }
    RunsConserveExactly(ws, job);
  }

  /** Two mutations of one approved row: one starts its execution, the other releases it. */
  function StartAndRelease(row: Row, exe: string, run: string): seq<Mutation> {
    [ Unchanged(row).(status := InProgress,
                      block := row.block.(meta := row.block.meta.(execId := Val(exe))),
                      execution := Some(ExecutionToken(Start, exe))),
      Unchanged(row).(status := Reported, start := None, end := None,
                      block := row.block.(status := Planned, committed := false, meta := NO_META),
                      release := Some(run)) ]
  }

  function StartedAndReleased(job: JobId, exe: string, run: string): seq<Event> {
    [ Event(job, ExecutionStarted, IdentifiedHuman, 0, None, Some(run), None, None,
            NO_EVENT_META.(executionId := Text(exe))),
      Event(job, BlockReleased, IdentifiedHuman, 0, None, Some(run), None, None,
            NO_EVENT_META.(releasedRun := Text(run))) ]
  }

  lemma DuplicateTokens(row: Row, exe: string, run: string, ms: seq<Mutation>)
    requires ms == StartAndRelease(row, exe, run)
    ensures ExecutionTokens(ms) == map[row.jobId := ExecutionToken(Start, exe)]
    ensures ReleaseTokens(ms) == map[row.jobId := run]
  {
    var m1 := ms[..1];
    assert m1[..0] == [];
    assert ExecutionTokens(m1) == map[row.jobId := ExecutionToken(Start, exe)];
    assert ReleaseTokens(m1) == map[];
  }

  lemma DuplicateMatches(job: JobId, exe: string, run: string, es: seq<Event>)
    requires es == StartedAndReleased(job, exe, run)
    ensures Matching(es, job, ExecutionToken(Start, exe)) == 1
    ensures MatchingReleases(es, job, run) == 1
  {
    var e1 := es[..1];
    assert e1[..0] == [];
    assert Matching(e1, job, ExecutionToken(Start, exe)) == 1;
    assert MatchingReleases(e1, job, run) == 0;
  }

  lemma DuplicateBatchIsBacked(row: Row, exe: string, run: string)
    ensures ExecutionEventsBacked(StartAndRelease(row, exe, run), StartedAndReleased(row.jobId, exe, run))
    ensures ReleaseEventsBacked(StartAndRelease(row, exe, run), StartedAndReleased(row.jobId, exe, run))
  {
    var ms, es := StartAndRelease(row, exe, run), StartedAndReleased(row.jobId, exe, run);
    DuplicateTokens(row, exe, run, ms);
    DuplicateMatches(row.jobId, exe, run, es);
  }

  lemma DuplicateBatchIsPermitted(row: Row, exe: string, run: string, read: map<JobId, Row>)
    requires row.status.Notified? && SoundCommitment(Notified, row.block, row.start, row.end)
    requires RunOf(row) == Some(run) && !Blank(run) && !Blank(exe) && row.jobId in read && read[row.jobId] == row
    ensures FirstRefusal(read, StartAndRelease(row, exe, run)).Pass?
  {
    var ms := StartAndRelease(row, exe, run);
    var m1 := ms[..1];
    assert m1[..0] == [];
    assert MovePermitted(row, ms[0]) && MovePermitted(row, ms[1]);
    assert FirstRefusal(read, m1).Pass?;
  }

  lemma DuplicateBatchIsJudged(row: Row, exe: string, run: string, s: Store, b: Batch)
    requires row.status.Notified? && SoundCommitment(Notified, row.block, row.start, row.end)
    requires RunOf(row) == Some(run) && !Blank(run) && !Blank(exe) && row.jobId in s.rows && s.rows[row.jobId] == row
    requires b == Batch(StartAndRelease(row, exe, run), StartedAndReleased(row.jobId, exe, run))
    ensures Judge(s.rows, [row.jobId], Ok(b), false).Ok?
  {
    DuplicateBatchIsBacked(row, exe, run);
    assert [row.jobId][0] == row.jobId;
    DuplicateBatchIsPermitted(row, exe, run, ReadRows(s.rows, [row.jobId], false).value);
  }

  lemma DuplicateLastIsSilent(row: Row, exe: string, run: string, ms: seq<Mutation>)
    requires ms == StartAndRelease(row, exe, run)
    ensures !LastCarriesExecution(ms, row.jobId)
  {
    assert ms[0].jobId == row.jobId && ms[0].execution.Some?;
  }

  /**
   The condition can fail in any store: for every approved block that names a run, a batch that
   both starts and releases it is accepted, because each mutation is judged
   against the row as read, and leaves a started execution that never ends.
   */
  lemma DuplicateMutationBreaksConservation(s: Store, row: Row, exe: string, run: string, b: Batch)
    requires row.jobId in s.rows && s.rows[row.jobId] == row && Balanced(s, row.jobId)
    requires row.status.Notified? && SoundCommitment(Notified, row.block, row.start, row.end)
    requires RunOf(row) == Some(run) && !Blank(run) && !Blank(exe)
    requires b == Batch(StartAndRelease(row, exe, run), StartedAndReleased(row.jobId, exe, run))
    ensures Accepted(s, Mutate([row.jobId], b, false))
    ensures !Balanced(Apply(s, Mutate([row.jobId], b, false)), row.jobId)
  {
    DuplicateBatchIsJudged(row, exe, run, s, b);
    DuplicateLastIsSilent(row, exe, run, b.mutations);
    BatchConservesExactly(s, Mutate([row.jobId], b, false), row.jobId);
  }

  // ------------------------------------------------------------------
  // A commitment is frozen until it is released with authority
  // ------------------------------------------------------------------

  predicate Held(s: Store, job: JobId) {
    job in s.rows && (IsCommittedStatus(s.rows[job].status) || s.rows[job].status.Completed?)
  }

  /** Same window, same placement metadata, same run and, once started, same execution. */
  predicate SameCommitment(a: Row, b: Row) {
    && SamePlacement(a, b.block, b.start, b.end)
    && (!a.status.Notified? ==> !b.status.Notified? && ExecutionOf(a) == ExecutionOf(b))
    && a.trackId == b.trackId && a.workType == b.workType
  }

  /** A write either keeps a held commitment or withdraws it completely. */
  lemma WriteKeepsOrWithdraws(s: Store, w: Write, job: JobId)
    requires Held(s, job)
    ensures job in Apply(s, w).rows
    ensures Held(Apply(s, w), job) ==> SameCommitment(s.rows[job], Apply(s, w).rows[job])
    ensures s.rows[job].status.Completed? ==> Apply(s, w).rows[job] == s.rows[job]
    ensures !Held(Apply(s, w), job) ==>
              var row := Apply(s, w).rows[job];
              w.Mutate? && row.status.Reported? && FullyWithdrawn(row.block, row.start, row.end)
  {
    if w.Mutate? && Judge(s.rows, w.jobIds, Ok(w.batch), w.rejectTerminal).Ok? {
      var i := BatchEffect(s.rows, w.jobIds, w.batch, w.rejectTerminal, job);
    }
  }

  lemma {:induction false} MatchingWitness(es: seq<Event>, job: JobId, token: ExecutionToken) returns (i: nat)
    requires Matching(es, job, token) > 0
    ensures i < |es| && MatchesToken(es[i], job, token)
  {
    if MatchesToken(es[|es| - 1], job, token) {
      i := |es| - 1;
    } else {
      i := MatchingWitness(es[..|es| - 1], job, token);
    }
  }

  lemma {:induction false} ReleaseWitness(es: seq<Event>, job: JobId, run: string) returns (i: nat)
    requires MatchingReleases(es, job, run) > 0
    ensures i < |es| && MatchesRelease(es[i], job, run)
  {
    if MatchesRelease(es[|es| - 1], job, run) {
      i := |es| - 1;
    } else {
      i := ReleaseWitness(es[..|es| - 1], job, run);
    }
  }

  /** The event that authorises giving up the commitment of `row`. */
  predicate Authorises(e: Event, row: Row) {
    if row.status.Notified? then
      RunOf(row).Some? && e.kind.BlockReleased? && e.meta.releasedRun == Text(RunOf(row).value)
    else
      ExecutionOf(row).Some? && e.kind.ExecutionNotCompleted? && e.meta.executionId == Text(ExecutionOf(row).value)
  }

  /** A commitment is given up only by a batch that records, for that job, the release or failure it claims. */
  lemma WithdrawalIsAuthorised(s: Store, w: Write, job: JobId) returns (i: nat)
    requires Held(s, job) && !Held(Apply(s, w), job)
    ensures w.Mutate? && i < |w.batch.events|
    ensures w.batch.events[i].jobId == job && Authorises(w.batch.events[i], s.rows[job])
    ensures Apply(s, w).history == s.history + w.batch.events
  {
    WriteKeepsOrWithdraws(s, w, job);
    var k := BatchEffect(s.rows, w.jobIds, w.batch, w.rejectTerminal, job);
    if s.rows[job].status.Notified? {
      i := ReleaseWitness(w.batch.events, job, w.batch.mutations[k].release.value);
    } else {
      i := MatchingWitness(w.batch.events, job, w.batch.mutations[k].execution.value);
    }
  }

  /** The stores a sequence of writes passes through, from any store at all. */
  predicate Trace(tr: seq<Store>, ws: seq<Write>) {
    |tr| == |ws| + 1 && forall k :: 0 <= k < |ws| ==> StepOf(tr, ws, k)
  }

  predicate StepOf(tr: seq<Store>, ws: seq<Write>, k: nat)
    requires k + 1 < |tr| && k < |ws|
  {
    Leads(tr[k], ws[k], tr[k + 1])
  }

  predicate Leads(before: Store, w: Write, after: Store) { after == Apply(before, w) }

  lemma LeadsKeepsOrWithdraws(before: Store, w: Write, after: Store, job: JobId)
    requires Leads(before, w, after) && Held(before, job)
    ensures job in after.rows
    ensures Held(after, job) ==> SameCommitment(before.rows[job], after.rows[job])
    ensures before.rows[job].status.Completed? ==> after.rows[job] == before.rows[job]
    ensures !Held(after, job) ==> AuthorisedWithdrawal(before, w, after, job)
  {
    WriteKeepsOrWithdraws(before, w, job);
    if !Held(after, job) {
      var i := WithdrawalIsAuthorised(before, w, job);
    }
  }

  lemma TraceStep(tr: seq<Store>, ws: seq<Write>, k: nat, job: JobId)
    requires Trace(tr, ws) && k < |ws| && Held(tr[k], job)
    ensures job in tr[k + 1].rows
    ensures Held(tr[k + 1], job) ==> SameCommitment(tr[k].rows[job], tr[k + 1].rows[job])
    ensures tr[k].rows[job].status.Completed? ==> tr[k + 1].rows[job] == tr[k].rows[job]
    ensures !Held(tr[k + 1], job) ==> AuthorisedWithdrawal(tr[k], ws[k], tr[k + 1], job)
  {
    assert StepOf(tr, ws, k);
    LeadsKeepsOrWithdraws(tr[k], ws[k], tr[k + 1], job);
  }

  lemma SameThroughout(a: Row, b: Row, c: Row)
    requires SameCommitment(a, b) && SameCommitment(b, c)
    ensures SameCommitment(a, c)
  {
  }

  lemma HeldStep(tr: seq<Store>, ws: seq<Write>, k: nat, job: JobId)
    requires Trace(tr, ws) && k < |ws| && Held(tr[k], job) && Held(tr[k + 1], job)
    ensures SameCommitment(tr[k].rows[job], tr[k + 1].rows[job])
  {
    TraceStep(tr, ws, k, job);
  }

  predicate HeldThroughout(tr: seq<Store>, i: nat, j: nat, job: JobId) {
    forall k :: i <= k <= j && k < |tr| ==> Held(tr[k], job)
  }

  /** Over any number of writes by any planner, a commitment that is never given up never moves. */
  lemma {:induction false} CommitmentFrozen(tr: seq<Store>, ws: seq<Write>, i: nat, j: nat, job: JobId)
    requires Trace(tr, ws) && i <= j < |tr| && HeldThroughout(tr, i, j, job)
    ensures Held(tr[i], job) && Held(tr[j], job)
    ensures SameCommitment(tr[i].rows[job], tr[j].rows[job])
    decreases j
  {
    if i < j {
      var before, last := tr[j - 1], tr[j];
      CommitmentFrozen(tr, ws, i, j - 1, job);
      HeldStep(tr, ws, j - 1, job);
      SameThroughout(tr[i].rows[job], before.rows[job], last.rows[job]);
    } else {
      assert tr[i] == tr[j];
    }
  }

  /** A completed row is never written again. */
  lemma {:induction false} CompletedIsFinal(tr: seq<Store>, ws: seq<Write>, i: nat, j: nat, job: JobId)
    requires Trace(tr, ws) && i <= j < |tr|
    requires job in tr[i].rows && tr[i].rows[job].status.Completed?
    ensures job in tr[j].rows && tr[j].rows[job] == tr[i].rows[job]
    decreases j
  {
    if i < j {
      CompletedIsFinal(tr, ws, i, j - 1, job);
      TraceStep(tr, ws, j - 1, job);
    }
  }

  /** If a commitment held earlier is gone or different later, some write in between withdrew it with authority. */
  lemma {:induction false} ChangeNeedsAuthority(tr: seq<Store>, ws: seq<Write>, i: nat, j: nat, job: JobId) returns (k: nat)
    requires Trace(tr, ws) && i <= j < |tr| && Held(tr[i], job)
    requires Held(tr[j], job) ==> !SameCommitment(tr[i].rows[job], tr[j].rows[job])
    ensures i <= k < j && Held(tr[k], job) && AuthorisedWithdrawal(tr[k], ws[k], tr[k + 1], job)
    ensures SameCommitment(tr[i].rows[job], tr[k].rows[job])
  {
    k := FirstLoss(tr, ws, i, j, job);
    CommitmentFrozen(tr, ws, i, k, job);
    TraceStep(tr, ws, k, job);
  }

  /** The write withdraws the whole commitment and, in the same batch, records the release or failure that allows it. */
  predicate AuthorisedWithdrawal(before: Store, w: Write, after: Store, job: JobId)
    requires Held(before, job)
  {
    && w.Mutate?
    && after.history == before.history + w.batch.events
    && (exists i :: 0 <= i < |w.batch.events| && w.batch.events[i].jobId == job && Authorises(w.batch.events[i], before.rows[job]))
    && job in after.rows
    && after.rows[job].status.Reported?
    && FullyWithdrawn(after.rows[job].block, after.rows[job].start, after.rows[job].end)
  }

  lemma {:induction false} FirstLoss(tr: seq<Store>, ws: seq<Write>, i: nat, j: nat, job: JobId) returns (k: nat)
    requires Trace(tr, ws) && i <= j < |tr| && Held(tr[i], job)
    requires Held(tr[j], job) ==> !SameCommitment(tr[i].rows[job], tr[j].rows[job])
    ensures i <= k < j && !Held(tr[k + 1], job)
    ensures HeldThroughout(tr, i, k, job)
    decreases j - i
  {
    if i == j {
      CommitmentFrozen(tr, ws, i, j, job);
      assert false;
    } else if Held(tr[i + 1], job) {
      CommitmentFrozen(tr, ws, i, i + 1, job);
      if Held(tr[j], job) && SameCommitment(tr[i + 1].rows[job], tr[j].rows[job]) {
        SameThroughout(tr[i].rows[job], tr[i + 1].rows[job], tr[j].rows[job]);
      }
      k := FirstLoss(tr, ws, i + 1, j, job);
    } else {
      k := i;
    }
  }
}
