/**
 What each human decision does to a job and its history, and exactly when it
 does anything at all.
 */
module DecisionEffects {
  import opened Wrappers
  import opened JobModel
  import opened Execution
  import opened Planners
  import opened JobInvariant
  import opened GuardedWrites
  import opened StoreInvariant
  import opened ServiceRuns

  // ------------------------------------------------------------------
  // When a decision is allowed
  // ------------------------------------------------------------------

  /** How far ahead of its recording an observation may lie: five minutes. */
  const SKEW: int := 300_000_000

  /** The decision names the run whose proposal or block it is about, and says why. */
  predicate Names(row: Row, run: string, why: string) { !Blank(run) && !Blank(why) && RunOf(row) == Some(run) }

  predicate CapturedWithin(item: EvidenceItem, at: int, from: Option<int>, to: Option<int>) {
    && item.capturedAt <= at + SKEW
    && (from.Some? ==> from.value <= item.capturedAt)
    && (to.Some? ==> item.capturedAt <= to.value)
  }

  /** At most ten items, none twice, each captured in the time allowed. */
  predicate Presentable(items: seq<EvidenceItem>, at: int, from: Option<int>, to: Option<int>) {
    && |items| <= 10
    && (forall i, j :: 0 <= i < j < |items| ==> items[i].reference != items[j].reference)
    && (forall i :: 0 <= i < |items| ==> CapturedWithin(items[i], at, from, to))
  }

  /** None of the items was used before the work. */
  predicate AllNew(items: seq<EvidenceItem>, used: seq<EvidenceEntry>) {
    forall i, j :: 0 <= i < |items| && 0 <= j < |used| && used[j].Entry? ==> items[i].reference != used[j].reference
  }

  /** Neither the execution nor the run was attempted before. */
  predicate NeverAttempted(rs: seq<ExecutionRecord>, id: string, run: string) {
    forall i :: 0 <= i < |rs| ==> rs[i].executionId != id && rs[i].runId != run
  }

  /** The report is about the current execution on its own corridor, by a person, of an end observed after the start. */
  predicate ReportsEnd(row: Row, open: ExecutionRecord, f: EndFacts, actor: Actor, at: int) {
    && actor.IdentifiedHuman?
    && ExecutionOf(row) == Some(f.executionId)
    && open.digest.Hash? && open.digest.of.corridorId == f.corridor
    && open.actualStartAt <= f.actualEndAt <= at + SKEW
    && f.horizonStart % 60_000_000 == 0
  }

  /** What a decision asks of a job, its attempts so far, and whoever makes it. */
  predicate Allowed(row: Row, rs: seq<ExecutionRecord>, d: Decision, actor: Actor, at: int) {
    match d
    case Approve(pinned) => row.status.Scheduled? && actor.IdentifiedHuman? && (pinned.Some? ==> pinned == RunOf(row))
    case Reject(why, run) => row.status.Scheduled? && actor.IdentifiedHuman? && Names(row, run, why)
    case Postpone(why, notBefore, horizon, run) =>
      row.status.Scheduled? && actor.IdentifiedHuman? && Names(row, run, why) && 0 <= notBefore < horizon
    case Release(why, _, run) => row.status.Notified? && actor.IdentifiedHuman? && Names(row, run, why)
    case StartWork(f) =>
      && row.status.Notified? && actor.IdentifiedHuman?
      && !Blank(f.expectedRun) && RunOf(row) == Some(f.expectedRun)
      && IsExecutionId(f.executionId) && NeverAttempted(rs, f.executionId, f.expectedRun)
      && f.actualStartAt <= at + SKEW && f.horizonStart % 60_000_000 == 0
      && f.evidence != [] && Presentable(f.evidence, at, None, Some(f.actualStartAt))
    case CompleteWork(f) =>
      && row.status.InProgress? && rs != [] && ReportsEnd(row, rs[|rs| - 1], f, actor, at)
      && f.evidence != [] && Presentable(f.evidence, at, Some(rs[|rs| - 1].actualStartAt), None)
      && AllNew(f.evidence, rs[|rs| - 1].before)
    case ReportNotCompleted(f, why, _) =>
      && row.status.InProgress? && rs != [] && ReportsEnd(row, rs[|rs| - 1], f, actor, at)
      && !Blank(why) && Presentable(f.evidence, at, None, None)
    case Assign(from, to) => (row.status.Reported? || row.status.Scheduled?) && from < to
  }

  // ------------------------------------------------------------------
  // What it does
  // ------------------------------------------------------------------

  function Larger(a: int, b: int): int { if a < b then b else a }

  function NotBeforeOf(row: Row): int { match row.block.earliest case Some(minute) => minute case None => 0 }

  function LatestEndOf(row: Row): int { match row.block.latest case Some(minute) => minute case None => 1440 }

  /** Reported again without window, run or execution, for this reason. */
  function SentBack(row: Row, at: int, why: string): Row {
    row.(status := Reported, start := None, end := None, updatedAt := Some(at), refusal := Some(why),
         block := row.block.(status := Planned, committed := false, meta := Meta(Absent, Absent, Absent, Absent)))
  }

  /** To be planned again no earlier than this, and within at least this horizon. */
  function Replannable(row: Row, notBefore: int, horizon: int): Row {
    row.(block := row.block.(earliest := Some(notBefore), latest := Some(Larger(LatestEndOf(row), horizon))))
  }

  function Decided(row: Row, d: Decision, at: int): Row
    requires row.end.Some? || d.Approve? || d.Reject? || d.Postpone? || d.Assign?
  {
    match d
    case Approve(_) => row.(status := Notified, updatedAt := Some(at), block := row.block.(status := Committed, committed := true))
    case Reject(why, _) => SentBack(row, at, why)
    case Postpone(why, notBefore, horizon, _) => Replannable(SentBack(row, at, why), notBefore, horizon)
    case Release(why, horizon, _) =>
      Replannable(SentBack(row, at, why), Larger(NotBeforeOf(row), row.end.value), horizon)
    case StartWork(f) =>
      row.(status := InProgress, updatedAt := Some(at),
           block := row.block.(meta := row.block.meta.(execId := Val(f.executionId))))
    case CompleteWork(_) => row.(status := Completed, updatedAt := Some(at))
    case ReportNotCompleted(f, why, horizon) =>
      Replannable(SentBack(row, at, why),
                  Larger(NotBeforeOf(row), Larger(row.end.value, MinuteAfter(f.actualEndAt, f.horizonStart))), horizon)
    case Assign(from, to) =>
      row.(status := Scheduled, start := Some(from), end := Some(to), updatedAt := Some(at), refusal := None,
           block := row.block.(status := Proposed, committed := false,
                               meta := row.block.meta.(cStart := Val(from), cEnd := Val(to), run := Absent)))
  }

  function KindOf(d: Decision): EventKind {
    match d
    case Approve(_) => BlockCommitted
    case Reject(_, _) => ProposalRejected
    case Postpone(_, _, _, _) => ProposalPostponed
    case Release(_, _, _) => BlockReleased
    case StartWork(_) => ExecutionStarted
    case CompleteWork(_) => ExecutionCompleted
    case ReportNotCompleted(_, _, _) => ExecutionNotCompleted
    case Assign(_, _) => ScheduleAssigned
  }

  function ReasonOf(d: Decision): Option<string> {
    match d
    case Reject(why, _) => Some(why)
    case Postpone(why, _, _, _) => Some(why)
    case Release(why, _, _) => Some(why)
    case ReportNotCompleted(_, why, _) => Some(why)
    case _ => None
  }

  /** The event records who decided what, when and why, about which run, and the states before and after. */
  predicate Records(e: Event, row: Row, after: Row, d: Decision, actor: Actor, at: int) {
    && e.jobId == row.jobId && e.kind == KindOf(d) && e.actor == actor && e.at == at && e.reason == ReasonOf(d)
    && e.runId == (if d.Assign? then None else RunOf(row))
    && e.before == Some(SnapshotOf(row)) && e.after == Some(SnapshotOf(after))
  }

  /** A plan that does exactly what the decision does. */
  predicate PlansIt(r: Result<Share, LifecycleError>, row: Row, d: Decision, actor: Actor, at: int) {
    && r.Ok?
    && (row.end.Some? || d.Approve? || d.Reject? || d.Postpone? || d.Assign?)
    && AsJob(r.value.mutation, row) == Decided(row, d, at)
    && r.value.mutation.jobId == row.jobId
    && |r.value.events| == 1
    && Records(r.value.events[0], row, Decided(row, d, at), d, actor, at)
  }

  /** A plan that is made exactly when the decision is allowed, and then does it. */
  predicate PlansExactly(r: Result<Share, LifecycleError>, row: Row, rs: seq<ExecutionRecord>, d: Decision, actor: Actor, at: int) {
    if Allowed(row, rs, d, actor, at) then PlansIt(r, row, d, actor, at) else r.Err?
  }

  // ------------------------------------------------------------------
  // Decision by decision
  // ------------------------------------------------------------------

  lemma ApproveExactly(row: Row, rs: seq<ExecutionRecord>, actor: Actor, at: int, pinned: Option<string>)
    requires RowSound(row)
    ensures PlansExactly(PlanCommit(row, actor, at, pinned), row, rs, Approve(pinned), actor, at)
  {
  }

  lemma RejectExactly(row: Row, rs: seq<ExecutionRecord>, actor: Actor, at: int, why: string, run: string)
    requires RowSound(row)
    ensures PlansExactly(PlanReject(row, actor, at, why, run), row, rs, Reject(why, run), actor, at)
  {
  }

  lemma PostponeExactly(row: Row, rs: seq<ExecutionRecord>, actor: Actor, at: int, why: string, notBefore: int, horizon: int, run: string)
    requires RowSound(row)
    ensures PlansExactly(PlanPostpone(row, actor, at, why, notBefore, horizon, run), row, rs,
                         Postpone(why, notBefore, horizon, run), actor, at)
  {
  }

  lemma ReleaseExactly(row: Row, rs: seq<ExecutionRecord>, actor: Actor, at: int, why: string, horizon: int, run: string)
    requires RowSound(row)
    ensures PlansExactly(PlanRelease(row, actor, at, why, run, horizon), row, rs, Release(why, horizon, run), actor, at)
  {
  }

  lemma AssignExactly(row: Row, rs: seq<ExecutionRecord>, actor: Actor, at: int, from: int, to: int)
    requires RowSound(row)
    ensures var r, d := PlanScheduleAssignment(row, from, to, actor, at), Assign(from, to);
            if row.status.Reported? || row.status.Scheduled? then PlansIt(r, row, d, actor, at) else r.Err?
  {
  }

  lemma EvidenceExactly(items: seq<EvidenceItem>, at: int, minimum: nat, to: Option<int>, from: Option<int>, used: seq<EvidenceEntry>)
    requires minimum <= 1
    ensures EvidenceSetOk(items, at, minimum, to, from, used) <==>
            Presentable(items, at, from, to) && AllNew(items, used) && (minimum == 1 ==> items != [])
  {
  }

  lemma ForbidsExactly(row: Row, rs: seq<ExecutionRecord>, id: string, run: string)
    requires RecordsFit(row, rs) && row.status.Notified? && RunOf(row) == Some(run)
    ensures (exists i :: 0 <= i < |rs| && ForbidsStart(rs[i], row, id)) <==> !NeverAttempted(rs, id, run)
  {
  }

  lemma StartRefused(row: Row, rs: seq<ExecutionRecord>, actor: Actor, at: int, f: StartFacts)
    requires RowSound(row) && !(row.status.Notified? && actor.IdentifiedHuman? && !Blank(f.expectedRun) && RunOf(row) == Some(f.expectedRun))
    ensures PlanExecutionStart(row, actor, at, f, rs).Err?
  {
  }

  lemma StartExactly(row: Row, rs: seq<ExecutionRecord>, actor: Actor, at: int, f: StartFacts)
    requires RowSound(row) && RecordsFit(row, rs)
    ensures PlansExactly(PlanExecutionStart(row, actor, at, f, rs), row, rs, StartWork(f), actor, at)
  {
    if row.status.Notified? && actor.IdentifiedHuman? && !Blank(f.expectedRun) && RunOf(row) == Some(f.expectedRun) {
      ForbidsExactly(row, rs, f.executionId, f.expectedRun);
      EvidenceExactly(f.evidence, at, 1, Some(f.actualStartAt), None, []);
    } else {
      StartRefused(row, rs, actor, at, f);
    }
  }

  lemma OpenExactly(row: Row, rs: seq<ExecutionRecord>, id: string, corridor: string)
    requires RowSound(row) && RecordsFit(row, rs)
    ensures OpenExecutionRefusal(row, id, OpenRecord(rs), corridor).None? <==>
            && row.status.InProgress? && rs != []
            && ExecutionOf(row) == Some(id)
            && rs[|rs| - 1].digest.Hash? && rs[|rs| - 1].digest.of.corridorId == corridor
  {
    OpenRecordOfJob(row, rs);
  }

  lemma CompleteExactly(row: Row, rs: seq<ExecutionRecord>, actor: Actor, at: int, f: EndFacts)
    requires RowSound(row) && RecordsFit(row, rs)
    ensures PlansExactly(PlanExecutionComplete(row, actor, at, f, OpenRecord(rs)), row, rs, CompleteWork(f), actor, at)
  {
    OpenExactly(row, rs, f.executionId, f.corridor);
    OpenRecordOfJob(row, rs);
    ObservedExactly(f.actualEndAt, f.horizonStart);
    if OpenExecutionRefusal(row, f.executionId, OpenRecord(rs), f.corridor).None? {
      EvidenceExactly(f.evidence, at, 1, None, Some(rs[|rs| - 1].actualStartAt), rs[|rs| - 1].before);
    }
  }

  lemma NotCompletedExactly(row: Row, rs: seq<ExecutionRecord>, actor: Actor, at: int, f: EndFacts, why: string, horizon: int)
    requires RowSound(row) && RecordsFit(row, rs)
    ensures PlansExactly(PlanExecutionNotCompleted(row, actor, at, f, why, horizon, OpenRecord(rs)), row, rs,
                         ReportNotCompleted(f, why, horizon), actor, at)
  {
    OpenExactly(row, rs, f.executionId, f.corridor);
    OpenRecordOfJob(row, rs);
    ObservedExactly(f.actualEndAt, f.horizonStart);
    EvidenceExactly(f.evidence, at, 0, None, None, []);
  }

  // ------------------------------------------------------------------
  // In the store
  // ------------------------------------------------------------------

  /** The attempts a job's history derives to. */
  function AttemptsOf(s: Store, job: JobId): seq<ExecutionRecord> {
    var derived := Derive(job, HistoryOf(s.history, job));
    if derived.Ok? then derived.value else []
  }

  /** The plan does what the decision does exactly when it is allowed; only a window that is none is left to the guard. */
  predicate FollowsPlan(r: Result<Share, LifecycleError>, row: Row, rs: seq<ExecutionRecord>, d: Decision, actor: Actor, at: int) {
    && (Allowed(row, rs, d, actor, at) ==> PlansIt(r, row, d, actor, at) && (d.Assign? ==> d.from < d.to))
    && (!Allowed(row, rs, d, actor, at) && r.Ok? ==> d.Assign? && d.to <= d.from)
  }

  lemma ReviewPlanned(row: Row, h: seq<Event>, rs: seq<ExecutionRecord>, d: Decision, actor: Actor, at: int)
    requires RowSound(row) && (d.Approve? || d.Reject? || d.Postpone? || d.Release? || d.Assign?)
    ensures FollowsPlan(DecisionShare(row, h, d, actor, at), row, rs, d, actor, at)
  {
    match d {
      case Approve(pinned) => ApproveExactly(row, rs, actor, at, pinned);
      case Reject(why, run) => RejectExactly(row, rs, actor, at, why, run);
      case Postpone(why, notBefore, horizon, run) => PostponeExactly(row, rs, actor, at, why, notBefore, horizon, run);
      case Release(why, horizon, run) => ReleaseExactly(row, rs, actor, at, why, horizon, run);
      case Assign(from, to) => AssignExactly(row, rs, actor, at, from, to);
    }
  }

  lemma ExecutionPlanned(row: Row, h: seq<Event>, rs: seq<ExecutionRecord>, d: Decision, actor: Actor, at: int)
    requires RowSound(row) && RecordsFit(row, rs) && RecordsOf(row, h) == Ok(rs)
    requires d.StartWork? || d.CompleteWork? || d.ReportNotCompleted?
    ensures FollowsPlan(DecisionShare(row, h, d, actor, at), row, rs, d, actor, at)
  {
    match d {
      case StartWork(start) => StartExactly(row, rs, actor, at, start);
      case CompleteWork(facts) => CompleteExactly(row, rs, actor, at, facts);
      case ReportNotCompleted(facts, why, horizon) => NotCompletedExactly(row, rs, actor, at, facts, why, horizon);
    }
  }

  lemma SharePlanned(row: Row, h: seq<Event>, rs: seq<ExecutionRecord>, d: Decision, actor: Actor, at: int)
    requires JobSound(row, h) && Derive(row.jobId, h) == Ok(rs)
    ensures FollowsPlan(DecisionShare(row, h, d, actor, at), row, rs, d, actor, at)
  {
    RecordsNeverRefused(row, h);
    if d.StartWork? || d.CompleteWork? || d.ReportNotCompleted? {
      ExecutionPlanned(row, h, rs, d, actor, at);
    } else {
      ReviewPlanned(row, h, rs, d, actor, at);
    }
  }

  /** The decision on a stored job is allowed. */
  predicate DecisionAllowed(s: Store, c: Command)
    requires c.Decide?
  {
    c.job in s.rows && Allowed(s.rows[c.job], AttemptsOf(s, c.job), c.decision, c.actor, c.at)
  }

  /** The row is rewritten as decided and one event is appended that records it. */
  predicate Effected(s: Store, c: Command, after: Store)
    requires c.Decide? && c.job in s.rows
  {
    var row := s.rows[c.job];
    && (row.end.Some? || c.decision.Approve? || c.decision.Reject? || c.decision.Postpone? || c.decision.Assign?)
    && after.rows == s.rows[c.job := Decided(row, c.decision, c.at)]
    && |after.history| == |s.history| + 1 && after.history[..|s.history|] == s.history
    && Records(after.history[|s.history|], row, Decided(row, c.decision, c.at), c.decision, c.actor, c.at)
  }

  /** The share a decision's plan returns, if it returns one. */
  predicate PlansShare(s: Store, c: Command, share: Share)
    requires c.Decide? && c.job in s.rows
  {
    DecisionShare(s.rows[c.job], HistoryOf(s.history, c.job), c.decision, c.actor, c.at) == Ok(share)
  }

  lemma ShareWritten(s: Store, c: Command, share: Share)
    requires StoreSound(s) && c.Decide? && c.job in s.rows && PlansShare(s, c, share) && share.mutation.jobId == c.job
    requires c.decision.Assign? ==> c.decision.from < c.decision.to
    ensures Perform(s, c) == Store(s.rows[c.job := AsJob(share.mutation, s.rows[c.job])], s.history + share.events)
  {
    DecisionAgrees(s, c.job, c.decision, c.actor, c.at, share, true);
    DecisionPerformed(s, c, share);
    AcceptedWritten(s, c.job, share);
  }

  lemma AcceptedWritten(s: Store, job: JobId, share: Share)
    requires job in s.rows && share.mutation.jobId == job
    requires Judge(s.rows, [job], Ok(Batch([share.mutation], share.events)), false).Ok?
    ensures Apply(s, Mutate([job], Batch([share.mutation], share.events), false)) ==
            Store(s.rows[job := AsJob(share.mutation, s.rows[job])], s.history + share.events)
  {
    SingleWritten(s.rows, share.mutation);
  }

  lemma WrittenEffect(s: Store, c: Command, share: Share, after: Store)
    requires c.Decide? && c.job in s.rows && PlansIt(Ok(share), s.rows[c.job], c.decision, c.actor, c.at)
    requires after == Store(s.rows[c.job := AsJob(share.mutation, s.rows[c.job])], s.history + share.events)
    ensures Effected(s, c, after)
  {
  }

  lemma ForbiddenAssignment(s: Store, c: Command, share: Share)
    requires StoreSound(s) && c.Decide? && c.job in s.rows && PlansShare(s, c, share)
    requires c.decision.Assign? && c.decision.to <= c.decision.from
    ensures Perform(s, c) == s
  {
    DecisionAgrees(s, c.job, c.decision, c.actor, c.at, share, false);
    DecisionPerformed(s, c, share);
  }

  lemma Unplanned(s: Store, c: Command)
    requires c.Decide?
    requires c.job in s.rows ==> DecisionShare(s.rows[c.job], HistoryOf(s.history, c.job), c.decision, c.actor, c.at).Err?
    ensures Perform(s, c) == s
  {
  }

  /** What a decision's plan comes to on a stored job. */
  lemma StoredPlan(s: Store, c: Command, r: Result<Share, LifecycleError>)
    requires StoreSound(s) && c.Decide? && c.job in s.rows
    requires r == DecisionShare(s.rows[c.job], HistoryOf(s.history, c.job), c.decision, c.actor, c.at)
    ensures DecisionAllowed(s, c) ==> PlansIt(r, s.rows[c.job], c.decision, c.actor, c.at)
    ensures DecisionAllowed(s, c) && c.decision.Assign? ==> c.decision.from < c.decision.to
    ensures !DecisionAllowed(s, c) && r.Ok? ==> c.decision.Assign? && c.decision.to <= c.decision.from
  {
    JobOf(s, c.job);
    SharePlanned(s.rows[c.job], HistoryOf(s.history, c.job), AttemptsOf(s, c.job), c.decision, c.actor, c.at);
  }

  lemma AllowedEffect(s: Store, c: Command)
    requires StoreSound(s) && c.Decide? && DecisionAllowed(s, c)
    ensures Effected(s, c, Perform(s, c))
  {
    var r := DecisionShare(s.rows[c.job], HistoryOf(s.history, c.job), c.decision, c.actor, c.at);
    StoredPlan(s, c, r);
    JobOf(s, c.job);
    ShareWritten(s, c, r.value);
    WrittenEffect(s, c, r.value, Perform(s, c));
  }

  lemma NotAllowedEffect(s: Store, c: Command)
    requires StoreSound(s) && c.Decide? && !DecisionAllowed(s, c)
    ensures Perform(s, c) == s
  {
    if c.job in s.rows {
      var r := DecisionShare(s.rows[c.job], HistoryOf(s.history, c.job), c.decision, c.actor, c.at);
      StoredPlan(s, c, r);
      if r.Ok? {
        ForbiddenAssignment(s, c, r.value);
      } else {
        Unplanned(s, c);
      }
    }
  }

  /**
   In a sound store, as every run keeps it, a decision has its effect exactly
   when it is allowed, and changes nothing at all otherwise.
   */
  lemma DecisionExactly(s: Store, c: Command)
    requires StoreSound(s) && c.Decide?
    ensures if DecisionAllowed(s, c) then Effected(s, c, Perform(s, c)) else Perform(s, c) == s
  {
    if DecisionAllowed(s, c) { AllowedEffect(s, c); } else { NotAllowedEffect(s, c); }
  }

  /** So in every run each decision either has its whole effect on its job, or none on anything. */
  lemma DecisionsInRuns(cs: seq<Command>, n: nat, before: Store, after: Store)
    requires AllWellFormed(cs) && n < |cs| && cs[n].Decide? && before == Serve(cs[..n]) && after == Serve(cs[..n + 1])
    ensures if DecisionAllowed(before, cs[n]) then Effected(before, cs[n], after) else after == before
  {
    ServeSound(cs[..n]);
    ServeNext(cs, n);
    DecisionExactly(before, cs[n]);
  }
}
