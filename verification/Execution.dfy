/**
 Execution attempts, derived from a job's append-only history. A history that
 is not a coherent sequence of executions is refused, never repaired.
 */
module Execution {
  import opened Wrappers
  import opened JobModel

  predicate IsUpperHex(c: char) { '0' <= c <= '9' || 'A' <= c <= 'F' }

  /** `EXE-` and 32 upper-case hex digits; the pattern's `$` also matches before one final newline. */
  predicate IsExecutionId(s: string) {
    && (|s| == 36 || (|s| == 37 && s[36] == '\n'))
    && s[0] == 'E' && s[1] == 'X' && s[2] == 'E' && s[3] == '-'
    && forall i :: 4 <= i < 36 ==> IsUpperHex(s[i])
  }

  function ProposalId(run: string, job: JobId): string { "PROP-" + run + "-" + job }

  /** The digest of a row's current committed block, defined while it has a window. */
  function CommittedBlockDigest(row: Row, corridor: string, run: string): BlockIdentity
    requires row.start.Some? && row.end.Some?
  {
    BlockIdentity(ProposalId(run, row.jobId), row.jobId, run, corridor, row.trackId, row.block.sectionId,
                  row.start.value, row.end.value, row.end.value - row.start.value, row.workType)
  }

  datatype ExecutionStatus = Open | Done | NotDone

  datatype ExecutionRecord = ExecutionRecord(
    executionId: string,
    jobId: JobId,
    attempt: int,
    runId: string,
    proposalId: string,
    track: Value,
    section: Value,
    plannedStart: int,
    plannedEnd: int,
    digest: Value,
    status: ExecutionStatus,
    startedAt: int,
    actualStartAt: int,
    actualStartMinute: int,
    before: seq<EvidenceEntry>,
    endedAt: Option<int>,
    actualEndAt: Option<int>,
    actualEndMinute: Option<int>,
    after: seq<EvidenceEntry>,
    reason: Option<string>,
    failure: seq<EvidenceEntry>,
    startedEarly: bool,
    endedLate: Option<bool>)

  // ------------------------------------------------------------------
  // Typed access to one event's metadata
  // ------------------------------------------------------------------

  predicate IsText(v: Value) { (v.Text? && v.s != "") || v.Hash? || v.Moment? }

  predicate IsEvidence(v: Value, phase: Phase) {
    v.EvidenceList? && forall i :: 0 <= i < |v.items| ==> v.items[i].Entry? && v.items[i].phase == phase
  }

  /** What every execution event must say about itself: its job, its execution, its run and proposal. */
  predicate HeaderOk(job: JobId, e: Event) {
    && e.jobId == job
    && e.meta.executionId.Text?
    && IsExecutionId(e.meta.executionId.s)
    && e.runId.Some?
    && e.runId.value != ""
    && e.meta.run == Text(e.runId.value)
    && e.meta.proposal == Text(ProposalId(e.runId.value, job))
  }

  predicate StartFactsOk(e: Event) {
    && e.meta.attempt.Num?
    && e.meta.plannedStart.Num?
    && e.meta.plannedEnd.Num?
    && e.meta.plannedStart.n < e.meta.plannedEnd.n
    && IsText(e.meta.digest)
    && e.meta.actualStartAt.Moment?
    && e.meta.actualStartMinute.Num?
    && IsEvidence(e.meta.beforeEvidence, BeforeWork)
    && e.meta.beforeEvidence.items != []
    && IsText(e.meta.track)
    && (e.meta.section.Nil? || IsText(e.meta.section))
    && e.meta.startedEarly.Flag?
  }

  predicate EndFactsOk(e: Event) {
    && IsText(e.meta.digest)
    && e.meta.actualEndAt.Moment?
    && e.meta.actualEndMinute.Num?
    && e.meta.endedLate.Flag?
    && (e.kind.ExecutionCompleted? ==>
          IsEvidence(e.meta.afterEvidence, AfterWork) && e.meta.afterEvidence.items != [])
    && (e.kind.ExecutionNotCompleted? ==>
          && e.reason.Some?
          && !Blank(e.reason.value)
          && IsEvidence(e.meta.failureEvidence, FailureRecord))
  }

  function Begun(job: JobId, e: Event): ExecutionRecord
    requires HeaderOk(job, e) && StartFactsOk(e)
  {
    ExecutionRecord(
      e.meta.executionId.s, job, e.meta.attempt.n, e.runId.value, e.meta.proposal.s, e.meta.track, e.meta.section,
      e.meta.plannedStart.n, e.meta.plannedEnd.n, e.meta.digest, Open, e.at, e.meta.actualStartAt.at,
      e.meta.actualStartMinute.n, e.meta.beforeEvidence.items, None, None, None, [], None, [],
      e.meta.startedEarly.b, None)
  }

  function Ended(r: ExecutionRecord, e: Event): ExecutionRecord
    requires EndFactsOk(e)
  {
    var closed := r.(endedAt := Some(e.at), actualEndAt := Some(e.meta.actualEndAt.at),
                     actualEndMinute := Some(e.meta.actualEndMinute.n), endedLate := Some(e.meta.endedLate.b));
    if e.kind.ExecutionCompleted? then closed.(after := e.meta.afterEvidence.items, status := Done)
    else if e.kind.ExecutionNotCompleted? then
      closed.(reason := e.reason, failure := e.meta.failureEvidence.items, status := NotDone)
    else closed
  }

  // ------------------------------------------------------------------
  // The derivation, event by event
  // ------------------------------------------------------------------

  predicate DistinctIds(rs: seq<ExecutionRecord>) {
    forall i, j :: 0 <= i < j < |rs| ==> rs[i].executionId != rs[j].executionId
  }

  /** The position of the record with this id, or the length when there is none. */
  function Find(rs: seq<ExecutionRecord>, id: string): (k: nat)
    ensures k <= |rs|
    ensures k < |rs| ==> rs[k].executionId == id
    ensures k == |rs| <==> forall i :: 0 <= i < |rs| ==> rs[i].executionId != id
    ensures forall i :: 0 <= i < k ==> rs[i].executionId != id
  {
    if rs == [] then 0 else if rs[0].executionId == id then 0 else 1 + Find(rs[1..], id)
  }

  /** A start is admitted when nothing is open or completed and neither its id nor its run was executed before. */
  predicate StartAdmitted(rs: seq<ExecutionRecord>, e: Event)
    requires e.meta.executionId.Text? && e.runId.Some?
  {
    && Find(rs, e.meta.executionId.s) == |rs|
    && (forall i :: 0 <= i < |rs| ==> rs[i].status.NotDone? && rs[i].runId != e.runId.value)
    && StartFactsOk(e)
    && e.meta.attempt.n == |rs| + 1
  }

  predicate EndAdmitted(r: ExecutionRecord, e: Event) {
    && r.status.Open?
    && e.runId == Some(r.runId)
    && EndFactsOk(e)
    && e.meta.digest == r.digest
    && r.actualStartAt <= e.meta.actualEndAt.at
  }

  function Admit(job: JobId, rs: seq<ExecutionRecord>, e: Event): Result<seq<ExecutionRecord>, LifecycleError> {
    if !IsExecutionEvent(e.kind) then Ok(rs)
    else if !HeaderOk(job, e) then Err(ExecutionIntegrity)
    else if e.kind.ExecutionStarted? then
      if StartAdmitted(rs, e) then Ok(rs + [Begun(job, e)]) else Err(ExecutionIntegrity)
    else
      var k := Find(rs, e.meta.executionId.s);
      if k < |rs| && EndAdmitted(rs[k], e) then Ok(rs[k := Ended(rs[k], e)]) else Err(ExecutionIntegrity)
  }

  function Derive(job: JobId, es: seq<Event>): (r: Result<seq<ExecutionRecord>, LifecycleError>)
    ensures r.Ok? ==> DistinctIds(r.value)
    ensures r.Err? ==> r.error == ExecutionIntegrity
  {
    if es == [] then Ok([])
    else
      var rest := Derive(job, es[..|es| - 1]);
      if rest.Err? then rest else Admit(job, rest.value, es[|es| - 1])
  }

  function OpenRecords(rs: seq<ExecutionRecord>): seq<ExecutionRecord> {
    if rs == [] then []
    else OpenRecords(rs[..|rs| - 1]) + (if rs[|rs| - 1].status.Open? then [rs[|rs| - 1]] else [])
  }

  /** The job row must agree: one open execution, the one it names, exactly while in progress. */
  predicate RowAgrees(row: Row, rs: seq<ExecutionRecord>) {
    var open := OpenRecords(rs);
    if row.status.InProgress? then |open| == 1 && Some(open[0].executionId) == ExecutionOf(row) else open == []
  }

  function RecordsOf(row: Row, es: seq<Event>): Result<seq<ExecutionRecord>, LifecycleError> {
    var derived := Derive(row.jobId, es);
    if derived.Err? then derived
    else if RowAgrees(row, derived.value) then derived
    else Err(ExecutionIntegrity)
  }

  /** Records kept by id and updated in place, with the order of their starts beside them. */
  method BuildExecutionRecords(row: Row, es: seq<Event>) returns (r: Result<seq<ExecutionRecord>, LifecycleError>)
    ensures r == RecordsOf(row, es)
  {
    var byId: map<string, ExecutionRecord> := map[];
    var order: seq<string> := [];
    ghost var records: seq<ExecutionRecord> := [];
    for i := 0 to |es|
      invariant Derive(row.jobId, es[..i]) == Ok(records)
      invariant Indexed(byId, order, records)
    {
      assert es[..i + 1][..i] == es[..i];
      var refused;
      refused, byId, order, records := AdmitInPlace(row.jobId, byId, order, records, es[i]);
      if refused {
        RefusalIsFinal(row.jobId, es, i + 1);
        return Err(ExecutionIntegrity);
      }
    }
    assert es[..|es|] == es;
    var frozen, open := Freeze(byId, order, records);
    if row.status.InProgress? {
      if |open| != 1 || Some(open[0].executionId) != ExecutionOf(row) {
        return Err(ExecutionIntegrity);
      }
    } else if open != [] {
      return Err(ExecutionIntegrity);
    }
    return Ok(frozen);
  }

  method AdmitInPlace(job: JobId, byId: map<string, ExecutionRecord>, order: seq<string>,
                      ghost records: seq<ExecutionRecord>, e: Event)
    returns (refused: bool, byId': map<string, ExecutionRecord>, order': seq<string>, ghost records': seq<ExecutionRecord>)
    requires Indexed(byId, order, records)
    ensures Indexed(byId', order', records')
    ensures Admit(job, records, e) == if refused then Err(ExecutionIntegrity) else Ok(records')
  {
    refused, byId', order', records' := false, byId, order, records;
    if IsExecutionEvent(e.kind) {
      if !HeaderOk(job, e) {
        refused := true;
        return;
      }
      var id := e.meta.executionId.s;
      if e.kind.ExecutionStarted? {
        var mayStart := CanStart(byId, order, records, e);
        if !mayStart {
          refused := true;
          return;
        }
        byId' := byId[id := Begun(job, e)];
        order' := order + [id];
        records' := records + [Begun(job, e)];
      } else {
        ghost var k := Find(records, id);
        assert id in byId <==> k < |records| by {
          if id in byId {
            var i :| 0 <= i < |order| && order[i] == id;
          }
        }
        if id !in byId || !EndAdmitted(byId[id], e) {
          refused := true;
          return;
        }
        byId' := byId[id := Ended(byId[id], e)];
        records' := records[k := Ended(records[k], e)];
      }
    }
  }

  /** The records in start order, and the open ones among them. */
  method Freeze(byId: map<string, ExecutionRecord>, order: seq<string>, ghost records: seq<ExecutionRecord>)
    returns (frozen: seq<ExecutionRecord>, open: seq<ExecutionRecord>)
    requires Indexed(byId, order, records)
    ensures frozen == records && open == OpenRecords(records)
  {
    frozen, open := [], [];
    for i := 0 to |order|
      invariant frozen == records[..i]
      invariant open == OpenRecords(records[..i])
    {
      assert records[..i + 1][..i] == records[..i];
      frozen := frozen + [byId[order[i]]];
      if byId[order[i]].status.Open? {
        open := open + [byId[order[i]]];
      }
    }
    assert records[..|order|] == records;
  }

  /** The map and the order list together hold exactly the records. */
  ghost predicate Indexed(byId: map<string, ExecutionRecord>, order: seq<string>, records: seq<ExecutionRecord>) {
    && |order| == |records|
    && DistinctIds(records)
    && (forall i :: 0 <= i < |records| ==> order[i] == records[i].executionId && order[i] in byId && byId[order[i]] == records[i])
    && (forall id :: id in byId ==> id in order)
  }

  /** The checks of a start, over the map and the order list. */
  method CanStart(byId: map<string, ExecutionRecord>, order: seq<string>, ghost records: seq<ExecutionRecord>, e: Event)
    returns (ok: bool)
    requires Indexed(byId, order, records) && e.meta.executionId.Text? && e.runId.Some?
    ensures ok == StartAdmitted(records, e)
  {
    if e.meta.executionId.s in byId {
      return false;
    }
    for i := 0 to |order|
      invariant forall k :: 0 <= k < i ==> records[k].status.NotDone? && records[k].runId != e.runId.value
    {
      var previous := byId[order[i]];
      if previous.status.Open? || previous.status.Done? || previous.runId == e.runId.value {
        return false;
      }
    }
    return StartFactsOk(e) && e.meta.attempt.n == |order| + 1;
  }

  lemma {:induction false} RefusalIsFinal(job: JobId, es: seq<Event>, n: nat)
    requires n <= |es| && Derive(job, es[..n]).Err?
    ensures Derive(job, es) == Err(ExecutionIntegrity)
    decreases |es| - n
  {
    if n == |es| {
      assert es[..n] == es;
    } else {
      assert es[..n + 1][..n] == es[..n];
      RefusalIsFinal(job, es, n + 1);
    }
  }

  // ------------------------------------------------------------------
  // Which histories are accepted, exactly
  // ------------------------------------------------------------------

  function ExecutionEvents(es: seq<Event>): (x: seq<Event>)
    ensures forall i :: 0 <= i < |x| ==> IsExecutionEvent(x[i].kind) && x[i] in es
  {
    if es == [] then []
    else ExecutionEvents(es[..|es| - 1]) + (if IsExecutionEvent(es[|es| - 1].kind) then [es[|es| - 1]] else [])
  }

  /**
   A coherent history of executions: starts and outcomes strictly alternate,
   each outcome closes the start before it, and only a failure is followed by
   another attempt. Attempt k is events 2k and 2k+1.
   */
  ghost predicate Coherent(job: JobId, x: seq<Event>) {
    && (forall i :: 0 <= i < |x| ==> HeaderOk(job, x[i]))
    && (forall k :: 0 <= 2 * k < |x| ==> CoherentStart(x, k))
    && (forall k :: 0 < 2 * k + 1 < |x| ==> CoherentEnd(x, k))
  }

  predicate CoherentStart(x: seq<Event>, k: nat)
    requires 2 * k < |x|
  {
    && x[2 * k].kind.ExecutionStarted?
    && StartFactsOk(x[2 * k])
    && x[2 * k].meta.attempt.n == k + 1
    && (k > 0 ==> x[2 * k - 1].kind.ExecutionNotCompleted?)
    && forall n :: 0 <= n < k ==> DifferentAttempts(x, n, k)
  }

  predicate DifferentAttempts(x: seq<Event>, n: nat, k: nat)
    requires 2 * n < |x| && 2 * k < |x|
  {
    x[2 * n].meta.executionId != x[2 * k].meta.executionId && x[2 * n].runId != x[2 * k].runId
  }

  predicate CoherentEnd(x: seq<Event>, k: nat)
    requires 2 * k + 1 < |x|
  {
    && (x[2 * k + 1].kind.ExecutionCompleted? || x[2 * k + 1].kind.ExecutionNotCompleted?)
    && EndFactsOk(x[2 * k + 1])
    && Closes(x[2 * k], x[2 * k + 1])
  }

  predicate Closes(start: Event, end: Event) {
    && end.meta.executionId == start.meta.executionId
    && end.runId == start.runId
    && end.meta.digest == start.meta.digest
    && start.meta.actualStartAt.Moment?
    && end.meta.actualEndAt.Moment?
    && start.meta.actualStartAt.at <= end.meta.actualEndAt.at
  }

  /** The record of attempt k in a coherent history: its start, closed by its outcome if there is one. */
  ghost function AttemptRecord(job: JobId, x: seq<Event>, k: nat): ExecutionRecord
    requires Coherent(job, x) && 2 * k < |x|
  {
    assert HeaderOk(job, x[2 * k]) && CoherentStart(x, k);
    var begun := Begun(job, x[2 * k]);
    if 2 * k + 1 < |x| then
      assert CoherentEnd(x, k);
      Ended(begun, x[2 * k + 1])
    else begun
  }

  ghost predicate AttemptsOf(job: JobId, x: seq<Event>, rs: seq<ExecutionRecord>)
    requires Coherent(job, x)
  {
    && (2 * |rs| == |x| || 2 * |rs| == |x| + 1)
    && forall k :: 0 <= k < |rs| ==> rs[k] == AttemptRecord(job, x, k)
  }

  lemma {:induction false} DeriveSkipsOthers(job: JobId, es: seq<Event>)
    ensures Derive(job, es) == Derive(job, ExecutionEvents(es))
  {
    if es != [] {
      var front, last := es[..|es| - 1], es[|es| - 1];
      DeriveSkipsOthers(job, front);
      if IsExecutionEvent(last.kind) {
        assert (ExecutionEvents(front) + [last])[..|ExecutionEvents(front)|] == ExecutionEvents(front);
      } else {
        assert ExecutionEvents(front) + [] == ExecutionEvents(front);
      }
    }
  }

  lemma SameStart(x: seq<Event>, y: seq<Event>, k: nat)
    requires y <= x && 2 * k < |y|
    ensures CoherentStart(x, k) <==> CoherentStart(y, k)
  {
    assert x[2 * k] == y[2 * k];
    if CoherentStart(y, k) {
      forall n | 0 <= n < k ensures DifferentAttempts(x, n, k) {
        assert DifferentAttempts(y, n, k);
      }
    }
    if CoherentStart(x, k) {
      forall n | 0 <= n < k ensures DifferentAttempts(y, n, k) {
        assert DifferentAttempts(x, n, k);
      }
    }
  }

  lemma CoherentPrefix(job: JobId, x: seq<Event>, y: seq<Event>)
    requires Coherent(job, x) && y <= x
    ensures Coherent(job, y)
  {
    forall i | 0 <= i < |y| ensures HeaderOk(job, y[i]) {
      assert y[i] == x[i];
    }
    forall k | 0 <= 2 * k < |y| ensures CoherentStart(y, k) {
      SameStart(x, y, k);
    }
    forall k | 0 < 2 * k + 1 < |y| ensures CoherentEnd(y, k) {
      assert CoherentEnd(x, k);
    }
  }

  /** A start extends a coherent history whose last attempt is closed. */
  lemma StartExtends(job: JobId, y: seq<Event>, e: Event, k: nat)
    requires Coherent(job, y) && |y| == 2 * k
    ensures Coherent(job, y + [e]) <==> HeaderOk(job, e) && CoherentStart(y + [e], k)
  {
    var x := y + [e];
    assert x[2 * k] == e;
    if HeaderOk(job, e) && CoherentStart(x, k) {
      forall n | 0 <= 2 * n < |x| ensures CoherentStart(x, n) {
        if n < k { SameStart(x, y, n); }
      }
      forall n | 0 < 2 * n + 1 < |x| ensures CoherentEnd(x, n) {
        assert CoherentEnd(y, n);
      }
    }
  }

  /** An outcome extends a coherent history whose last attempt is open. */
  lemma EndExtends(job: JobId, y: seq<Event>, e: Event, k: nat)
    requires Coherent(job, y) && |y| == 2 * k + 1
    ensures Coherent(job, y + [e]) <==> HeaderOk(job, e) && CoherentEnd(y + [e], k)
  {
    var x := y + [e];
    assert x[2 * k + 1] == e;
    if HeaderOk(job, e) && CoherentEnd(x, k) {
      forall n | 0 <= 2 * n < |x| ensures CoherentStart(x, n) {
        SameStart(x, y, n);
      }
      forall n | 0 < 2 * n + 1 < |x| ensures CoherentEnd(x, n) {
        if n < k { assert CoherentEnd(y, n); }
      }
    }
  }

  /** The facts of an attempt that later events are judged by, as its own start states them. */
  predicate StartView(start: Event, r: ExecutionRecord) {
    && Text(r.executionId) == start.meta.executionId
    && Some(r.runId) == start.runId
    && r.digest == start.meta.digest
    && start.meta.actualStartAt == Moment(r.actualStartAt)
  }

  lemma BegunView(job: JobId, start: Event, r: ExecutionRecord)
    requires HeaderOk(job, start) && StartFactsOk(start) && start.kind.ExecutionStarted? && r == Begun(job, start)
    ensures StartView(start, r) && r.attempt == start.meta.attempt.n && r.status.Open?
  {
  }

  lemma EndedView(start: Event, r: ExecutionRecord, e: Event, closed: ExecutionRecord)
    requires StartView(start, r) && EndFactsOk(e) && closed == Ended(r, e)
    requires e.kind.ExecutionCompleted? || e.kind.ExecutionNotCompleted?
    ensures StartView(start, closed) && closed.attempt == r.attempt && !closed.status.Open?
    ensures closed.status.NotDone? <==> e.kind.ExecutionNotCompleted?
  {
  }

  lemma RecordView(job: JobId, y: seq<Event>, k: nat)
    requires Coherent(job, y) && 2 * k < |y|
    ensures View(y, AttemptRecord(job, y, k), k)
  {
    assert HeaderOk(job, y[2 * k]) && CoherentStart(y, k);
    BegunView(job, y[2 * k], Begun(job, y[2 * k]));
    if 2 * k + 1 < |y| {
      assert CoherentEnd(y, k);
      EndedView(y[2 * k], Begun(job, y[2 * k]), y[2 * k + 1], AttemptRecord(job, y, k));
    }
    if 2 * k + 2 < |y| {
      assert CoherentStart(y, k + 1);
    }
  }

  predicate View(y: seq<Event>, r: ExecutionRecord, k: nat)
    requires 2 * k < |y|
  {
    && StartView(y[2 * k], r)
    && r.attempt == k + 1
    && (r.status.Open? <==> 2 * k + 1 == |y|)
    && (2 * k + 1 < |y| ==> (r.status.NotDone? <==> y[2 * k + 1].kind.ExecutionNotCompleted?))
    && (2 * k + 2 < |y| ==> r.status.NotDone?)
  }

  predicate Views(y: seq<Event>, rs: seq<ExecutionRecord>) {
    && (2 * |rs| == |y| || 2 * |rs| == |y| + 1)
    && forall k :: 0 <= k < |rs| ==> View(y, rs[k], k)
  }

  lemma RecordViews(job: JobId, y: seq<Event>, rs: seq<ExecutionRecord>)
    requires Coherent(job, y) && AttemptsOf(job, y, rs)
    ensures Views(y, rs)
  {
    forall k | 0 <= k < |rs| ensures View(y, rs[k], k) {
      RecordView(job, y, k);
      assert rs[k] == AttemptRecord(job, y, k);
    }
  }

  lemma StartIffCoherent(y: seq<Event>, e: Event, rs: seq<ExecutionRecord>)
    requires Views(y, rs) && |y| == 2 * |rs|
    requires e.meta.executionId.Text? && e.runId.Some? && e.kind.ExecutionStarted?
    ensures StartAdmitted(rs, e) <==> CoherentStart(y + [e], |rs|)
  {
    var x, k := y + [e], |rs|;
    assert x[2 * k] == e;
    if CoherentStart(x, k) {
      forall n | 0 <= n < k
        ensures rs[n].executionId != e.meta.executionId.s && rs[n].runId != e.runId.value && rs[n].status.NotDone?
      {
        assert View(y, rs[n], n) && DifferentAttempts(x, n, k) && x[2 * n] == y[2 * n];
        assert 2 * n + 2 == |y| ==> x[2 * n + 1] == y[2 * n + 1];
      }
    }
    if StartAdmitted(rs, e) {
      forall n | 0 <= n < k ensures DifferentAttempts(x, n, k) {
        assert View(y, rs[n], n) && rs[n].runId != e.runId.value && x[2 * n] == y[2 * n];
      }
      if k > 0 {
        assert View(y, rs[k - 1], k - 1) && x[2 * k - 1] == y[2 * k - 1] && rs[k - 1].status.NotDone?;
      }
    }
  }

  lemma EndIffCoherent(y: seq<Event>, e: Event, rs: seq<ExecutionRecord>)
    requires Views(y, rs) && DistinctIds(rs) && |y| == 2 * |rs| - 1
    requires e.meta.executionId.Text? && (e.kind.ExecutionCompleted? || e.kind.ExecutionNotCompleted?)
    ensures var k := Find(rs, e.meta.executionId.s);
            (k < |rs| && EndAdmitted(rs[k], e)) <==> CoherentEnd(y + [e], |rs| - 1)
    ensures CoherentEnd(y + [e], |rs| - 1) ==> Find(rs, e.meta.executionId.s) == |rs| - 1
  {
    var x, last, k := y + [e], |rs| - 1, Find(rs, e.meta.executionId.s);
    assert x[2 * last] == y[2 * last] && x[2 * last + 1] == e && View(y, rs[last], last);
    if k < last {
      assert View(y, rs[k], k) && rs[k].executionId != rs[last].executionId;
    }
  }

  lemma SameAttempts(job: JobId, y: seq<Event>, e: Event, k: nat)
    requires Coherent(job, y) && Coherent(job, y + [e]) && 2 * k < |y| && 2 * k + 1 != |y|
    ensures AttemptRecord(job, y + [e], k) == AttemptRecord(job, y, k)
  {
    assert (y + [e])[2 * k] == y[2 * k] && (y + [e])[2 * k + 1] == y[2 * k + 1];
  }

  lemma StartExtendsAttempts(job: JobId, y: seq<Event>, e: Event, rs: seq<ExecutionRecord>)
    requires Coherent(job, y) && AttemptsOf(job, y, rs) && |y| == 2 * |rs| && Coherent(job, y + [e])
    ensures HeaderOk(job, e) && StartFactsOk(e) && AttemptsOf(job, y + [e], rs + [Begun(job, e)])
  {
    var x := y + [e];
    assert x[|y|] == e && HeaderOk(job, x[|y|]) && CoherentStart(x, |rs|);
    var out := rs + [Begun(job, e)];
    forall k | 0 <= k < |out| ensures out[k] == AttemptRecord(job, x, k) {
      if k < |rs| {
        SameAttempts(job, y, e, k);
      }
    }
  }

  lemma EndExtendsAttempts(job: JobId, y: seq<Event>, e: Event, rs: seq<ExecutionRecord>)
    requires Coherent(job, y) && AttemptsOf(job, y, rs) && |y| == 2 * |rs| - 1 && Coherent(job, y + [e])
    ensures EndFactsOk(e) && AttemptsOf(job, y + [e], rs[|rs| - 1 := Ended(rs[|rs| - 1], e)])
  {
    var x, last := y + [e], |rs| - 1;
    assert x[|y|] == e && CoherentEnd(x, last);
    var out := rs[last := Ended(rs[last], e)];
    assert x[2 * last] == y[2 * last] && rs[last] == AttemptRecord(job, y, last);
    forall k | 0 <= k < |out| ensures out[k] == AttemptRecord(job, x, k) {
      if k < last {
        SameAttempts(job, y, e, k);
      }
    }
  }

  lemma AdmitExtendsStart(job: JobId, y: seq<Event>, e: Event, rs: seq<ExecutionRecord>)
    requires Coherent(job, y) && AttemptsOf(job, y, rs) && IsExecutionEvent(e.kind) && Views(y, rs) && |y| == 2 * |rs|
    ensures Admit(job, rs, e).Ok? <==> Coherent(job, y + [e])
    ensures Admit(job, rs, e).Ok? ==> AttemptsOf(job, y + [e], Admit(job, rs, e).value)
  {
    StartExtends(job, y, e, |rs|);
    AdmitsAfterOutcome(job, y, e, rs);
    if Coherent(job, y + [e]) {
      StartExtendsAttempts(job, y, e, rs);
    }
  }

  lemma AdmitExtendsEnd(job: JobId, y: seq<Event>, e: Event, rs: seq<ExecutionRecord>)
    requires Coherent(job, y) && AttemptsOf(job, y, rs) && DistinctIds(rs) && IsExecutionEvent(e.kind) && Views(y, rs)
    requires |y| == 2 * |rs| - 1
    ensures Admit(job, rs, e).Ok? <==> Coherent(job, y + [e])
    ensures Admit(job, rs, e).Ok? ==> AttemptsOf(job, y + [e], Admit(job, rs, e).value)
  {
    AdmitEndIffCoherent(job, y, e, rs);
    if Coherent(job, y + [e]) {
      EndExtendsAttempts(job, y, e, rs);
    }
  }

  lemma AdmitEndIffCoherent(job: JobId, y: seq<Event>, e: Event, rs: seq<ExecutionRecord>)
    requires Coherent(job, y) && DistinctIds(rs) && IsExecutionEvent(e.kind) && Views(y, rs) && |y| == 2 * |rs| - 1
    ensures Admit(job, rs, e).Ok? <==> Coherent(job, y + [e])
    ensures Admit(job, rs, e).Ok? ==> EndFactsOk(e) && Admit(job, rs, e).value == rs[|rs| - 1 := Ended(rs[|rs| - 1], e)]
  {
    EndExtends(job, y, e, |rs| - 1);
    AdmitsAfterStart(job, y, e, rs);
  }

  /** The acceptor admits the last event exactly when it extends the coherent history. */
  lemma AdmitExtends(job: JobId, y: seq<Event>, e: Event, rs: seq<ExecutionRecord>)
    requires Coherent(job, y) && AttemptsOf(job, y, rs) && DistinctIds(rs) && IsExecutionEvent(e.kind)
    ensures Admit(job, rs, e).Ok? <==> Coherent(job, y + [e])
    ensures Admit(job, rs, e).Ok? ==> AttemptsOf(job, y + [e], Admit(job, rs, e).value)
  {
    RecordViews(job, y, rs);
    if |y| == 2 * |rs| {
      AdmitExtendsStart(job, y, e, rs);
    } else {
      AdmitExtendsEnd(job, y, e, rs);
    }
  }

  lemma AdmitsAfterOutcome(job: JobId, y: seq<Event>, e: Event, rs: seq<ExecutionRecord>)
    requires Views(y, rs) && |y| == 2 * |rs| && IsExecutionEvent(e.kind)
    ensures Admit(job, rs, e).Ok? <==> HeaderOk(job, e) && CoherentStart(y + [e], |rs|)
    ensures Admit(job, rs, e).Ok? ==> HeaderOk(job, e) && StartFactsOk(e) && Admit(job, rs, e).value == rs + [Begun(job, e)]
  {
    assert (y + [e])[2 * |rs|] == e;
    if HeaderOk(job, e) {
      if e.kind.ExecutionStarted? {
        StartIffCoherent(y, e, rs);
      } else {
        var k := Find(rs, e.meta.executionId.s);
        assert k < |rs| ==> View(y, rs[k], k);
      }
    }
  }

  lemma AdmitEnd(job: JobId, rs: seq<ExecutionRecord>, e: Event, last: nat)
    requires IsExecutionEvent(e.kind) && HeaderOk(job, e) && !e.kind.ExecutionStarted? && last < |rs|
    requires Find(rs, e.meta.executionId.s) == last
    ensures Admit(job, rs, e).Ok? <==> EndAdmitted(rs[last], e)
    ensures Admit(job, rs, e).Ok? ==> EndFactsOk(e) && Admit(job, rs, e).value == rs[last := Ended(rs[last], e)]
  {
  }

  lemma NoStartWhileOpen(job: JobId, rs: seq<ExecutionRecord>, e: Event, last: nat)
    requires e.kind.ExecutionStarted? && last < |rs| && rs[last].status.Open?
    ensures Admit(job, rs, e).Err?
  {
  }

  lemma EndAdmitsExactly(job: JobId, y: seq<Event>, e: Event, rs: seq<ExecutionRecord>, last: nat)
    requires Views(y, rs) && DistinctIds(rs) && |y| == 2 * |rs| - 1 && last == |rs| - 1
    requires IsExecutionEvent(e.kind) && HeaderOk(job, e) && !e.kind.ExecutionStarted?
    ensures Admit(job, rs, e).Ok? <==> CoherentEnd(y + [e], last)
    ensures Admit(job, rs, e).Ok? ==> EndFactsOk(e) && Admit(job, rs, e).value == rs[last := Ended(rs[last], e)]
  {
    EndIffCoherent(y, e, rs);
    if Find(rs, e.meta.executionId.s) == last {
      AdmitEnd(job, rs, e, last);
    }
  }

  lemma AdmitsAfterStart(job: JobId, y: seq<Event>, e: Event, rs: seq<ExecutionRecord>)
    requires Views(y, rs) && DistinctIds(rs) && |y| == 2 * |rs| - 1 && IsExecutionEvent(e.kind)
    ensures Admit(job, rs, e).Ok? <==> HeaderOk(job, e) && CoherentEnd(y + [e], |rs| - 1)
    ensures Admit(job, rs, e).Ok? ==> EndFactsOk(e) && Admit(job, rs, e).value == rs[|rs| - 1 := Ended(rs[|rs| - 1], e)]
  {
    var last := |rs| - 1;
    assert (y + [e])[2 * last + 1] == e;
    assert View(y, rs[last], last);
    if e.kind.ExecutionStarted? {
      NoStartWhileOpen(job, rs, e, last);
    } else if HeaderOk(job, e) {
      EndAdmitsExactly(job, y, e, rs, last);
    }
  }

  lemma {:induction false} DeriveCoherent(job: JobId, x: seq<Event>)
    requires forall i :: 0 <= i < |x| ==> IsExecutionEvent(x[i].kind)
    ensures Derive(job, x).Ok? <==> Coherent(job, x)
    ensures Derive(job, x).Ok? ==> AttemptsOf(job, x, Derive(job, x).value)
  {
    if x != [] {
      var y, e := x[..|x| - 1], x[|x| - 1];
      assert x == y + [e];
      DeriveCoherent(job, y);
      if Coherent(job, y) {
        AdmitExtends(job, y, e, Derive(job, y).value);
      } else if Coherent(job, x) {
        CoherentPrefix(job, x, y);
      }
    }
  }

  /**
   The derivation succeeds on a history exactly when its execution events are
   a coherent sequence of attempts, and then returns one record per attempt.
   */
  lemma AcceptsExactlyCoherentHistories(job: JobId, es: seq<Event>)
    ensures Derive(job, es).Ok? <==> Coherent(job, ExecutionEvents(es))
    ensures Derive(job, es).Ok? ==> AttemptsOf(job, ExecutionEvents(es), Derive(job, es).value)
  {
    DeriveSkipsOthers(job, es);
    DeriveCoherent(job, ExecutionEvents(es));
  }

  /** Attempts of an accepted history are numbered 1..n, have distinct ids and runs, and all but the last failed. */
  lemma AcceptedAttempts(row: Row, es: seq<Event>)
    requires RecordsOf(row, es).Ok?
    ensures var rs := RecordsOf(row, es).value;
            && (forall k :: 0 <= k < |rs| ==> rs[k].attempt == k + 1)
            && NoAttemptTwice(rs)
            && (forall k :: 0 <= k < |rs| - 1 ==> rs[k].status.NotDone?)
            && (forall k :: 0 <= k < |rs| ==> (rs[k].status.Open? <==> k == |rs| - 1 && row.status.InProgress?))
            && (row.status.InProgress? ==> rs != [] && ExecutionOf(row) == Some(rs[|rs| - 1].executionId))
  {
    var x, rs := ExecutionEvents(es), RecordsOf(row, es).value;
    AcceptsExactlyCoherentHistories(row.jobId, es);
    RecordViews(row.jobId, x, rs);
    ViewedAttempts(x, rs);
    DistinctAttempts(row.jobId, x, rs);
    OpenAgrees(row, rs);
  }

  /** Evidence of one phase, every item of it well formed. */
  predicate OfPhase(items: seq<EvidenceEntry>, phase: Phase) {
    forall i :: 0 <= i < |items| ==> items[i].Entry? && items[i].phase == phase
  }

  /** What holds of every record, whatever its status: whose it is, its proposal, its window and its evidence. */
  predicate RecordBegun(job: JobId, r: ExecutionRecord) {
    && r.jobId == job && r.runId != "" && r.proposalId == "PROP-" + r.runId + "-" + job
    && IsExecutionId(r.executionId)
    && r.plannedStart < r.plannedEnd
    && r.before != [] && OfPhase(r.before, BeforeWork)
  }

  /** Only an ended record has an end, not before its start; only a completed one has evidence of it; only a failed one a reason. */
  predicate RecordEnded(r: ExecutionRecord) {
    match r.status
    case Open =>
      r.endedAt.None? && r.actualEndAt.None? && r.actualEndMinute.None? && r.endedLate.None?
      && r.after == [] && r.failure == [] && r.reason.None?
    case Done =>
      r.endedAt.Some? && r.actualEndAt.Some? && r.actualStartAt <= r.actualEndAt.value && r.actualEndMinute.Some? && r.endedLate.Some?
      && r.after != [] && OfPhase(r.after, AfterWork) && r.failure == [] && r.reason.None?
    case NotDone =>
      r.endedAt.Some? && r.actualEndAt.Some? && r.actualStartAt <= r.actualEndAt.value && r.actualEndMinute.Some? && r.endedLate.Some?
      && r.after == [] && OfPhase(r.failure, FailureRecord) && r.reason.Some? && !Blank(r.reason.value)
  }

  lemma BegunWellFormed(job: JobId, e: Event)
    requires HeaderOk(job, e) && StartFactsOk(e)
    ensures RecordBegun(job, Begun(job, e)) && RecordEnded(Begun(job, e))
  {
  }

  lemma EndedWellFormed(job: JobId, r: ExecutionRecord, e: Event)
    requires RecordBegun(job, r) && RecordEnded(r) && EndAdmitted(r, e) && (e.kind.ExecutionCompleted? || e.kind.ExecutionNotCompleted?)
    ensures RecordBegun(job, Ended(r, e)) && RecordEnded(Ended(r, e))
  {
  }

  lemma AdmittedWellFormed(job: JobId, rs: seq<ExecutionRecord>, e: Event)
    requires Admit(job, rs, e).Ok? && forall k :: 0 <= k < |rs| ==> RecordBegun(job, rs[k]) && RecordEnded(rs[k])
    ensures forall k :: 0 <= k < |Admit(job, rs, e).value| ==>
              RecordBegun(job, Admit(job, rs, e).value[k]) && RecordEnded(Admit(job, rs, e).value[k])
  {
    if IsExecutionEvent(e.kind) {
      if e.kind.ExecutionStarted? {
        BegunWellFormed(job, e);
      } else {
        EndedWellFormed(job, rs[Find(rs, e.meta.executionId.s)], e);
      }
    }
  }

  /** Every record derived from an accepted history is well formed. */
  lemma {:induction false} AcceptedRecordsAreWellFormed(job: JobId, es: seq<Event>)
    requires Derive(job, es).Ok?
    ensures forall k :: 0 <= k < |Derive(job, es).value| ==>
              RecordBegun(job, Derive(job, es).value[k]) && RecordEnded(Derive(job, es).value[k])
  {
    if es != [] {
      AcceptedRecordsAreWellFormed(job, es[..|es| - 1]);
      AdmittedWellFormed(job, Derive(job, es[..|es| - 1]).value, es[|es| - 1]);
    }
  }

  predicate IsHexDigit(c: char) { c in "0123456789ABCDEF" }

  predicate AllHex(hex: string) { |hex| == 32 && forall i :: 0 <= i < 32 ==> IsHexDigit(hex[i]) }

  predicate SpellsId(s: string, hex: string) { AllHex(hex) && (s == "EXE-" + hex || s == "EXE-" + hex + "\n") }

  lemma IdParts(s: string, hex: string, tail: string)
    requires |s| >= 36 && s[0] == 'E' && s[1] == 'X' && s[2] == 'E' && s[3] == '-' && hex == s[4..36] && tail == s[36..]
    ensures s == "EXE-" + hex + tail
  {
    assert s[..4] == "EXE-";
  }

  lemma IdSpells(s: string, hex: string)
    requires IsExecutionId(s) && hex == s[4..36]
    ensures SpellsId(s, hex)
  {
    HexDigits();
    IdParts(s, hex, s[36..]);
    forall i | 0 <= i < 32 ensures IsHexDigit(hex[i]) { assert hex[i] == s[i + 4]; }
    assert s[36..] == if |s| == 36 then "" else "\n";
  }

  lemma SpelledIsId(s: string, hex: string)
    requires SpellsId(s, hex)
    ensures IsExecutionId(s)
  {
    HexDigits();
    forall i | 4 <= i < 36 ensures IsUpperHex(s[i]) { assert s[i] == hex[i - 4]; }
  }

  /** An execution id is a prefix and 32 hex digits, with or without a final newline. */
  lemma ExecutionIdsExactly(s: string)
    ensures IsExecutionId(s) <==> exists hex: string :: SpellsId(s, hex)
  {
    if IsExecutionId(s) { IdSpells(s, s[4..36]); }
    if hex: string :| SpellsId(s, hex) { SpelledIsId(s, hex); }
  }

  lemma HexDigits()
    ensures forall c :: IsHexDigit(c) <==> IsUpperHex(c)
  {
    var digits := "0123456789ABCDEF";
    forall c ensures IsHexDigit(c) <==> IsUpperHex(c) {
      if '0' <= c <= '9' { assert digits[c as int - '0' as int] == c; }
      if 'A' <= c <= 'F' { assert digits[c as int - 'A' as int + 10] == c; }
    }
  }

  predicate NoAttemptTwice(rs: seq<ExecutionRecord>) {
    forall i, j :: 0 <= i < j < |rs| ==> rs[i].executionId != rs[j].executionId && rs[i].runId != rs[j].runId
  }

  lemma DistinctAttempts(job: JobId, x: seq<Event>, rs: seq<ExecutionRecord>)
    requires Coherent(job, x) && Views(x, rs)
    ensures NoAttemptTwice(rs)
  {
    forall i, j | 0 <= i < j < |rs|
      ensures rs[i].executionId != rs[j].executionId && rs[i].runId != rs[j].runId
    {
      assert CoherentStart(x, j) && DifferentAttempts(x, i, j);
      assert View(x, rs[i], i) && View(x, rs[j], j);
    }
  }

  lemma OpenAgrees(row: Row, rs: seq<ExecutionRecord>)
    requires RowAgrees(row, rs) && forall k :: 0 <= k < |rs| - 1 ==> rs[k].status.NotDone?
    ensures forall k :: 0 <= k < |rs| ==> (rs[k].status.Open? <==> k == |rs| - 1 && row.status.InProgress?)
    ensures row.status.InProgress? ==> rs != [] && ExecutionOf(row) == Some(rs[|rs| - 1].executionId)
  {
    OpenIsLast(rs);
  }

  lemma ViewedAttempts(x: seq<Event>, rs: seq<ExecutionRecord>)
    requires Views(x, rs)
    ensures forall k :: 0 <= k < |rs| ==> rs[k].attempt == k + 1
    ensures forall k :: 0 <= k < |rs| - 1 ==> rs[k].status.NotDone?
  {
    forall k | 0 <= k < |rs|
      ensures rs[k].attempt == k + 1 && (k < |rs| - 1 ==> rs[k].status.NotDone?)
    {
      assert View(x, rs[k], k);
    }
  }

  lemma {:induction false} OpenIsLast(rs: seq<ExecutionRecord>)
    requires forall k :: 0 <= k < |rs| - 1 ==> !rs[k].status.Open?
    ensures OpenRecords(rs) == if rs != [] && rs[|rs| - 1].status.Open? then [rs[|rs| - 1]] else []
  {
    if rs != [] {
      var front := rs[..|rs| - 1];
      assert forall k :: 0 <= k < |front| ==> !front[k].status.Open?;
      OpenIsLast(front);
    }
  }
}
