/**
 Lifting a per-job invariant to the store: what one job's share, and a batch
 of shares of different jobs, do to every job of the store. The invariant and
 the guard's permission are parameters here.
 */
module StoreInvariant {
  import opened Wrappers
  import opened JobModel
  import opened Guard
  import opened EventBacking
  import opened Planners
  import opened JobInvariant
  import opened GuardedWrites

  /** An invariant of a row and its own history. */
  type Keeps = (Row, seq<Event>) -> bool

  /** A permission for a mutation of a row. */
  type Permits = (Row, Mutation) -> bool

  predicate Holds(s: Store, p: Keeps) {
    && (forall job :: job in s.rows ==> s.rows[job].jobId == job && p(s.rows[job], HistoryOf(s.history, job)))
    && (forall i :: 0 <= i < |s.history| ==> s.history[i].jobId in s.rows)
  }

  /** Replacing one job's row and appending its own events concerns that job alone. */
  lemma OneJobChanged(s: Store, p: Keeps, job: JobId, row: Row, es: seq<Event>)
    requires Holds(s, p) && row.jobId == job && p(row, HistoryOf(s.history, job) + es)
    requires forall i :: 0 <= i < |es| ==> es[i].jobId == job
    ensures Holds(Store(s.rows[job := row], s.history + es), p)
  {
    var t := Store(s.rows[job := row], s.history + es);
    forall k | k in t.rows ensures t.rows[k].jobId == k && p(t.rows[k], HistoryOf(t.history, k)) {
      HistoryConcat(s.history, es, k);
      if k == job {
        HistoryOfOwn(es, job);
      } else {
        HistoryOfOthers(es, k);
        assert HistoryOf(s.history, k) + [] == HistoryOf(s.history, k);
      }
    }
  }

  predicate DistinctJobIds(ids: seq<JobId>) { forall i, j :: 0 <= i < j < |ids| ==> ids[i] != ids[j] }

  /** A share without tokens or gated events that is permitted and keeps its own job's invariant. */
  predicate KeptQuietly(p: Keeps, q: Permits, row: Row, h: seq<Event>, share: Share) {
    && OwnEvents(row, share)
    && NoTokens(share.mutation)
    && (forall i :: 0 <= i < |share.events| ==> Ungated(share.events[i].kind))
    && q(row, share.mutation)
    && p(AsJob(share.mutation, row), h + share.events)
  }

  predicate QuietMutation(s: Store, q: Permits, jobIds: seq<JobId>, m: Mutation) {
    m.jobId in jobIds && m.jobId in s.rows && NoTokens(m) && q(s.rows[m.jobId], m)
  }

  predicate QuietEvent(s: Store, jobIds: seq<JobId>, e: Event) {
    Ungated(e.kind) && e.jobId in jobIds && e.jobId in s.rows
  }

  predicate JobAfter(s: Store, p: Keeps, b: Batch, job: JobId)
    requires job in s.rows
  {
    && Written(s.rows, b.mutations)[job].jobId == job
    && p(Written(s.rows, b.mutations)[job], HistoryOf(s.history, job) + HistoryOf(b.events, job))
  }

  /** A batch without tokens that touches only the listed jobs and keeps every job's invariant. */
  predicate QuietBatch(s: Store, p: Keeps, q: Permits, jobIds: seq<JobId>, b: Batch) {
    && (forall i :: 0 <= i < |b.mutations| ==> QuietMutation(s, q, jobIds, b.mutations[i]))
    && (forall i :: 0 <= i < |b.events| ==> QuietEvent(s, jobIds, b.events[i]))
    && (forall job :: job in s.rows && job !in jobIds ==> Written(s.rows, b.mutations)[job] == s.rows[job])
    && (forall job :: job in s.rows ==> JobAfter(s, p, b, job))
  }

  lemma QuietEmpty(s: Store, p: Keeps, q: Permits, jobIds: seq<JobId>)
    requires Holds(s, p)
    ensures QuietBatch(s, p, q, jobIds, Batch([], []))
  {
    forall job | job in s.rows ensures JobAfter(s, p, Batch([], []), job) {
      assert HistoryOf(s.history, job) + [] == HistoryOf(s.history, job);
    }
  }

  lemma QuietGrows(s: Store, p: Keeps, q: Permits, jobIds: seq<JobId>, job: JobId, b: Batch)
    requires QuietBatch(s, p, q, jobIds, b)
    ensures QuietBatch(s, p, q, jobIds + [job], b)
  {
    forall i | 0 <= i < |b.mutations| ensures QuietMutation(s, q, jobIds + [job], b.mutations[i]) {
      assert QuietMutation(s, q, jobIds, b.mutations[i]);
    }
    forall i | 0 <= i < |b.events| ensures QuietEvent(s, jobIds + [job], b.events[i]) {
      assert QuietEvent(s, jobIds, b.events[i]);
    }
  }

  lemma JobAfterAdding(s: Store, p: Keeps, q: Permits, jobIds: seq<JobId>, job: JobId, b: Batch, share: Share, k: JobId)
    requires Holds(s, p) && QuietBatch(s, p, q, jobIds, b) && job in s.rows && job !in jobIds && k in s.rows
    requires KeptQuietly(p, q, s.rows[job], HistoryOf(s.history, job), share)
    ensures JobAfter(s, p, Batch(b.mutations + [share.mutation], b.events + share.events), k)
  {
    var out := Batch(b.mutations + [share.mutation], b.events + share.events);
    assert out.mutations[..|out.mutations| - 1] == b.mutations;
    assert Written(s.rows, out.mutations) == Written(s.rows, b.mutations)[job := AsJob(share.mutation, s.rows[job])];
    HistoryConcat(b.events, share.events, k);
    if k == job {
      HistoryOfOwn(share.events, job);
      forall i | 0 <= i < |b.events| ensures b.events[i].jobId != job {
        assert QuietEvent(s, jobIds, b.events[i]);
      }
      HistoryOfOthers(b.events, job);
      assert [] + share.events == share.events;
    } else {
      HistoryOfOthers(share.events, k);
      assert HistoryOf(b.events, k) + [] == HistoryOf(b.events, k);
      assert JobAfter(s, p, b, k);
    }
  }

  lemma QuietOneMoreMutation(s: Store, q: Permits, ids: seq<JobId>, ms: seq<Mutation>, m: Mutation)
    requires forall i :: 0 <= i < |ms| ==> QuietMutation(s, q, ids, ms[i])
    requires QuietMutation(s, q, ids, m)
    ensures forall i :: 0 <= i < |ms + [m]| ==> QuietMutation(s, q, ids, (ms + [m])[i])
  {
  }

  lemma QuietMoreEvents(s: Store, ids: seq<JobId>, es: seq<Event>, more: seq<Event>)
    requires forall i :: 0 <= i < |es| ==> QuietEvent(s, ids, es[i])
    requires forall i :: 0 <= i < |more| ==> QuietEvent(s, ids, more[i])
    ensures forall i :: 0 <= i < |es + more| ==> QuietEvent(s, ids, (es + more)[i])
  {
  }

  /** Adding one more job's share to a batch over other jobs. */
  lemma QuietAdds(s: Store, p: Keeps, q: Permits, jobIds: seq<JobId>, job: JobId, b: Batch, share: Share)
    requires Holds(s, p) && QuietBatch(s, p, q, jobIds, b) && job in s.rows && job !in jobIds
    requires KeptQuietly(p, q, s.rows[job], HistoryOf(s.history, job), share)
    ensures QuietBatch(s, p, q, jobIds + [job], Batch(b.mutations + [share.mutation], b.events + share.events))
  {
    var out := Batch(b.mutations + [share.mutation], b.events + share.events);
    var ids := jobIds + [job];
    QuietGrows(s, p, q, jobIds, job, b);
    assert ids[|jobIds|] == job;
    QuietOneMoreMutation(s, q, ids, b.mutations, share.mutation);
    QuietMoreEvents(s, ids, b.events, share.events);
    assert out.mutations[..|out.mutations| - 1] == b.mutations;
    forall k | k in s.rows ensures JobAfter(s, p, out, k) {
      JobAfterAdding(s, p, q, jobIds, job, b, share, k);
    }
  }

  /** What the plan makes of one job keeps that job's invariant. */
  predicate PlanKeeps(s: Store, p: Keeps, q: Permits, plan: Planner, job: JobId) {
    job in s.rows && plan(s.rows[job]).Ok? && plan(s.rows[job]).value.Some? ==>
      KeptQuietly(p, q, s.rows[job], HistoryOf(s.history, job), plan(s.rows[job]).value.value)
  }

  lemma {:induction false} SharesQuiet(s: Store, p: Keeps, q: Permits, jobIds: seq<JobId>, plan: Planner)
    requires Holds(s, p) && DistinctJobIds(jobIds) && Shares(s.rows, jobIds, plan).Ok?
    requires forall i :: 0 <= i < |jobIds| ==> PlanKeeps(s, p, q, plan, jobIds[i])
    ensures QuietBatch(s, p, q, jobIds, Shares(s.rows, jobIds, plan).value)
  {
    if jobIds == [] {
      QuietEmpty(s, p, q, jobIds);
    } else {
      var front, job := jobIds[..|jobIds| - 1], jobIds[|jobIds| - 1];
      assert front + [job] == jobIds && PlanKeeps(s, p, q, plan, jobIds[|jobIds| - 1]);
      assert forall i :: 0 <= i < |front| ==> front[i] == jobIds[i] && PlanKeeps(s, p, q, plan, jobIds[i]);
      SharesQuiet(s, p, q, front, plan);
      var b := Shares(s.rows, front, plan).value;
      if plan(s.rows[job]).value.None? {
        QuietGrows(s, p, q, front, job, b);
      } else {
        QuietAdds(s, p, q, front, job, b, plan(s.rows[job]).value.value);
      }
    }
  }

  lemma QuietWritten(s: Store, p: Keeps, q: Permits, jobIds: seq<JobId>, b: Batch)
    requires Holds(s, p) && QuietBatch(s, p, q, jobIds, b)
    ensures Holds(Store(Written(s.rows, b.mutations), s.history + b.events), p)
  {
    var t := Store(Written(s.rows, b.mutations), s.history + b.events);
    forall k | k in t.rows ensures t.rows[k].jobId == k && p(t.rows[k], HistoryOf(t.history, k)) {
      HistoryConcat(s.history, b.events, k);
      assert JobAfter(s, p, b, k);
    }
    forall i | 0 <= i < |t.history| ensures t.history[i].jobId in t.rows {
      if i >= |s.history| {
        assert QuietEvent(s, jobIds, b.events[i - |s.history|]);
      }
    }
  }

  /** A plan that returns a share for every job yields exactly those mutations, in order. */
  lemma {:induction false} SharesMutations(rows: map<JobId, Row>, jobIds: seq<JobId>, plan: Planner)
    requires Shares(rows, jobIds, plan).Ok?
    requires forall job :: job in rows && plan(rows[job]).Ok? ==> plan(rows[job]).value.Some?
    ensures |Shares(rows, jobIds, plan).value.mutations| == |jobIds|
    ensures forall i :: 0 <= i < |jobIds| ==>
              && jobIds[i] in rows
              && plan(rows[jobIds[i]]).Ok?
              && Shares(rows, jobIds, plan).value.mutations[i] == plan(rows[jobIds[i]]).value.value.mutation
  {
    if jobIds != [] {
      var front := jobIds[..|jobIds| - 1];
      SharesMutations(rows, front, plan);
      assert forall i :: 0 <= i < |front| ==> front[i] == jobIds[i];
    }
  }

  lemma {:induction false} SharesKnown(rows: map<JobId, Row>, jobIds: seq<JobId>, plan: Planner)
    requires Shares(rows, jobIds, plan).Ok?
    ensures forall i :: 0 <= i < |jobIds| ==> jobIds[i] in rows
  {
    if jobIds != [] {
      SharesKnown(rows, jobIds[..|jobIds| - 1], plan);
      assert forall i :: 0 <= i < |jobIds| - 1 ==> jobIds[..|jobIds| - 1][i] == jobIds[i];
    }
  }

  // ------------------------------------------------------------------
  // Acceptance by the guard
  // ------------------------------------------------------------------

  lemma {:induction false} AllPermitted(read: map<JobId, Row>, ms: seq<Mutation>)
    requires forall i :: 0 <= i < |ms| ==> ms[i].jobId in read && MovePermitted(read[ms[i].jobId], ms[i])
    ensures FirstRefusal(read, ms).Pass?
  {
    if ms != [] {
      AllPermitted(read, ms[..|ms| - 1]);
    }
  }

  lemma {:induction false} NoTokenMaps(ms: seq<Mutation>)
    requires forall i :: 0 <= i < |ms| ==> NoTokens(ms[i])
    ensures ExecutionTokens(ms) == map[] && ReleaseTokens(ms) == map[]
  {
    if ms != [] {
      NoTokenMaps(ms[..|ms| - 1]);
    }
  }

  lemma UngatedBacked(ms: seq<Mutation>, es: seq<Event>)
    requires forall i :: 0 <= i < |ms| ==> NoTokens(ms[i])
    requires forall i :: 0 <= i < |es| ==> Ungated(es[i].kind)
    ensures ExecutionEventsBacked(ms, es) && ReleaseEventsBacked(ms, es)
  {
    NoTokenMaps(ms);
  }

  lemma ShareBacked(share: Share)
    requires LocallyBacked(share)
    ensures ExecutionEventsBacked([share.mutation], share.events) && ReleaseEventsBacked([share.mutation], share.events)
  {
    var m, ms, es := share.mutation, [share.mutation], share.events;
    assert ms[..|ms| - 1] == [];
    assert ExecutionTokens(ms) == if m.execution.Some? then map[m.jobId := m.execution.value] else map[];
    assert ReleaseTokens(ms) == if m.release.Some? then map[m.jobId := m.release.value] else map[];
    if m.execution.None? && m.release.None? {
      UngatedBacked(ms, es);
    } else {
      assert es[..|es| - 1] == [];
    }
  }

  lemma SingleWritten(rows: map<JobId, Row>, m: Mutation)
    requires m.jobId in rows
    ensures Written(rows, [m]) == rows[m.jobId := AsJob(m, rows[m.jobId])]
  {
    assert [m][..0] == [];
  }

  lemma SingleRefusal(read: map<JobId, Row>, m: Mutation)
    requires m.jobId in read
    ensures FirstRefusal(read, [m]).Pass? <==> MovePermitted(read[m.jobId], m)
  {
    assert [m][..0] == [];
    assert FirstRefusal(read, []).Pass?;
  }

  lemma SingleRead(rows: map<JobId, Row>, job: JobId)
    requires job in rows
    ensures ReadRows(rows, [job], false).Ok?
    ensures job in ReadRows(rows, [job], false).value && ReadRows(rows, [job], false).value[job] == rows[job]
  {
    assert [job][0] == job;
  }

  lemma ShareJudged(rows: map<JobId, Row>, job: JobId, share: Share)
    requires job in rows && share.mutation.jobId == job && LocallyBacked(share)
    ensures Judge(rows, [job], Ok(Batch([share.mutation], share.events)), false).Ok? <==> MovePermitted(rows[job], share.mutation)
    ensures Written(rows, [share.mutation]) == rows[job := AsJob(share.mutation, rows[job])]
  {
    SingleWritten(rows, share.mutation);
    SingleRead(rows, job);
    SingleRefusal(ReadRows(rows, [job], false).value, share.mutation);
    ShareBacked(share);
  }

  lemma QuietJudged(s: Store, p: Keeps, jobIds: seq<JobId>, b: Batch, rejectTerminal: bool)
    requires QuietBatch(s, p, MovePermitted, jobIds, b) && ReadRows(s.rows, jobIds, rejectTerminal).Ok?
    ensures Judge(s.rows, jobIds, Ok(b), rejectTerminal).Ok?
  {
    var read := ReadRows(s.rows, jobIds, rejectTerminal).value;
    forall i | 0 <= i < |b.mutations|
      ensures NoTokens(b.mutations[i]) && b.mutations[i].jobId in read
              && MovePermitted(read[b.mutations[i].jobId], b.mutations[i])
    {
      assert QuietMutation(s, MovePermitted, jobIds, b.mutations[i]);
    }
    forall i | 0 <= i < |b.events| ensures Ungated(b.events[i].kind) {
      assert QuietEvent(s, jobIds, b.events[i]);
    }
    UngatedBacked(b.mutations, b.events);
    AllPermitted(read, b.mutations);
  }

  /** A plan that keeps every listed job's invariant quietly is accepted, and the invariant holds after the write. */
  lemma SharesServed(s: Store, p: Keeps, jobIds: seq<JobId>, plan: Planner, rejectTerminal: bool)
    requires Holds(s, p) && DistinctJobIds(jobIds) && Shares(s.rows, jobIds, plan).Ok?
    requires ReadRows(s.rows, jobIds, rejectTerminal).Ok?
    requires forall i :: 0 <= i < |jobIds| ==> PlanKeeps(s, p, MovePermitted, plan, jobIds[i])
    ensures Judge(s.rows, jobIds, Shares(s.rows, jobIds, plan), rejectTerminal).Ok?
    ensures Holds(Apply(s, Mutate(jobIds, Shares(s.rows, jobIds, plan).value, rejectTerminal)), p)
  {
    var b := Shares(s.rows, jobIds, plan).value;
    SharesQuiet(s, p, MovePermitted, jobIds, plan);
    QuietJudged(s, p, jobIds, b, rejectTerminal);
    QuietWritten(s, p, MovePermitted, jobIds, b);
  }

  /** One forbidden move refuses the whole batch. */
  lemma SharesRefused(rows: map<JobId, Row>, jobIds: seq<JobId>, b: Batch, rejectTerminal: bool, i: nat)
    requires i < |b.mutations| && b.mutations[i].jobId in rows
    requires !MovePermitted(rows[b.mutations[i].jobId], b.mutations[i])
    ensures Judge(rows, jobIds, Ok(b), rejectTerminal).Err?
  {
    var read := ReadRows(rows, jobIds, rejectTerminal);
    if read.Ok? && FirstRefusal(read.value, b.mutations).Pass? {
      NoRefusal(read.value, b.mutations);
    }
  }

  /** A permitted share that backs its own token is accepted, and its job's invariant holds after the write. */
  lemma ShareServed(s: Store, p: Keeps, job: JobId, share: Share)
    requires Holds(s, p) && job in s.rows && share.mutation.jobId == job && LocallyBacked(share)
    requires MovePermitted(s.rows[job], share.mutation)
    requires p(AsJob(share.mutation, s.rows[job]), HistoryOf(s.history, job) + share.events)
    requires forall i :: 0 <= i < |share.events| ==> share.events[i].jobId == job
    ensures Holds(Apply(s, Mutate([job], Batch([share.mutation], share.events), false)), p)
  {
    var row := AsJob(share.mutation, s.rows[job]);
    ShareJudged(s.rows, job, share);
    assert row.jobId == s.rows[job].jobId;
    OneJobChanged(s, p, job, row, share.events);
  }

  /** One job planned into a forbidden move refuses the batch of all of them. */
  lemma ForbiddenShare(rows: map<JobId, Row>, jobIds: seq<JobId>, plan: Planner, rejectTerminal: bool, i: nat)
    requires Shares(rows, jobIds, plan).Ok? && i < |jobIds| && jobIds[i] in rows
    requires forall job :: job in rows && plan(rows[job]).Ok? ==> plan(rows[job]).value.Some?
    requires plan(rows[jobIds[i]]).Ok? ==>
               plan(rows[jobIds[i]]).value.value.mutation.jobId == jobIds[i]
               && !MovePermitted(rows[jobIds[i]], plan(rows[jobIds[i]]).value.value.mutation)
    ensures Judge(rows, jobIds, Shares(rows, jobIds, plan), rejectTerminal).Err?
  {
    SharesMutations(rows, jobIds, plan);
    SharesRefused(rows, jobIds, Shares(rows, jobIds, plan).value, rejectTerminal, i);
  }

  /** A first row with its own first events. */
  lemma CreateServed(s: Store, p: Keeps, row: Row, es: seq<Event>)
    requires Holds(s, p) && p(row, es)
    requires forall i :: 0 <= i < |es| ==> es[i].jobId == row.jobId
    ensures Holds(Apply(s, CreateJob(row, es)), p)
  {
    if row.jobId !in s.rows {
      HistoryOfOthers(s.history, row.jobId);
      assert [] + es == es;
      OneJobChanged(s, p, row.jobId, row, es);
    }
  }

  /** Events of one job appended without a write. */
  lemma AppendServed(s: Store, p: Keeps, job: JobId, es: seq<Event>)
    requires Holds(s, p) && job in s.rows && p(s.rows[job], HistoryOf(s.history, job) + es)
    requires forall i :: 0 <= i < |es| ==> es[i].jobId == job
    ensures Holds(Apply(s, AppendEvents(es)), p)
  {
    OneJobChanged(s, p, job, s.rows[job], es);
    assert s.rows[job := s.rows[job]] == s.rows;
  }

  // ------------------------------------------------------------------
  // Agreement, whatever the invariant
  // ------------------------------------------------------------------

  /** What a planner does with one job: keeps its invariant if the job is fit for it, plans a forbidden move if not. */
  predicate PlanSafe(p: Keeps, plan: Planner, row: Row, h: seq<Event>, fit: bool) {
    plan(row).Ok? ==>
      && plan(row).value.Some?
      && (if fit then KeptQuietly(p, MovePermitted, row, h, plan(row).value.value) else PlansForbidden(row, plan(row).value.value))
  }

  predicate PlansForbidden(row: Row, share: Share) { share.mutation.jobId == row.jobId && !MovePermitted(row, share.mutation) }

  predicate AllFit(rows: map<JobId, Row>, jobIds: seq<JobId>, fit: Row -> bool) {
    forall i :: 0 <= i < |jobIds| && jobIds[i] in rows ==> fit(rows[jobIds[i]])
  }

  /** A plan is accepted exactly when every job is fit for it, and either way the invariant holds after the call. */
  lemma BatchAgrees(s: Store, p: Keeps, jobIds: seq<JobId>, plan: Planner, fit: Row -> bool, rejectTerminal: bool)
    requires Holds(s, p) && DistinctJobIds(jobIds) && Shares(s.rows, jobIds, plan).Ok?
    requires forall job :: job in s.rows ==> PlanSafe(p, plan, s.rows[job], HistoryOf(s.history, job), fit(s.rows[job]))
    requires forall job :: job in s.rows && rejectTerminal && fit(s.rows[job]) ==> !s.rows[job].status.Completed?
    ensures Judge(s.rows, jobIds, Shares(s.rows, jobIds, plan), rejectTerminal).Ok? <==> AllFit(s.rows, jobIds, fit)
    ensures Holds(Apply(s, Mutate(jobIds, Shares(s.rows, jobIds, plan).value, rejectTerminal)), p)
  {
    SharesKnown(s.rows, jobIds, plan);
    if AllFit(s.rows, jobIds, fit) {
      forall i | 0 <= i < |jobIds| ensures PlanKeeps(s, p, MovePermitted, plan, jobIds[i]) {
        assert PlanSafe(p, plan, s.rows[jobIds[i]], HistoryOf(s.history, jobIds[i]), true);
      }
      SharesServed(s, p, jobIds, plan, rejectTerminal);
    } else {
      var i :| 0 <= i < |jobIds| && jobIds[i] in s.rows && !fit(s.rows[jobIds[i]]);
      assert PlanSafe(p, plan, s.rows[jobIds[i]], HistoryOf(s.history, jobIds[i]), false);
      assert s.rows[jobIds[i]].jobId == jobIds[i];
      ForbiddenShare(s.rows, jobIds, plan, rejectTerminal, i);
    }
  }

  /** What one operation's share does: permitted and kept if fit, forbidden if not. */
  predicate ShareSafe(p: Keeps, row: Row, h: seq<Event>, share: Share, fit: bool) {
    && OwnEvents(row, share) && LocallyBacked(share)
    && (fit <==> MovePermitted(row, share.mutation))
    && (fit ==> p(AsJob(share.mutation, row), h + share.events))
  }

  lemma ShareAgrees(s: Store, p: Keeps, job: JobId, share: Share, fit: bool)
    requires Holds(s, p) && job in s.rows && ShareSafe(p, s.rows[job], HistoryOf(s.history, job), share, fit)
    ensures Judge(s.rows, [job], Ok(Batch([share.mutation], share.events)), false).Ok? <==> fit
    ensures Holds(Apply(s, Mutate([job], Batch([share.mutation], share.events), false)), p)
  {
    ShareJudged(s.rows, job, share);
    if fit {
      ShareServed(s, p, job, share);
    }
  }

  /** A plan over listed jobs sees the same rows whether it is given the whole store or only the rows read for it. */
  lemma {:induction false} SharesOfRead(rows: map<JobId, Row>, read: map<JobId, Row>, jobIds: seq<JobId>, plan: Planner)
    requires forall i :: 0 <= i < |jobIds| && jobIds[i] in rows ==> jobIds[i] in read && read[jobIds[i]] == rows[jobIds[i]]
    requires forall job :: job in read ==> job in rows
    ensures Shares(read, jobIds, plan) == Shares(rows, jobIds, plan)
  {
    if jobIds != [] {
      var front := jobIds[..|jobIds| - 1];
      assert forall i :: 0 <= i < |front| ==> front[i] == jobIds[i];
      SharesOfRead(rows, read, front, plan);
    }
  }

  // ------------------------------------------------------------------
  // What a batch does to one row
  // ------------------------------------------------------------------

  /** How a row may differ from the row it was. */
  type Relation = (Row, Row) -> bool

  predicate KeyedRows(s: Store) { forall k :: k in s.rows ==> s.rows[k].jobId == k }

  predicate PlannedBy(rows: map<JobId, Row>, plan: Planner, job: JobId, m: Mutation) {
    job in rows && plan(rows[job]).Ok? && plan(rows[job]).value.Some? && plan(rows[job]).value.value.mutation == m
  }

  /** Where a mutation in a batch of shares comes from. */
  lemma {:induction false} MutationOfPlan(rows: map<JobId, Row>, jobIds: seq<JobId>, plan: Planner, i: nat)
    requires Shares(rows, jobIds, plan).Ok? && i < |Shares(rows, jobIds, plan).value.mutations|
    ensures exists k :: 0 <= k < |jobIds| && PlannedBy(rows, plan, jobIds[k], Shares(rows, jobIds, plan).value.mutations[i])
  {
    var n := |jobIds| - 1;
    var front, m := jobIds[..n], Shares(rows, jobIds, plan).value.mutations[i];
    if i < |Shares(rows, front, plan).value.mutations| {
      MutationOfPlan(rows, front, plan, i);
      var k :| 0 <= k < |front| && PlannedBy(rows, plan, front[k], m);
      assert PlannedBy(rows, plan, jobIds[k], m);
    } else {
      assert PlannedBy(rows, plan, jobIds[n], m);
    }
  }

  /** What the plan makes of a row stands in the relation to it. */
  predicate PlanMoves(plan: Planner, rel: Relation, row: Row) {
    plan(row).Ok? && plan(row).value.Some? ==>
      && plan(row).value.value.mutation.jobId == row.jobId
      && rel(row, AsJob(plan(row).value.value.mutation, row))
  }

  /** So does the row of every job after the call, if an unchanged row does. */
  lemma BatchMoves(s: Store, rel: Relation, jobIds: seq<JobId>, plan: Planner, b: Batch, rejectTerminal: bool, job: JobId)
    requires KeyedRows(s) && job in s.rows && Shares(s.rows, jobIds, plan) == Ok(b)
    requires forall k :: k in s.rows ==> PlanMoves(plan, rel, s.rows[k])
    requires rel(s.rows[job], s.rows[job])
    ensures job in Apply(s, Mutate(jobIds, b, rejectTerminal)).rows
    ensures rel(s.rows[job], Apply(s, Mutate(jobIds, b, rejectTerminal)).rows[job])
  {
    if Judge(s.rows, jobIds, Ok(b), rejectTerminal).Ok? {
      var i := BatchEffect(s.rows, jobIds, b, rejectTerminal, job);
      if i >= 0 {
        MutationOfPlan(s.rows, jobIds, plan, i);
        var k :| 0 <= k < |jobIds| && PlannedBy(s.rows, plan, jobIds[k], b.mutations[i]);
        assert PlanMoves(plan, rel, s.rows[jobIds[k]]);
      }
    }
  }

  lemma ShareMoves(s: Store, rel: Relation, job: JobId, share: Share, other: JobId)
    requires job in s.rows && other in s.rows && share.mutation.jobId == job
    requires other == job ==> rel(s.rows[job], AsJob(share.mutation, s.rows[job]))
    requires rel(s.rows[other], s.rows[other])
    ensures other in Apply(s, Mutate([job], Batch([share.mutation], share.events), false)).rows
    ensures rel(s.rows[other], Apply(s, Mutate([job], Batch([share.mutation], share.events), false)).rows[other])
  {
    SingleWritten(s.rows, share.mutation);
  }

  /** The plan mutates the row it is given and no other. */
  predicate OwnPlan(plan: Planner, row: Row) {
    plan(row).Ok? && plan(row).value.Some? ==> plan(row).value.value.mutation.jobId == row.jobId
  }

  /** Shares of different jobs are mutations of different jobs. */
  lemma {:induction false} SharesAreDistinct(rows: map<JobId, Row>, jobIds: seq<JobId>, plan: Planner)
    requires forall k :: k in rows ==> rows[k].jobId == k && OwnPlan(plan, rows[k])
    requires DistinctJobIds(jobIds) && Shares(rows, jobIds, plan).Ok?
    ensures DistinctJobs(Shares(rows, jobIds, plan).value.mutations)
    ensures forall m :: m in Shares(rows, jobIds, plan).value.mutations ==> m.jobId in jobIds
  {
    if jobIds != [] {
      var front, job := jobIds[..|jobIds| - 1], jobIds[|jobIds| - 1];
      SharesAreDistinct(rows, front, plan);
      assert front + [job] == jobIds && OwnPlan(plan, rows[job]);
      var ms := Shares(rows, front, plan).value.mutations;
      forall i | 0 <= i < |ms| ensures ms[i].jobId != job && ms[i].jobId in jobIds {
        assert ms[i] in ms;
      }
    }
  }

  /** The plan has something to say about the job: it is stored and its planning does not fail. */
  predicate Plans(rows: map<JobId, Row>, plan: Planner, job: JobId) { job in rows && plan(rows[job]).Ok? }

  /** A batch is planned exactly when every listed job is. */
  lemma {:induction false} SharesExactly(rows: map<JobId, Row>, jobIds: seq<JobId>, plan: Planner)
    ensures Shares(rows, jobIds, plan).Ok? <==> forall i :: 0 <= i < |jobIds| ==> Plans(rows, plan, jobIds[i])
  {
    if jobIds != [] {
      var front := jobIds[..|jobIds| - 1];
      SharesExactly(rows, front, plan);
      assert forall i :: 0 <= i < |front| ==> front[i] == jobIds[i];
    }
  }

  /** The first job that is not decides the error. */
  lemma FirstShareError(rows: map<JobId, Row>, jobIds: seq<JobId>, plan: Planner, k: nat)
    requires k < |jobIds| && !Plans(rows, plan, jobIds[k]) && forall i :: 0 <= i < k ==> Plans(rows, plan, jobIds[i])
    ensures Shares(rows, jobIds, plan) == Err(if jobIds[k] in rows then plan(rows[jobIds[k]]).error else UnknownJob)
  {
    SharesExactly(rows, jobIds[..k], plan);
    assert jobIds[..k + 1][..k] == jobIds[..k];
    ShareErrorStays(rows, jobIds, k + 1, plan);
  }

  /** The plan writes the row it is given and events of that job only. */
  predicate OwnShare(plan: Planner, row: Row) {
    plan(row).Ok? && plan(row).value.Some? ==> OwnEvents(row, plan(row).value.value)
  }

  /** What a batch of shares makes of one job: its own share if it is listed and has one, and nothing otherwise. */
  predicate GetsShare(rows: map<JobId, Row>, jobIds: seq<JobId>, plan: Planner, b: Batch, job: JobId)
    requires job in rows
  {
    if job in jobIds && plan(rows[job]).Ok? && plan(rows[job]).value.Some? then
      && Written(rows, b.mutations)[job] == AsJob(plan(rows[job]).value.value.mutation, rows[job])
      && HistoryOf(b.events, job) == plan(rows[job]).value.value.events
    else Written(rows, b.mutations)[job] == rows[job] && HistoryOf(b.events, job) == []
  }

  lemma OneMoreShare(rows: map<JobId, Row>, front: seq<JobId>, last: JobId, plan: Planner, b: Batch, share: Share, job: JobId)
    requires job in rows && last in rows && rows[last].jobId == last && last !in front && GetsShare(rows, front, plan, b, job)
    requires plan(rows[last]) == Ok(Some(share)) && OwnEvents(rows[last], share)
    ensures GetsShare(rows, front + [last], plan, Batch(b.mutations + [share.mutation], b.events + share.events), job)
  {
    assert (b.mutations + [share.mutation])[..|b.mutations|] == b.mutations;
    HistoryConcat(b.events, share.events, job);
    if job == last {
      HistoryOfOwn(share.events, job);
    } else {
      HistoryOfOthers(share.events, job);
    }
  }

  lemma {:induction false} SharesEffect(rows: map<JobId, Row>, jobIds: seq<JobId>, plan: Planner, job: JobId)
    requires DistinctJobIds(jobIds) && Shares(rows, jobIds, plan).Ok? && job in rows
    requires forall k :: k in rows ==> rows[k].jobId == k && OwnShare(plan, rows[k])
    ensures GetsShare(rows, jobIds, plan, Shares(rows, jobIds, plan).value, job)
  {
    if jobIds != [] {
      var front, last := jobIds[..|jobIds| - 1], jobIds[|jobIds| - 1];
      assert jobIds == front + [last];
      SharesEffect(rows, front, plan, job);
      if plan(rows[last]).value.Some? {
        assert OwnShare(plan, rows[last]);
        OneMoreShare(rows, front, last, plan, Shares(rows, front, plan).value, plan(rows[last]).value.value, job);
      }
    }
  }

  /** One event appended to a job's history, for any invariant it keeps. */
  lemma EventServed(s: Store, p: Keeps, job: JobId, e: Event)
    requires Holds(s, p) && job in s.rows && e.jobId == job && p(s.rows[job], HistoryOf(s.history, job) + [e])
    ensures Holds(Apply(s, AppendEvents([e])), p)
  {
    AppendServed(s, p, job, [e]);
  }
}
