/**
 Tokens against events: every execution or release token of a batch is backed
 by exactly one matching event, and every such event by its token.
 */
module EventBacking {
  import opened Wrappers
  import opened JobModel

  /** The execution tokens of a batch by job, a later mutation of a job replacing an earlier one. */
  function ExecutionTokens(ms: seq<Mutation>): map<JobId, ExecutionToken> {
    if ms == [] then map[]
    else
      var rest := ExecutionTokens(ms[..|ms| - 1]);
      var last := ms[|ms| - 1];
      if last.execution.Some? then rest[last.jobId := last.execution.value] else rest
  }

  function ReleaseTokens(ms: seq<Mutation>): map<JobId, string> {
    if ms == [] then map[]
    else
      var rest := ReleaseTokens(ms[..|ms| - 1]);
      var last := ms[|ms| - 1];
      if last.release.Some? then rest[last.jobId := last.release.value] else rest
  }

  predicate MatchesToken(e: Event, job: JobId, token: ExecutionToken) {
    e.jobId == job && e.kind == EventFor(token.kind) && e.meta.executionId == Text(token.executionId)
  }

  predicate MatchesRelease(e: Event, job: JobId, run: string) {
    e.jobId == job && e.kind.BlockReleased? && e.meta.releasedRun == Text(run)
  }

  function Matching(es: seq<Event>, job: JobId, token: ExecutionToken): nat {
    if es == [] then 0
    else Matching(es[..|es| - 1], job, token) + (if MatchesToken(es[|es| - 1], job, token) then 1 else 0)
  }

  function MatchingReleases(es: seq<Event>, job: JobId, run: string): nat {
    if es == [] then 0
    else MatchingReleases(es[..|es| - 1], job, run) + (if MatchesRelease(es[|es| - 1], job, run) then 1 else 0)
  }

  predicate BackedExecutionEvent(tokens: map<JobId, ExecutionToken>, e: Event) {
    IsExecutionEvent(e.kind) ==>
      && e.jobId in tokens
      && MatchesToken(e, e.jobId, tokens[e.jobId])
      && (e.kind.ExecutionCompleted? ==> HasEvidence(e.meta.afterEvidence))
  }

  /** `metadata.get("after_work_evidence") or []` is non-empty. */
  predicate HasEvidence(v: Value) {
    match v
    case EvidenceList(items) => items != []
    case Flag(b) => b
    case Num(n) => n != 0
    case Text(s) => s != ""
    case Hash(_) => true
    case Moment(_) => true
    case _ => false
  }

  /** The condition the execution validator decides, as a statement about the whole batch. */
  predicate ExecutionEventsBacked(ms: seq<Mutation>, es: seq<Event>) {
    var tokens := ExecutionTokens(ms);
    && (forall i :: 0 <= i < |es| ==> !es[i].kind.LegacyCompleted?)
    && (forall job :: job in tokens ==> Matching(es, job, tokens[job]) == 1)
    && (forall i :: 0 <= i < |es| ==> BackedExecutionEvent(tokens, es[i]))
  }

  predicate BackedRelease(tokens: map<JobId, string>, e: Event) {
    e.kind.BlockReleased? ==> e.jobId in tokens && MatchesRelease(e, e.jobId, tokens[e.jobId])
  }

  predicate ReleaseEventsBacked(ms: seq<Mutation>, es: seq<Event>) {
    var tokens := ReleaseTokens(ms);
    && (forall job :: job in tokens ==> MatchingReleases(es, job, tokens[job]) == 1)
    && (forall i :: 0 <= i < |es| ==> BackedRelease(tokens, es[i]))
  }

  method ValidateExecutionEvents(ms: seq<Mutation>, es: seq<Event>) returns (r: Outcome<LifecycleError>)
    ensures r.Pass? <==> ExecutionEventsBacked(ms, es)
    ensures r.Fail? ==> r.error == ExecutionTokenRefused
  {
    for i := 0 to |es|
      invariant forall k :: 0 <= k < i ==> !es[k].kind.LegacyCompleted?
    {
      if es[i].kind.LegacyCompleted? {
        return Fail(ExecutionTokenRefused);
      }
    }
    var tokens: map<JobId, ExecutionToken> := map[];
    for i := 0 to |ms|
      invariant tokens == ExecutionTokens(ms[..i])
    {
      assert ms[..i + 1][..i] == ms[..i];
      if ms[i].execution.Some? {
        tokens := tokens[ms[i].jobId := ms[i].execution.value];
      }
    }
    assert ms[..|ms|] == ms;
    var jobs := tokens.Keys;
    while jobs != {}
      invariant jobs <= tokens.Keys
      invariant forall job :: job in tokens && job !in jobs ==> Matching(es, job, tokens[job]) == 1
      decreases |jobs|
    {
      var job :| job in jobs;
      var found := CountMatching(es, job, tokens[job]);
      if found != 1 {
        return Fail(ExecutionTokenRefused);
      }
      jobs := jobs - {job};
    }
    for i := 0 to |es|
      invariant forall k :: 0 <= k < i ==> BackedExecutionEvent(tokens, es[k])
    {
      if IsExecutionEvent(es[i].kind) {
        if es[i].jobId !in tokens || !MatchesToken(es[i], es[i].jobId, tokens[es[i].jobId]) {
          return Fail(ExecutionTokenRefused);
        }
        if es[i].kind.ExecutionCompleted? && !HasEvidence(es[i].meta.afterEvidence) {
          return Fail(ExecutionTokenRefused);
        }
      }
    }
    return Pass;
  }

  method CountMatching(es: seq<Event>, job: JobId, token: ExecutionToken) returns (n: nat)
    ensures n == Matching(es, job, token)
  {
    n := 0;
    for i := 0 to |es|
      invariant n == Matching(es[..i], job, token)
    {
      assert es[..i + 1][..i] == es[..i];
      if MatchesToken(es[i], job, token) {
        n := n + 1;
      }
    }
    assert es[..|es|] == es;
  }

  method ValidateReleaseEvents(ms: seq<Mutation>, es: seq<Event>) returns (r: Outcome<LifecycleError>)
    ensures r.Pass? <==> ReleaseEventsBacked(ms, es)
    ensures r.Fail? ==> r.error == ReleaseTokenRefused
  {
    var tokens: map<JobId, string> := map[];
    for i := 0 to |ms|
      invariant tokens == ReleaseTokens(ms[..i])
    {
      assert ms[..i + 1][..i] == ms[..i];
      if ms[i].release.Some? {
        tokens := tokens[ms[i].jobId := ms[i].release.value];
      }
    }
    assert ms[..|ms|] == ms;
    var jobs := tokens.Keys;
    while jobs != {}
      invariant jobs <= tokens.Keys
      invariant forall job :: job in tokens && job !in jobs ==> MatchingReleases(es, job, tokens[job]) == 1
      decreases |jobs|
    {
      var job :| job in jobs;
      var found := CountReleases(es, job, tokens[job]);
      if found != 1 {
        return Fail(ReleaseTokenRefused);
      }
      jobs := jobs - {job};
    }
    for i := 0 to |es|
      invariant forall k :: 0 <= k < i ==> BackedRelease(tokens, es[k])
    {
      if es[i].kind.BlockReleased? {
        if es[i].jobId !in tokens || !MatchesRelease(es[i], es[i].jobId, tokens[es[i].jobId]) {
          return Fail(ReleaseTokenRefused);
        }
      }
    }
    return Pass;
  }

  method CountReleases(es: seq<Event>, job: JobId, run: string) returns (n: nat)
    ensures n == MatchingReleases(es, job, run)
  {
    n := 0;
    for i := 0 to |es|
      invariant n == MatchingReleases(es[..i], job, run)
    {
      assert es[..i + 1][..i] == es[..i];
      if MatchesRelease(es[i], job, run) {
        n := n + 1;
      }
    }
    assert es[..|es|] == es;
  }

  // ------------------------------------------------------------------
  // What backing says about the number of events a batch appends
  // ------------------------------------------------------------------

  /** The last mutation of a job: the one whose row is kept. */
  function LastOfJob(ms: seq<Mutation>, job: JobId): Option<Mutation> {
    if ms == [] then None
    else if ms[|ms| - 1].jobId == job then Some(ms[|ms| - 1])
    else LastOfJob(ms[..|ms| - 1], job)
  }

  predicate CarriesExecution(ms: seq<Mutation>, job: JobId) {
    exists i :: 0 <= i < |ms| && ms[i].jobId == job && ms[i].execution.Some?
  }

  predicate CarriesRelease(ms: seq<Mutation>, job: JobId) {
    exists i :: 0 <= i < |ms| && ms[i].jobId == job && ms[i].release.Some?
  }

  /** If any mutation of the job carries an execution token, its last one does. */
  predicate LastCarriesExecution(ms: seq<Mutation>, job: JobId) {
    CarriesExecution(ms, job) ==> LastOfJob(ms, job).Some? && LastOfJob(ms, job).value.execution.Some?
  }

  /** If any mutation of the job carries a release token, its last one does. */
  predicate LastCarriesRelease(ms: seq<Mutation>, job: JobId) {
    CarriesRelease(ms, job) ==> LastOfJob(ms, job).Some? && LastOfJob(ms, job).value.release.Some?
  }

  /** A job has a token in a batch exactly if one of its mutations carries it. */
  lemma {:induction false} TokensAreCarried(ms: seq<Mutation>, job: JobId)
    ensures job in ExecutionTokens(ms) <==> CarriesExecution(ms, job)
    ensures job in ReleaseTokens(ms) <==> CarriesRelease(ms, job)
  {
    if ms != [] {
      var front, last := ms[..|ms| - 1], ms[|ms| - 1];
      TokensAreCarried(front, job);
      assert forall i :: 0 <= i < |front| ==> front[i] == ms[i];
    }
  }

  predicate DistinctJobs(ms: seq<Mutation>) {
    forall i, j :: 0 <= i < j < |ms| ==> ms[i].jobId != ms[j].jobId
  }

  lemma {:induction false} LastOfDistinct(ms: seq<Mutation>, i: nat)
    requires DistinctJobs(ms) && i < |ms|
    ensures LastOfJob(ms, ms[i].jobId) == Some(ms[i])
  {
    if i < |ms| - 1 { LastOfDistinct(ms[..|ms| - 1], i); }
  }

  /** With one mutation per job the last one carries whatever any does. */
  lemma DistinctLastCarries(ms: seq<Mutation>, job: JobId)
    requires DistinctJobs(ms)
    ensures LastCarriesExecution(ms, job) && LastCarriesRelease(ms, job)
  {
    forall i | 0 <= i < |ms| && ms[i].jobId == job ensures LastOfJob(ms, job) == Some(ms[i]) {
      LastOfDistinct(ms, i);
    }
  }

  /** Backed execution events of one job are exactly those its own token announces. */
  lemma {:induction false} CountBacked(es: seq<Event>, tokens: map<JobId, ExecutionToken>, job: JobId, kind: EventKind)
    requires IsExecutionEvent(kind)
    requires forall i :: 0 <= i < |es| ==> BackedExecutionEvent(tokens, es[i])
    ensures Count(es, job, kind) ==
            if job in tokens && EventFor(tokens[job].kind) == kind then Matching(es, job, tokens[job]) else 0
  {
    if es != [] {
      CountBacked(es[..|es| - 1], tokens, job, kind);
      assert BackedExecutionEvent(tokens, es[|es| - 1]);
    }
  }

  lemma {:induction false} CountBackedReleases(es: seq<Event>, tokens: map<JobId, string>, job: JobId)
    requires forall i :: 0 <= i < |es| ==> BackedRelease(tokens, es[i])
    ensures Count(es, job, BlockReleased) == if job in tokens then MatchingReleases(es, job, tokens[job]) else 0
  {
    if es != [] {
      CountBackedReleases(es[..|es| - 1], tokens, job);
      assert BackedRelease(tokens, es[|es| - 1]);
    }
  }

  /** An accepted batch appends, per job and kind, one execution event if its token asks for it and none otherwise. */
  lemma BackedCounts(ms: seq<Mutation>, es: seq<Event>, job: JobId, kind: EventKind)
    requires ExecutionEventsBacked(ms, es) && IsExecutionEvent(kind)
    ensures Count(es, job, kind) ==
            if job in ExecutionTokens(ms) && EventFor(ExecutionTokens(ms)[job].kind) == kind then 1 else 0
  {
    CountBacked(es, ExecutionTokens(ms), job, kind);
  }

  lemma BackedReleaseCounts(ms: seq<Mutation>, es: seq<Event>, job: JobId)
    requires ReleaseEventsBacked(ms, es)
    ensures Count(es, job, BlockReleased) == if job in ReleaseTokens(ms) then 1 else 0
  {
    CountBackedReleases(es, ReleaseTokens(ms), job);
  }
}
