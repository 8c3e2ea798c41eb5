/**
 Where stored jobs and their histories come from: every job was reported once,
 keeps what it was reported as, and its history only grows.
 */
module JobOrigins {
  import opened Wrappers
  import opened JobModel
  import opened Planners
  import opened GuardedWrites
  import opened StoreInvariant
  import opened ServiceRuns
  import opened DecisionEffects
  import opened OutcomeEffects

  /** The same job on the same track and section, for the same work. */
  predicate SameJob(a: Row, b: Row) {
    a.jobId == b.jobId && a.trackId == b.trackId && a.workType == b.workType && a.block.sectionId == b.block.sectionId
  }

  /** The job is still stored and the same one, and its history has at most been added to. */
  ghost predicate Carried(before: Store, after: Store, job: JobId)
    requires job in before.rows
  {
    && job in after.rows && SameJob(before.rows[job], after.rows[job])
    && exists es :: HistoryOf(after.history, job) == HistoryOf(before.history, job) + es
  }

  lemma Unmoved(s: Store, after: Store, job: JobId)
    requires job in s.rows && job in after.rows && SameJob(s.rows[job], after.rows[job])
    requires HistoryOf(after.history, job) == HistoryOf(s.history, job)
    ensures Carried(s, after, job)
  {
    assert HistoryOf(after.history, job) == HistoryOf(s.history, job) + [];
  }

  lemma Appended(s: Store, after: Store, es: seq<Event>, job: JobId)
    requires job in s.rows && job in after.rows && SameJob(s.rows[job], after.rows[job]) && after.history == s.history + es
    ensures Carried(s, after, job)
  {
    HistoryConcat(s.history, es, job);
  }

  lemma EffectCarries(s: Store, c: Command, after: Store, job: JobId)
    requires c.Decide? && c.job in s.rows && job in s.rows && Effected(s, c, after)
    ensures Carried(s, after, job)
  {
    assert after.history == s.history + after.history[|s.history|..];
    Appended(s, after, after.history[|s.history|..], job);
  }

  lemma DecisionCarries(s: Store, c: Command, job: JobId)
    requires StoreSound(s) && c.Decide? && job in s.rows
    ensures Carried(s, Perform(s, c), job)
  {
    DecisionExactly(s, c);
    if DecisionAllowed(s, c) { EffectCarries(s, c, Perform(s, c), job); } else { Unmoved(s, s, job); }
  }

  lemma SeenCarries(s: Store, c: Command, after: Store, job: JobId)
    requires c.Optimized? && job in s.rows && OutcomeSeen(s, c, after, job)
    ensures Carried(s, after, job)
  {
    if job !in c.jobIds { Unmoved(s, after, job); }
  }

  lemma OutcomeCarries(s: Store, c: Command, job: JobId)
    requires StoreSound(s) && WellFormed(c) && c.Optimized? && job in s.rows
    ensures Carried(s, Perform(s, c), job)
  {
    OutcomeExactly(s, c, job);
    if OutcomeStands(s, c) { SeenCarries(s, c, Perform(s, c), job); } else { Unmoved(s, s, job); }
  }

  lemma FailureSeenCarries(s: Store, c: Command, after: Store, job: JobId)
    requires c.OptimizationErrored? && job in s.rows && FailureSeen(s, c, after, job)
    ensures Carried(s, after, job)
  {
    if job !in c.jobIds { Unmoved(s, after, job); }
  }

  lemma FailureCarries(s: Store, c: Command, job: JobId)
    requires StoreSound(s) && WellFormed(c) && c.OptimizationErrored? && job in s.rows
    ensures Carried(s, Perform(s, c), job)
  {
    FailureExactly(s, c, job);
    if AllStored(s, c.jobIds) { FailureSeenCarries(s, c, Perform(s, c), job); } else { Unmoved(s, s, job); }
  }

  /** Intake stores a row with its two first events unless the job is stored already. */
  lemma ReportWritten(s: Store, c: Command)
    requires c.Report?
    ensures Perform(s, c) ==
            if c.row.jobId in s.rows then s
            else Store(s.rows[c.row.jobId := c.row], s.history + CreationEvents(c.row, c.actor, c.at))
  {
  }

  /** A refused attempt is recorded on a stored job, and nowhere else. */
  lemma RejectionExactly(s: Store, c: Command)
    requires c.RecordRejection? && KeyedRows(s)
    ensures c.job !in s.rows ==> Perform(s, c) == s
    ensures c.job in s.rows ==>
              && Perform(s, c).rows == s.rows
              && |Perform(s, c).history| == |s.history| + 1 && Perform(s, c).history[..|s.history|] == s.history
              && IsEvent(Perform(s, c).history[|s.history|], s.rows[c.job], TransitionRejected, c.actor, c.at, Some(c.reason), None, s.rows[c.job])
  {
  }

  lemma ReportCarries(s: Store, c: Command, job: JobId)
    requires c.Report? && job in s.rows
    ensures Carried(s, Perform(s, c), job)
  {
    ReportWritten(s, c);
    if c.row.jobId in s.rows {
      Unmoved(s, s, job);
    } else {
      Appended(s, Perform(s, c), CreationEvents(c.row, c.actor, c.at), job);
    }
  }

  lemma RejectionCarries(s: Store, c: Command, job: JobId)
    requires c.RecordRejection? && KeyedRows(s) && job in s.rows
    ensures Carried(s, Perform(s, c), job)
  {
    RejectionExactly(s, c);
    if c.job in s.rows {
      var e := Perform(s, c).history[|s.history|];
      assert Perform(s, c).history == s.history + [e];
      Appended(s, Perform(s, c), [e], job);
    } else {
      Unmoved(s, s, job);
    }
  }

  lemma SoundIsKeyed(s: Store)
    requires StoreSound(s)
    ensures KeyedRows(s)
  {
  }

  /** Every command leaves every stored job the one it is, and only adds to its history. */
  lemma CommandCarries(s: Store, c: Command, job: JobId)
    requires StoreSound(s) && WellFormed(c) && job in s.rows
    ensures Carried(s, Perform(s, c), job)
  {
    SoundIsKeyed(s);
    match c {
      case Report(_, _, _) => ReportCarries(s, c, job);
      case RecordRejection(_, _, _, _) => RejectionCarries(s, c, job);
      case Optimized(_, _, _, _, _, _, _) => OutcomeCarries(s, c, job);
      case OptimizationErrored(_, _, _, _, _) => FailureCarries(s, c, job);
      case Decide(_, _, _, _) => DecisionCarries(s, c, job);
    }
  }

  /** The history opens with the job's creation by this reporter and its scoring, of the state it was reported in. */
  predicate OpensWith(h: seq<Event>, c: Command)
    requires c.Report?
  {
    && |h| >= 2
    && h[0].kind.JobCreated? && h[0].actor == c.actor && h[0].at == c.at && h[0].before.None?
    && h[1].kind.JobScored? && h[1].actor.SystemActor? && h[1].at == c.at
    && h[0].after == Some(SnapshotOf(c.row)) == h[1].after
  }

  /** The command reported the job that is stored. */
  predicate ReportedAs(s: Store, c: Command, job: JobId) {
    c.Report? && c.row.jobId == job && job in s.rows && SameJob(c.row, s.rows[job]) && OpensWith(HistoryOf(s.history, job), c)
  }

  lemma StillReported(before: Store, after: Store, c: Command, job: JobId)
    requires ReportedAs(before, c, job) && Carried(before, after, job)
    ensures ReportedAs(after, c, job)
  {
  }

  lemma WriteAddsNone(s: Store, w: Write, job: JobId)
    requires !w.CreateJob? && job !in s.rows
    ensures job !in Apply(s, w).rows
  {
  }

  lemma OnlyReportsCreate(s: Store, c: Command, w: Write)
    requires WriteOf(s, c) == Some(w) && w.CreateJob?
    ensures c.Report? && w.row == c.row
  {
  }

  lemma CreatesOnlyItself(s: Store, w: Write, job: JobId)
    requires w.CreateJob? && job !in s.rows && job in Apply(s, w).rows
    ensures w.row.jobId == job
  {
  }

  /** Only intake stores a job that was not stored. */
  lemma OnlyReportsAdd(s: Store, c: Command, w: Write, job: JobId)
    requires job !in s.rows && WriteOf(s, c) == Some(w) && job in Apply(s, w).rows
    ensures c.Report? && c.row.jobId == job
  {
    if w.CreateJob? {
      OnlyReportsCreate(s, c, w);
      CreatesOnlyItself(s, w, job);
    } else {
      WriteAddsNone(s, w, job);
    }
  }

  lemma NewlyStored(s: Store, c: Command, job: JobId)
    requires StoreSound(s) && WellFormed(c) && job !in s.rows && job in Perform(s, c).rows
    ensures ReportedAs(Perform(s, c), c, job)
  {
    OnlyReportsAdd(s, c, WriteOf(s, c).value, job);
    ReportWritten(s, c);
    var es := CreationEvents(c.row, c.actor, c.at);
    HistoryConcat(s.history, es, job);
    NoEarlierEvents(s, job);
    HistoryOfOwn(es, job);
  }

  lemma NoEarlierEvents(s: Store, job: JobId)
    requires StoreSound(s) && job !in s.rows
    ensures HistoryOf(s.history, job) == []
  {
    HistoryOfOthers(s.history, job);
  }

  /** In every run each stored job was reported by one command, and is still what it was reported as. */
  lemma {:induction false} JobsWereReported(cs: seq<Command>, job: JobId) returns (i: nat)
    requires AllWellFormed(cs) && job in Serve(cs).rows
    ensures i < |cs| && ReportedAs(Serve(cs), cs[i], job)
  {
    var front, n := cs[..|cs| - 1], |cs| - 1;
    ServeSound(front);
    if job in Serve(front).rows {
      i := JobsWereReported(front, job);
      CommandCarries(Serve(front), cs[n], job);
      StillReported(Serve(front), Serve(cs), cs[i], job);
    } else {
      i := n;
      NewlyStored(Serve(front), cs[n], job);
    }
  }
}
