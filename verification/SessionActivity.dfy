/**
 When a session answers, what each operation leaves of it, and which operation
 its last use and its role come from, in every run of the session store.
 */
module SessionActivity {
  import opened Wrappers
  import opened Sessions
  import opened SessionRuns

  // ------------------------------------------------------------------
  // One operation
  // ------------------------------------------------------------------

  /** Before the assertion's expiry, the end of the lifetime, the authentication's age limit, and the idle timeout. */
  predicate WithinLimits(cfg: Config, s: Session, now: int) {
    && now < s.verified.expiresAt
    && now < s.createdAt + cfg.lifetime
    && now < s.verified.authTime + cfg.maxAuthAge
    && now < s.lastSeenAt + cfg.idle
  }

  lemma LimitsExactly(cfg: Config, st: Store, d: Digest, now: int)
    requires Sound(cfg, st) && d in st.sessions
    ensures Live(cfg, st.sessions[d], now) <==> WithinLimits(cfg, st.sessions[d], now)
    ensures st.sessions[d].digest == d
  {
    assert SessionSound(cfg, st, d);
  }

  /** The handle names a stored session that is within all four limits at a usable reading. */
  predicate Answers(cfg: Config, st: Store, reading: Option<int>, handle: Option<Digest>) {
    && Usable(reading)
    && handle.Some? && handle.value in st.sessions
    && WithinLimits(cfg, st.sessions[handle.value], reading.value)
  }

  lemma LookupExactly(cfg: Config, st: Store, reading: Option<int>, handle: Option<Digest>)
    requires Sound(cfg, st) && Usable(reading)
    ensures var looked := Lookup(cfg, st, handle, reading.value);
            && (looked.outcome.Ok? <==> Answers(cfg, st, reading, handle))
            && (looked.outcome.Ok? ==> looked.store == st && looked.outcome.value == st.sessions[handle.value])
            && (looked.outcome.Err? && handle.Some? ==> looked.store == Without(st, handle.value))
            && (looked.outcome.Err? && handle.None? ==> looked.store == st)
  {
    if handle.Some? && handle.value in st.sessions {
      LimitsExactly(cfg, st, handle.value, reading.value);
    } else if handle.Some? {
      assert st.sessions - {handle.value} == st.sessions;
    }
  }

  /** An actor is returned exactly within the four limits and for the session's own person, and the reading becomes its last use. */
  lemma UseExactly(cfg: Config, st: Store, reading: Option<int>, handle: Option<Digest>, actor: ActorLookup)
    requires Sound(cfg, st)
    ensures var step := ActorOf(cfg, st, reading, handle, actor);
            && (step.outcome.Ok? <==>
                Answers(cfg, st, reading, handle) && actor == ActorFor(st.sessions[handle.value].person))
            && (step.outcome.Ok? ==>
                  && step.outcome.value == st.sessions[handle.value].person
                  && step.store == st.(sessions := st.sessions[handle.value := st.sessions[handle.value].(lastSeenAt := reading.value)]))
            && (step.outcome.Err? ==>
                  step.outcome.error ==
                  if !Usable(reading) then ClockUnavailable
                  else if !Answers(cfg, st, reading, handle) then InvalidSession
                  else if actor.MustSelectRole? then RoleSelectionRequired
                  else AccessDenied)
  {
    if Usable(reading) {
      LookupExactly(cfg, st, reading, handle);
      if handle.Some? && handle.value in st.sessions { LimitsExactly(cfg, st, handle.value, reading.value); }
    }
  }

  /** A role change succeeds exactly within the limits for a role of the session's own person, and moves the session to the new handle. */
  lemma RoleExactly(cfg: Config, st: Store, reading: Option<int>, handle: Option<Digest>, role: Option<Role>, found: Resolution,
                    digest: Digest)
    requires Sound(cfg, st)
    ensures var step := SetRole(cfg, st, reading, handle, role, found, digest);
            && (step.outcome.Ok? <==>
                role.Some? && Answers(cfg, st, reading, handle) && found.Found? && found.person == st.sessions[handle.value].person)
            && (step.outcome.Ok? ==>
                  && step.store.used == st.used
                  && step.store.sessions ==
                     (st.sessions - {handle.value})[digest := st.sessions[handle.value].(digest := digest, role := found.role,
                                                                                       lastSeenAt := reading.value)]
                  && step.outcome.value.digest == digest && step.outcome.value.ref == st.sessions[handle.value].ref
                  && IsLeast(step.outcome.value.expiresAt, st.sessions[handle.value].verified.expiresAt,
                             st.sessions[handle.value].createdAt + cfg.lifetime,
                             st.sessions[handle.value].verified.authTime + cfg.maxAuthAge))
            && (step.outcome.Err? ==>
                  step.outcome.error ==
                  if role.None? then InvalidRole
                  else if !Usable(reading) then ClockUnavailable
                  else if !Answers(cfg, st, reading, handle) then InvalidSession
                  else if found.RoleUnknown? then InvalidRole
                  else if found.RoleUnassigned? then RoleNotAssigned
                  else AccessDenied)
  {
    if Usable(reading) {
      LookupExactly(cfg, st, reading, handle);
      if handle.Some? && handle.value in st.sessions {
        LimitsExactly(cfg, st, handle.value, reading.value);
        assert SessionSound(cfg, st, handle.value);
      }
    }
  }

  /** The assertion was used and has not expired by the reading. */
  predicate StillHeld(st: Store, key: AssertionKey, now: int) { key in st.used && now < st.used[key] }

  predicate Admits(cfg: Config, st: Store, op: Op)
    requires op.CreateOp?
  {
    OtherwiseFine(cfg, st, op) && !StillHeld(st, KeyOf(op.a), op.reading.value)
  }

  /** A session is created exactly when every check passes, and the handle expires with its assertion, lifetime or authentication. */
  lemma CreateExactly(cfg: Config, st: Store, op: Op)
    requires op.CreateOp?
    ensures var step := Create(cfg, st, op.reading, op.a, op.found, op.digest, op.ref);
            && (step.outcome.Ok? <==> Admits(cfg, st, op))
            && (step.outcome.Ok? ==>
                  && op.digest in step.store.sessions
                  && Starts(step.store.sessions[op.digest], op)
                  && step.outcome.value.digest == op.digest && step.outcome.value.ref == op.ref
                  && IsLeast(step.outcome.value.expiresAt,
                             op.a.expiresAt, op.reading.value + cfg.lifetime, op.a.authTime + cfg.maxAuthAge))
            && (step.outcome.Err? ==>
                  step.outcome.error ==
                  if !Usable(op.reading) then ClockUnavailable
                  else if op.reading.value >= op.a.expiresAt then AssertionExpired
                  else if op.reading.value - op.a.authTime > cfg.maxAuthAge then AuthTooOld
                  else if StillHeld(st, KeyOf(op.a), op.reading.value) then AssertionAlreadyUsed
                  else if op.found.RoleUnknown? then InvalidRole
                  else if op.found.RoleUnassigned? then RoleNotAssigned
                  else if op.found.Denied? then AccessDenied
                  else if |Purged(cfg, st, op.reading.value).sessions| >= cfg.maxSessions then SessionStoreFull
                  else PersonSessionLimit)
  {
  }

  predicate IsLeast(x: int, a: int, b: int, c: int) { x <= a && x <= b && x <= c && (x == a || x == b || x == c) }

  /** A session as a creation begins it: its assertion, person and role, created and last seen at the reading. */
  predicate Starts(s: Session, op: Op)
    requires op.CreateOp? && Usable(op.reading) && op.found.Found?
  {
    && s.verified == op.a && s.person == op.found.person && s.role == op.found.role
    && s.createdAt == op.reading.value && s.lastSeenAt == op.reading.value
  }

  /** What ends a handle: a creation attempt or a use past a limit, the directory's refusal, a role change, and logout. */
  predicate EndsHandle(cfg: Config, s: Session, op: Op, d: Digest) {
    match op
    case CreateOp(reading, _, _, _, _) => Usable(reading) && !WithinLimits(cfg, s, reading.value)
    case ActorOp(reading, handle, actor) =>
      handle == Some(d) && Usable(reading)
      && (!WithinLimits(cfg, s, reading.value) || actor.NotEnrolled? || (actor.ActorFor? && actor.person != s.person))
    case RoleOp(reading, handle, role, found, _) =>
      handle == Some(d) && Usable(reading) && role.Some?
      && (!WithinLimits(cfg, s, reading.value) || found.Denied? || found.Found?)
    case LogoutOp(handle) => handle == Some(d)
  }

  lemma PurgeKeepsExactly(cfg: Config, st: Store, d: Digest, now: int)
    requires Sound(cfg, st) && d in st.sessions
    ensures d in Purged(cfg, st, now).sessions <==> WithinLimits(cfg, st.sessions[d], now)
  {
    LimitsExactly(cfg, st, d, now);
  }

  lemma CreateKeepsPurged(cfg: Config, st: Store, op: Op, d: Digest)
    requires op.CreateOp? && d != op.digest
    ensures d in After(cfg, st, op).sessions <==>
            if Usable(op.reading) then d in Purged(cfg, st, op.reading.value).sessions else d in st.sessions
  {
  }

  lemma CreateKeepsExactly(cfg: Config, st: Store, op: Op, d: Digest)
    requires Sound(cfg, st) && op.CreateOp? && d in st.sessions && op.digest !in st.sessions
    ensures d in After(cfg, st, op).sessions <==> !EndsHandle(cfg, st.sessions[d], op, d)
  {
    CreateKeepsPurged(cfg, st, op, d);
    if Usable(op.reading) { PurgeKeepsExactly(cfg, st, d, op.reading.value); }
  }

  /** A use or role change of another handle, or at no usable reading, leaves the handle alone. */
  lemma OthersKept(cfg: Config, st: Store, op: Op, d: Digest, looked: Step<Session>)
    requires (op.ActorOp? || op.RoleOp?) && d in st.sessions && (op.RoleOp? ==> op.digest !in st.sessions)
    requires !Usable(op.reading) || (op.handle != Some(d) && looked == Lookup(cfg, st, op.handle, op.reading.value))
    requires Usable(op.reading) ==> if looked.outcome.Ok? then op.handle == Some(looked.outcome.value.digest)
                                    else d in looked.store.sessions
    ensures d in After(cfg, st, op).sessions
  {
  }

  lemma UseOutcome(cfg: Config, st: Store, op: Op, d: Digest, s: Session)
    requires op.ActorOp? && Usable(op.reading) && Lookup(cfg, st, op.handle, op.reading.value) == Step(st, Ok(s))
    requires s.digest == d && d in st.sessions
    ensures d in After(cfg, st, op).sessions <==> !(op.actor.NotEnrolled? || (op.actor.ActorFor? && op.actor.person != s.person))
  {
  }

  lemma RoleOutcome(cfg: Config, st: Store, op: Op, d: Digest, s: Session)
    requires op.RoleOp? && Usable(op.reading) && op.digest != d
    requires Lookup(cfg, st, op.handle, op.reading.value) == Step(st, Ok(s)) && s.digest == d && d in st.sessions
    ensures d in After(cfg, st, op).sessions <==> !(op.role.Some? && (op.found.Denied? || op.found.Found?))
  {
  }

  lemma LookupRefused(cfg: Config, st: Store, op: Op, d: Digest)
    requires (op.ActorOp? || op.RoleOp?) && Usable(op.reading)
    requires Lookup(cfg, st, op.handle, op.reading.value).outcome.Err? && d !in Lookup(cfg, st, op.handle, op.reading.value).store.sessions
    ensures d in After(cfg, st, op).sessions <==> d in st.sessions && op.RoleOp? && op.role.None?
  {
  }

  lemma UseOrRoleKeepsExactly(cfg: Config, st: Store, op: Op, d: Digest)
    requires Sound(cfg, st) && (op.ActorOp? || op.RoleOp?) && d in st.sessions && (op.RoleOp? ==> op.digest !in st.sessions)
    ensures d in After(cfg, st, op).sessions <==> !EndsHandle(cfg, st.sessions[d], op, d)
  {
    if Usable(op.reading) {
      LookupExactly(cfg, st, op.reading, op.handle);
      LimitsExactly(cfg, st, d, op.reading.value);
      var looked := Lookup(cfg, st, op.handle, op.reading.value);
      if op.handle != Some(d) {
        if looked.outcome.Ok? { LimitsExactly(cfg, st, op.handle.value, op.reading.value); }
        OthersKept(cfg, st, op, d, looked);
      } else if looked.outcome.Err? {
        LookupRefused(cfg, st, op, d);
      } else if op.ActorOp? {
        UseOutcome(cfg, st, op, d, looked.outcome.value);
      } else {
        RoleOutcome(cfg, st, op, d, looked.outcome.value);
      }
    } else {
      OthersKept(cfg, st, op, d, Step(st, Err(ClockUnavailable)));
    }
  }

  /** A stored handle survives an operation exactly if the operation is not one of those that end it. */
  lemma HandlesEndExactly(cfg: Config, st: Store, op: Op, d: Digest)
    requires Sound(cfg, st) && Mints(st, op) && d in st.sessions
    ensures d in After(cfg, st, op).sessions <==> !EndsHandle(cfg, st.sessions[d], op, d)
  {
    match op {
      case CreateOp(_, _, _, _, _) => CreateKeepsExactly(cfg, st, op, d);
      case LogoutOp(_) =>
      case _ => UseOrRoleKeepsExactly(cfg, st, op, d);
    }
  }

  // ------------------------------------------------------------------
  // Where the last use and the role come from
  // ------------------------------------------------------------------

  /** The operation creates, uses or changes the role of this session, and succeeds. */
  predicate Touches(cfg: Config, st: Store, op: Op, s: Session) {
    match op
    case CreateOp(_, _, _, _, _) => Creates(cfg, st, op, s)
    case ActorOp(reading, handle, actor) =>
      && ActorOf(cfg, st, reading, handle, actor).outcome.Ok?
      && handle.Some? && handle.value in st.sessions && SameSession(st.sessions[handle.value], s)
    case RoleOp(reading, handle, role, found, digest) =>
      && SetRole(cfg, st, reading, handle, role, found, digest).outcome.Ok?
      && handle.Some? && handle.value in st.sessions && SameSession(st.sessions[handle.value], s)
    case LogoutOp(_) => false
  }

  /** A touched session was last seen at the operation's reading; a session not touched is stored as it was. */
  predicate Followed(cfg: Config, st: Store, op: Op, d: Digest, s: Session) {
    if Touches(cfg, st, op, s) then
      && Usable(op.reading) && s.lastSeenAt == op.reading.value
      && (op.ActorOp? ==> d in st.sessions && st.sessions[d].role == s.role)
      && (!op.ActorOp? ==> op.found.Found? && s.role == op.found.role)
    else d in st.sessions && st.sessions[d] == s
  }

  /** No two stored handles have the same session. */
  lemma OnlyHolder(cfg: Config, st: Store, e: Digest, s: Session)
    requires Sound(cfg, st) && e in st.sessions && SameSession(st.sessions[e], s)
    ensures forall d :: d in st.sessions && d != e ==> !SameSession(st.sessions[d], s)
  {
    forall d | d in st.sessions && d != e ensures !SameSession(st.sessions[d], s) {
      assert Apart(st.sessions[d], st.sessions[e]);
    }
  }

  lemma PurgedHolds(cfg: Config, st: Store, d: Digest, now: int)
    requires Sound(cfg, st) && d in Purged(cfg, st, now).sessions
    ensures KeyOf(st.sessions[d].verified) in Purged(cfg, st, now).used
  {
    assert SessionSound(cfg, st, d);
  }

  lemma CreateFollowed(cfg: Config, st: Store, op: Op, d: Digest, s: Session)
    requires Sound(cfg, st) && op.CreateOp? && op.digest !in st.sessions
    requires d in After(cfg, st, op).sessions && After(cfg, st, op).sessions[d] == s
    ensures Followed(cfg, st, op, d, s)
  {
    if Usable(op.reading) && d in Purged(cfg, st, op.reading.value).sessions {
      PurgedHolds(cfg, st, d, op.reading.value);
    }
    CreatedOrKept(cfg, st, op, d, s);
  }

  lemma CreatedOrKept(cfg: Config, st: Store, op: Op, d: Digest, s: Session)
    requires op.CreateOp? && op.digest !in st.sessions
    requires d in After(cfg, st, op).sessions && After(cfg, st, op).sessions[d] == s
    requires Usable(op.reading) && d in Purged(cfg, st, op.reading.value).sessions ==>
               KeyOf(st.sessions[d].verified) in Purged(cfg, st, op.reading.value).used
    ensures Followed(cfg, st, op, d, s)
  {
  }

  lemma UseFollowed(cfg: Config, st: Store, op: Op, d: Digest, s: Session)
    requires Sound(cfg, st) && op.ActorOp?
    requires d in After(cfg, st, op).sessions && After(cfg, st, op).sessions[d] == s
    ensures Followed(cfg, st, op, d, s)
  {
    UseExactly(cfg, st, op.reading, op.handle, op.actor);
    if Usable(op.reading) { LookupExactly(cfg, st, op.reading, op.handle); }
    if Touches(cfg, st, op, s) { OnlyHolder(cfg, st, op.handle.value, s); }
  }

  lemma RoleFollowed(cfg: Config, st: Store, op: Op, d: Digest, s: Session)
    requires Sound(cfg, st) && op.RoleOp? && op.digest !in st.sessions
    requires d in After(cfg, st, op).sessions && After(cfg, st, op).sessions[d] == s
    ensures Followed(cfg, st, op, d, s)
  {
    RoleExactly(cfg, st, op.reading, op.handle, op.role, op.found, op.digest);
    if Usable(op.reading) { LookupExactly(cfg, st, op.reading, op.handle); }
    if Touches(cfg, st, op, s) { OnlyHolder(cfg, st, op.handle.value, s); }
  }

  lemma OperationFollowed(cfg: Config, st: Store, op: Op, d: Digest, s: Session)
    requires Sound(cfg, st) && Mints(st, op)
    requires d in After(cfg, st, op).sessions && After(cfg, st, op).sessions[d] == s
    ensures Followed(cfg, st, op, d, s)
  {
    match op {
      case CreateOp(_, _, _, _, _) => CreateFollowed(cfg, st, op, d, s);
      case ActorOp(_, _, _) => UseFollowed(cfg, st, op, d, s);
      case RoleOp(_, _, _, _, _) => RoleFollowed(cfg, st, op, d, s);
      case LogoutOp(_) =>
    }
  }

  predicate TouchedAt(cfg: Config, ops: seq<Op>, i: nat, s: Session) {
    i < |ops| && Touches(cfg, Run(cfg, ops[..i]), ops[i], s)
  }

  /** The last operation of the run that created, used or changed the role of the session. */
  predicate LastTouched(cfg: Config, ops: seq<Op>, i: nat, s: Session) {
    TouchedAt(cfg, ops, i, s) && forall j: nat :: i < j < |ops| ==> !TouchedAt(cfg, ops, j, s)
  }

  /** Which operations of a run did something to a session. */
  type Touching = (nat, Session) -> bool

  /** Through operation k a session is seen if it was touched, and stays as it was if not. */
  predicate SeenThrough(touched: Touching, tr: seq<Store>, ops: seq<Op>, k: nat, d: Digest)
    requires k < |ops| && |tr| == |ops| + 1 && d in tr[k + 1].sessions
  {
    var s := tr[k + 1].sessions[d];
    if touched(k, s) then !ops[k].LogoutOp? && Usable(ops[k].reading) && s.lastSeenAt == ops[k].reading.value
    else d in tr[k].sessions && tr[k].sessions[d] == s
  }

  predicate AllSeen(touched: Touching, tr: seq<Store>, ops: seq<Op>, k: nat)
    requires k < |ops| && |tr| == |ops| + 1
  {
    forall d :: d in tr[k + 1].sessions ==> SeenThrough(touched, tr, ops, k, d)
  }

  lemma {:induction false} SeenIn(touched: Touching, tr: seq<Store>, ops: seq<Op>, n: nat, d: Digest, s: Session) returns (i: nat)
    requires |tr| == |ops| + 1 && n <= |ops| && tr[0].sessions == map[] && d in tr[n].sessions && tr[n].sessions[d] == s
    requires forall k :: 0 <= k < |ops| ==> AllSeen(touched, tr, ops, k)
    ensures i < n && touched(i, s) && forall j: nat :: i < j < n ==> !touched(j, s)
    ensures !ops[i].LogoutOp? && Usable(ops[i].reading) && s.lastSeenAt == ops[i].reading.value
  {
    assert AllSeen(touched, tr, ops, n - 1) && SeenThrough(touched, tr, ops, n - 1, d);
    if touched(n - 1, s) {
      i := n - 1;
    } else {
      i := SeenIn(touched, tr, ops, n - 1, d, s);
    }
  }

  lemma {:induction false} MintedSoFar(cfg: Config, ops: seq<Op>, n: nat)
    requires WellMinted(cfg, ops) && n <= |ops|
    ensures WellMinted(cfg, ops[..n])
  {
    if n < |ops| {
      MintedSoFar(cfg, ops[..|ops| - 1], n);
      assert ops[..|ops| - 1][..n] == ops[..n];
    } else {
      assert ops[..n] == ops;
    }
  }

  lemma {:induction false} MintedAt(cfg: Config, ops: seq<Op>, k: nat)
    requires WellMinted(cfg, ops) && k < |ops|
    ensures Mints(Run(cfg, ops[..k]), ops[k])
  {
    MintedSoFar(cfg, ops, k + 1);
    assert ops[..k + 1][..k] == ops[..k];
  }

  /** Each operation of a run is followed, for every session it leaves. */
  lemma FollowedAt(cfg: Config, ops: seq<Op>, k: nat, d: Digest, s: Session)
    requires cfg.Valid() && WellMinted(cfg, ops) && k < |ops|
    requires d in Run(cfg, ops[..k + 1]).sessions && Run(cfg, ops[..k + 1]).sessions[d] == s
    ensures Sound(cfg, Run(cfg, ops[..k])) && Run(cfg, ops[..k + 1]) == After(cfg, Run(cfg, ops[..k]), ops[k])
    ensures Followed(cfg, Run(cfg, ops[..k]), ops[k], d, s)
  {
    MintedSoFar(cfg, ops, k);
    MintedAt(cfg, ops, k);
    RunNext(cfg, ops, k);
    EveryRunSound(cfg, ops[..k]);
    OperationFollowed(cfg, Run(cfg, ops[..k]), ops[k], d, s);
  }

  lemma StatesAt(cfg: Config, ops: seq<Op>, k: nat)
    requires k <= |ops|
    ensures States(cfg, ops)[k] == Run(cfg, ops[..k])
  {
  }

  function Toucher(cfg: Config, ops: seq<Op>): Touching { (j: nat, s: Session) => TouchedAt(cfg, ops, j, s) }

  lemma SeenStep(cfg: Config, ops: seq<Op>, touched: Touching, tr: seq<Store>, k: nat, d: Digest)
    requires cfg.Valid() && WellMinted(cfg, ops) && k < |ops| && tr == States(cfg, ops) && d in tr[k + 1].sessions
    requires touched == Toucher(cfg, ops)
    ensures SeenThrough(touched, tr, ops, k, d)
  {
    StatesAt(cfg, ops, k);
    StatesAt(cfg, ops, k + 1);
    FollowedAt(cfg, ops, k, d, tr[k + 1].sessions[d]);
  }

  lemma AllSeenAt(cfg: Config, ops: seq<Op>, touched: Touching, tr: seq<Store>, k: nat)
    requires cfg.Valid() && WellMinted(cfg, ops) && k < |ops| && tr == States(cfg, ops) && touched == Toucher(cfg, ops)
    ensures AllSeen(touched, tr, ops, k)
  {
    forall d | d in tr[k + 1].sessions ensures SeenThrough(touched, tr, ops, k, d) { SeenStep(cfg, ops, touched, tr, k, d); }
  }

  lemma StatesEnds(cfg: Config, ops: seq<Op>)
    ensures States(cfg, ops)[0] == EMPTY && States(cfg, ops)[|ops|] == Run(cfg, ops)
  {
    StatesAt(cfg, ops, 0);
    StatesAt(cfg, ops, |ops|);
    assert ops[..|ops|] == ops;
  }

  lemma SeenWithin(cfg: Config, ops: seq<Op>, touched: Touching, tr: seq<Store>, n: nat, d: Digest, s: Session) returns (i: nat)
    requires cfg.Valid() && WellMinted(cfg, ops) && tr == States(cfg, ops) && touched == Toucher(cfg, ops)
    requires n == |ops| && tr[0].sessions == map[] && d in tr[n].sessions && tr[n].sessions[d] == s
    ensures i < n && touched(i, s) && forall j: nat :: i < j < n ==> !touched(j, s)
    ensures !ops[i].LogoutOp? && Usable(ops[i].reading) && s.lastSeenAt == ops[i].reading.value
  {
    forall k | 0 <= k < n ensures AllSeen(touched, tr, ops, k) { AllSeenAt(cfg, ops, touched, tr, k); }
    i := SeenIn(touched, tr, ops, n, d, s);
  }

  lemma LastByTouch(cfg: Config, ops: seq<Op>, touched: Touching, i: nat, s: Session)
    requires i < |ops| && touched == Toucher(cfg, ops) && touched(i, s) && forall j: nat :: i < j < |ops| ==> !touched(j, s)
    ensures LastTouched(cfg, ops, i, s)
  {
    forall j: nat | i < j < |ops| ensures !TouchedAt(cfg, ops, j, s) { assert !touched(j, s); }
  }

  /** In every run a stored session was last seen at the reading of the last operation that touched it. */
  lemma SeenAtLastTouch(cfg: Config, ops: seq<Op>, d: Digest, s: Session) returns (i: nat)
    requires cfg.Valid() && WellMinted(cfg, ops) && d in Run(cfg, ops).sessions && Run(cfg, ops).sessions[d] == s
    ensures LastTouched(cfg, ops, i, s) && !ops[i].LogoutOp?
    ensures Usable(ops[i].reading) && s.lastSeenAt == ops[i].reading.value
  {
    StatesEnds(cfg, ops);
    i := SeenWithin(cfg, ops, Toucher(cfg, ops), States(cfg, ops), |ops|, d, s);
    LastByTouch(cfg, ops, Toucher(cfg, ops), i, s);
  }

  /**
   In every run a stored handle gets an actor exactly if the directory finds the
   person its creation admitted, before the assertion expires, the lifetime and
   the authentication's age run out, and the idle timeout has passed since the
   last operation that touched the session.
   */
  lemma ActorsExactly(cfg: Config, ops: seq<Op>, d: Digest, reading: Option<int>, actor: ActorLookup) returns (i: nat, k: nat)
    requires cfg.Valid() && WellMinted(cfg, ops) && d in Run(cfg, ops).sessions
    ensures CreatedIn(cfg, ops, i, Run(cfg, ops).sessions[d]) && LastTouched(cfg, ops, k, Run(cfg, ops).sessions[d])
    ensures ops[k].reading.Some?
    ensures ActorOf(cfg, Run(cfg, ops), reading, Some(d), actor).outcome.Ok? <==>
            && actor == ActorFor(ops[i].found.person)
            && Usable(reading)
            && reading.value < ops[i].a.expiresAt
            && reading.value < ops[i].reading.value + cfg.lifetime
            && reading.value < ops[i].a.authTime + cfg.maxAuthAge
            && reading.value < ops[k].reading.value + cfg.idle
  {
    EveryRunSound(cfg, ops);
    i := SessionsWereCreated(cfg, ops, d);
    k := SeenAtLastTouch(cfg, ops, d, Run(cfg, ops).sessions[d]);
    UseExactly(cfg, Run(cfg, ops), reading, Some(d), actor);
  }

  /** The operation gives the session its role: its creation, or a role change. */
  predicate GivesRole(cfg: Config, ops: seq<Op>, i: nat, s: Session) { TouchedAt(cfg, ops, i, s) && !ops[i].ActorOp? }

  predicate LastGives(cfg: Config, ops: seq<Op>, i: nat, s: Session) {
    GivesRole(cfg, ops, i, s) && forall j: nat :: i < j < |ops| ==> !GivesRole(cfg, ops, j, s)
  }

  lemma GivesLike(cfg: Config, ops: seq<Op>, i: nat, a: Session, b: Session)
    requires SameSession(a, b)
    ensures GivesRole(cfg, ops, i, a) <==> GivesRole(cfg, ops, i, b)
  {
  }

  /** Through operation k a session has the role it is given, and keeps the one it had otherwise. */
  predicate RoleThrough(gives: Touching, tr: seq<Store>, ops: seq<Op>, k: nat, d: Digest)
    requires k < |ops| && |tr| == |ops| + 1 && d in tr[k + 1].sessions
  {
    var s := tr[k + 1].sessions[d];
    if gives(k, s) then (ops[k].CreateOp? || ops[k].RoleOp?) && ops[k].found.Found? && s.role == ops[k].found.role
    else d in tr[k].sessions && SameSession(tr[k].sessions[d], s) && tr[k].sessions[d].role == s.role
  }

  predicate AllRoles(gives: Touching, tr: seq<Store>, ops: seq<Op>, k: nat)
    requires k < |ops| && |tr| == |ops| + 1
  {
    forall d :: d in tr[k + 1].sessions ==> RoleThrough(gives, tr, ops, k, d)
  }

  /** What gives a role does not depend on the role. */
  ghost predicate Blind(gives: Touching) { forall k: nat, a, b :: SameSession(a, b) ==> gives(k, a) == gives(k, b) }

  lemma {:induction false} RoleIn(gives: Touching, tr: seq<Store>, ops: seq<Op>, n: nat, d: Digest, s: Session) returns (i: nat)
    requires |tr| == |ops| + 1 && n <= |ops| && tr[0].sessions == map[] && d in tr[n].sessions && tr[n].sessions[d] == s
    requires forall k :: 0 <= k < |ops| ==> AllRoles(gives, tr, ops, k)
    requires Blind(gives)
    ensures i < n && gives(i, s) && forall j: nat :: i < j < n ==> !gives(j, s)
    ensures (ops[i].CreateOp? || ops[i].RoleOp?) && ops[i].found.Found? && s.role == ops[i].found.role
  {
    assert AllRoles(gives, tr, ops, n - 1) && RoleThrough(gives, tr, ops, n - 1, d);
    if gives(n - 1, s) {
      i := n - 1;
    } else {
      var was := tr[n - 1].sessions[d];
      i := RoleIn(gives, tr, ops, n - 1, d, was);
      assert forall j: nat :: gives(j, was) == gives(j, s);
    }
  }

  lemma FollowedRole(cfg: Config, st: Store, op: Op, d: Digest, s: Session)
    requires Followed(cfg, st, op, d, s) && (Touches(cfg, st, op, s) ==> op.ActorOp?) && Sound(cfg, st)
    requires d in After(cfg, st, op).sessions && After(cfg, st, op).sessions[d] == s
    ensures d in st.sessions && SameSession(st.sessions[d], s) && st.sessions[d].role == s.role
  {
    if Touches(cfg, st, op, s) { UseExactly(cfg, st, op.reading, op.handle, op.actor); }
  }

  function Giver(cfg: Config, ops: seq<Op>): Touching { (j: nat, s: Session) => GivesRole(cfg, ops, j, s) }

  lemma RoleStep(cfg: Config, ops: seq<Op>, gives: Touching, tr: seq<Store>, k: nat, d: Digest)
    requires cfg.Valid() && WellMinted(cfg, ops) && k < |ops| && tr == States(cfg, ops) && d in tr[k + 1].sessions
    requires gives == Giver(cfg, ops)
    ensures RoleThrough(gives, tr, ops, k, d)
  {
    StatesAt(cfg, ops, k);
    StatesAt(cfg, ops, k + 1);
    var s := tr[k + 1].sessions[d];
    FollowedAt(cfg, ops, k, d, s);
    if !GivesRole(cfg, ops, k, s) { FollowedRole(cfg, tr[k], ops[k], d, s); }
  }

  lemma AllRolesAt(cfg: Config, ops: seq<Op>, gives: Touching, tr: seq<Store>, k: nat)
    requires cfg.Valid() && WellMinted(cfg, ops) && k < |ops| && tr == States(cfg, ops) && gives == Giver(cfg, ops)
    ensures AllRoles(gives, tr, ops, k)
  {
    forall d | d in tr[k + 1].sessions ensures RoleThrough(gives, tr, ops, k, d) { RoleStep(cfg, ops, gives, tr, k, d); }
  }

  lemma GiverIsBlind(cfg: Config, ops: seq<Op>)
    ensures Blind(Giver(cfg, ops))
  {
    forall k: nat, a, b | SameSession(a, b) ensures Giver(cfg, ops)(k, a) == Giver(cfg, ops)(k, b) { GivesLike(cfg, ops, k, a, b); }
  }

  lemma RoleWithin(cfg: Config, ops: seq<Op>, gives: Touching, tr: seq<Store>, n: nat, d: Digest, s: Session) returns (i: nat)
    requires cfg.Valid() && WellMinted(cfg, ops) && tr == States(cfg, ops) && gives == Giver(cfg, ops)
    requires n == |ops| && tr[0].sessions == map[] && d in tr[n].sessions && tr[n].sessions[d] == s
    ensures i < n && gives(i, s) && forall j: nat :: i < j < n ==> !gives(j, s)
    ensures (ops[i].CreateOp? || ops[i].RoleOp?) && ops[i].found.Found? && s.role == ops[i].found.role
  {
    forall k | 0 <= k < n ensures AllRoles(gives, tr, ops, k) { AllRolesAt(cfg, ops, gives, tr, k); }
    GiverIsBlind(cfg, ops);
    i := RoleIn(gives, tr, ops, n, d, s);
  }

  lemma LastByGift(cfg: Config, ops: seq<Op>, gives: Touching, i: nat, s: Session)
    requires i < |ops| && gives == Giver(cfg, ops) && gives(i, s) && forall j: nat :: i < j < |ops| ==> !gives(j, s)
    ensures LastGives(cfg, ops, i, s)
  {
    forall j: nat | i < j < |ops| ensures !GivesRole(cfg, ops, j, s) { assert !gives(j, s); }
  }

  /** In every run a stored session has the role found by the last operation that gave it one. */
  lemma RoleIsLastGiven(cfg: Config, ops: seq<Op>, d: Digest, s: Session) returns (i: nat)
    requires cfg.Valid() && WellMinted(cfg, ops) && d in Run(cfg, ops).sessions && Run(cfg, ops).sessions[d] == s
    ensures LastGives(cfg, ops, i, s) && (ops[i].CreateOp? || ops[i].RoleOp?)
    ensures ops[i].found.Found? && s.role == ops[i].found.role
  {
    StatesEnds(cfg, ops);
    i := RoleWithin(cfg, ops, Giver(cfg, ops), States(cfg, ops), |ops|, d, s);
    LastByGift(cfg, ops, Giver(cfg, ops), i, s);
  }
}
