/**
 Whole runs of the session store, under any clock unless a lemma says
 otherwise: what is stored, where it came from, and how often an assertion can
 be turned into a session.
 */
module SessionRuns {
  import opened Wrappers
  import opened Sessions

  datatype Op =
    | CreateOp(reading: Option<int>, a: Assertion, found: Resolution, digest: Digest, ref: string)
    | ActorOp(reading: Option<int>, handle: Option<Digest>, actor: ActorLookup)
    | RoleOp(reading: Option<int>, handle: Option<Digest>, role: Option<Role>, found: Resolution, digest: Digest)
    | LogoutOp(handle: Option<Digest>)

  function After(cfg: Config, st: Store, op: Op): Store {
    match op
    case CreateOp(reading, a, found, digest, ref) => Create(cfg, st, reading, a, found, digest, ref).store
    case ActorOp(reading, handle, actor) => ActorOf(cfg, st, reading, handle, actor).store
    case RoleOp(reading, handle, role, found, digest) => SetRole(cfg, st, reading, handle, role, found, digest).store
    case LogoutOp(handle) => Logout(st, handle)
  }

  /** A minted handle is new to the store it is minted for. */
  predicate Mints(st: Store, op: Op) {
    match op
    case CreateOp(_, _, _, digest, _) => digest !in st.sessions
    case RoleOp(_, _, _, _, digest) => digest !in st.sessions
    case _ => true
  }

  function Run(cfg: Config, ops: seq<Op>): Store {
    if ops == [] then EMPTY else After(cfg, Run(cfg, ops[..|ops| - 1]), ops[|ops| - 1])
  }

  predicate WellMinted(cfg: Config, ops: seq<Op>) {
    ops == [] || (WellMinted(cfg, ops[..|ops| - 1]) && Mints(Run(cfg, ops[..|ops| - 1]), ops[|ops| - 1]))
  }

  // ------------------------------------------------------------------
  // What is stored
  // ------------------------------------------------------------------

  predicate SessionSound(cfg: Config, st: Store, d: Digest)
    requires d in st.sessions
  {
    var s := st.sessions[d];
    && s.digest == d
    && s.freshUntil == s.verified.expiresAt
    && s.absoluteExpiresAt == Least(s.createdAt + cfg.lifetime, s.verified.authTime + cfg.maxAuthAge)
    && s.createdAt < s.freshUntil && s.createdAt - s.verified.authTime <= cfg.maxAuthAge
    && KeyOf(s.verified) in st.used && st.used[KeyOf(s.verified)] == s.freshUntil
  }

  predicate NoSharedAssertion(st: Store) {
    forall d, e :: d in st.sessions && e in st.sessions && d != e ==> Apart(st.sessions[d], st.sessions[e])
  }

  predicate Apart(a: Session, b: Session) { KeyOf(a.verified) != KeyOf(b.verified) }

  ghost predicate WithinQuota(cfg: Config, st: Store) {
    |st.sessions| <= cfg.maxSessions && forall p :: |OfPerson(st, p)| <= cfg.perPerson
  }

  predicate EachSound(cfg: Config, st: Store) { forall d :: d in st.sessions ==> SessionSound(cfg, st, d) }

  ghost predicate Sound(cfg: Config, st: Store) {
    && EachSound(cfg, st)
    && NoSharedAssertion(st)
    && WithinQuota(cfg, st)
  }

  lemma Fewer(a: set<Digest>, b: set<Digest>)
    requires a <= b
    ensures |a| <= |b|
  {
    assert b == a + (b - a);
  }

  /** Some sessions gone, the others and their used assertions untouched. */
  predicate Shrunk(st: Store, after: Store) {
    && (forall d :: d in after.sessions ==> d in st.sessions && after.sessions[d] == st.sessions[d])
    && (forall d :: d in after.sessions && KeyOf(after.sessions[d].verified) in st.used ==>
          var k := KeyOf(after.sessions[d].verified);
          k in after.used && after.used[k] == st.used[k])
  }

  lemma ShrinkingKeeps(cfg: Config, st: Store, after: Store)
    requires Sound(cfg, st) && Shrunk(st, after)
    ensures Sound(cfg, after)
  {
    forall d | d in after.sessions ensures SessionSound(cfg, after, d) {
      assert SessionSound(cfg, st, d);
    }
    Fewer(after.sessions.Keys, st.sessions.Keys);
    forall p ensures |OfPerson(after, p)| <= cfg.perPerson {
      Fewer(OfPerson(after, p), OfPerson(st, p));
    }
  }

  lemma PurgeKeeps(cfg: Config, st: Store, now: int)
    requires Sound(cfg, st)
    ensures Sound(cfg, Purged(cfg, st, now))
  {
    forall d | d in st.sessions ensures SessionSound(cfg, st, d) {}
    ShrinkingKeeps(cfg, st, Purged(cfg, st, now));
  }

  lemma WithoutKeeps(cfg: Config, st: Store, d: Digest)
    requires Sound(cfg, st)
    ensures Sound(cfg, Without(st, d))
  {
    ShrinkingKeeps(cfg, st, Without(st, d));
  }

  /** A stored session replaced by one of the same assertion, person and expiries, perhaps under a new handle. */
  predicate SameSession(a: Session, b: Session) {
    && a.verified == b.verified && a.person == b.person && a.ref == b.ref
    && a.createdAt == b.createdAt && a.absoluteExpiresAt == b.absoluteExpiresAt && a.freshUntil == b.freshUntil
  }

  function Replaced(st: Store, old_: Digest, s: Session): Store {
    st.(sessions := (st.sessions - {old_})[s.digest := s])
  }

  lemma SizeAfterSwap(before: set<Digest>, after: set<Digest>, out: Digest, into: Digest)
    requires out in before && after <= before - {out} + {into}
    ensures |after| <= |before|
  {
    Fewer(after, before - {out} + {into});
  }

  lemma ReplacingQuota(cfg: Config, st: Store, d: Digest, s: Session)
    requires WithinQuota(cfg, st) && d in st.sessions && st.sessions[d].person == s.person
    ensures WithinQuota(cfg, Replaced(st, d, s))
  {
    var after := Replaced(st, d, s);
    SizeAfterSwap(st.sessions.Keys, after.sessions.Keys, d, s.digest);
    forall p ensures |OfPerson(after, p)| <= cfg.perPerson {
      if p == s.person {
        SizeAfterSwap(OfPerson(st, p), OfPerson(after, p), d, s.digest);
      } else {
        Fewer(OfPerson(after, p), OfPerson(st, p));
      }
    }
  }

  lemma ReplacingSound(cfg: Config, st: Store, d: Digest, s: Session)
    requires EachSound(cfg, st) && NoSharedAssertion(st) && d in st.sessions && SameSession(st.sessions[d], s)
    ensures EachSound(cfg, Replaced(st, d, s)) && NoSharedAssertion(Replaced(st, d, s))
  {
    var after := Replaced(st, d, s);
    assert SessionSound(cfg, st, d);
    forall e | e in after.sessions ensures SessionSound(cfg, after, e) {
      if e != s.digest { assert SessionSound(cfg, st, e); }
    }
    forall e, f | e in after.sessions && f in after.sessions && e != f ensures Apart(after.sessions[e], after.sessions[f]) {
      if e == s.digest {
        assert Apart(st.sessions[d], st.sessions[f]);
      } else if f == s.digest {
        assert Apart(st.sessions[e], st.sessions[d]);
      } else {
        assert Apart(st.sessions[e], st.sessions[f]);
      }
    }
  }

  lemma ReplacingKeeps(cfg: Config, st: Store, d: Digest, s: Session)
    requires Sound(cfg, st) && d in st.sessions && SameSession(st.sessions[d], s)
    ensures Sound(cfg, Replaced(st, d, s))
  {
    ReplacingSound(cfg, st, d, s);
    ReplacingQuota(cfg, st, d, s);
  }

  function Added(st: Store, s: Session): Store {
    Store(st.sessions[s.digest := s], st.used[KeyOf(s.verified) := s.freshUntil])
  }

  lemma AddingQuota(cfg: Config, st: Store, s: Session)
    requires WithinQuota(cfg, st) && s.digest !in st.sessions
    requires |st.sessions| < cfg.maxSessions && |OfPerson(st, s.person)| < cfg.perPerson
    ensures WithinQuota(cfg, Added(st, s))
  {
    assert Added(st, s).sessions.Keys == st.sessions.Keys + {s.digest};
    forall p ensures |OfPerson(Added(st, s), p)| <= cfg.perPerson {
      AddedOfPerson(st, s, p);
    }
  }

  lemma AddedOfPerson(st: Store, s: Session, p: string)
    requires s.digest !in st.sessions
    ensures OfPerson(Added(st, s), p) == OfPerson(st, p) + (if p == s.person then {s.digest} else {})
  {
  }

  predicate Fresh(cfg: Config, s: Session) {
    && s.freshUntil == s.verified.expiresAt && s.createdAt < s.freshUntil
    && s.absoluteExpiresAt == Least(s.createdAt + cfg.lifetime, s.verified.authTime + cfg.maxAuthAge)
    && s.createdAt - s.verified.authTime <= cfg.maxAuthAge
  }

  lemma AddingSound(cfg: Config, st: Store, s: Session)
    requires EachSound(cfg, st) && NoSharedAssertion(st) && s.digest !in st.sessions && KeyOf(s.verified) !in st.used
    requires Fresh(cfg, s)
    ensures EachSound(cfg, Added(st, s)) && NoSharedAssertion(Added(st, s))
  {
    var after := Added(st, s);
    forall e | e in after.sessions ensures SessionSound(cfg, after, e) {
      if e != s.digest { assert SessionSound(cfg, st, e); }
    }
    forall d, e | d in after.sessions && e in after.sessions && d != e ensures Apart(after.sessions[d], after.sessions[e]) {
      if d == s.digest {
        assert SessionSound(cfg, st, e);
      } else if e == s.digest {
        assert SessionSound(cfg, st, d);
      } else {
        assert Apart(st.sessions[d], st.sessions[e]);
      }
    }
  }

  lemma LookupKeeps(cfg: Config, st: Store, handle: Option<Digest>, now: int)
    requires Sound(cfg, st)
    ensures Sound(cfg, Lookup(cfg, st, handle, now).store)
    ensures Lookup(cfg, st, handle, now).outcome.Ok? ==>
              var s := Lookup(cfg, st, handle, now).outcome.value;
              && Lookup(cfg, st, handle, now).store == st
              && handle == Some(s.digest) && s.digest in st.sessions && st.sessions[s.digest] == s && Live(cfg, s, now)
  {
    if handle.Some? && handle.value in st.sessions {
      assert SessionSound(cfg, st, handle.value);
      WithoutKeeps(cfg, st, st.sessions[handle.value].digest);
    }
  }

  lemma ActorKeeps(cfg: Config, st: Store, reading: Option<int>, handle: Option<Digest>, actor: ActorLookup)
    requires Sound(cfg, st)
    ensures Sound(cfg, ActorOf(cfg, st, reading, handle, actor).store)
  {
    if Usable(reading) {
      LookupKeeps(cfg, st, handle, reading.value);
      var looked := Lookup(cfg, st, handle, reading.value);
      if looked.outcome.Ok? {
        var s := looked.outcome.value;
        WithoutKeeps(cfg, st, s.digest);
        TouchKeeps(cfg, st, s, reading.value);
      }
    }
  }

  lemma TouchKeeps(cfg: Config, st: Store, s: Session, now: int)
    requires Sound(cfg, st) && s.digest in st.sessions && st.sessions[s.digest] == s
    ensures Sound(cfg, st.(sessions := st.sessions[s.digest := s.(lastSeenAt := now)]))
  {
    var used := s.(lastSeenAt := now);
    ReplacingKeeps(cfg, st, s.digest, used);
    TouchReplaces(st, s.digest, used);
  }

  lemma TouchReplaces(st: Store, d: Digest, s: Session)
    requires s.digest == d
    ensures Replaced(st, d, s) == st.(sessions := st.sessions[d := s])
  {
    assert (st.sessions - {d})[d := s] == st.sessions[d := s];
  }

  lemma RotateKeeps(cfg: Config, st: Store, s: Session, rotated: Session)
    requires Sound(cfg, st) && s.digest in st.sessions && st.sessions[s.digest] == s && SameSession(s, rotated)
    ensures Sound(cfg, st.(sessions := (st.sessions - {s.digest})[rotated.digest := rotated]))
  {
    ReplacingKeeps(cfg, st, s.digest, rotated);
  }

  lemma RoleKeeps(cfg: Config, st: Store, reading: Option<int>, handle: Option<Digest>, role: Option<Role>, found: Resolution, digest: Digest)
    requires Sound(cfg, st) && digest !in st.sessions
    ensures Sound(cfg, SetRole(cfg, st, reading, handle, role, found, digest).store)
  {
    if role.Some? && Usable(reading) {
      LookupKeeps(cfg, st, handle, reading.value);
      var looked := Lookup(cfg, st, handle, reading.value);
      if looked.outcome.Ok? {
        var s := looked.outcome.value;
        WithoutKeeps(cfg, st, s.digest);
        if found.Found? {
          RotateKeeps(cfg, st, s, s.(digest := digest, role := found.role, lastSeenAt := reading.value));
        }
      }
    }
  }

  lemma CreateKeeps(cfg: Config, st: Store, reading: Option<int>, a: Assertion, found: Resolution, digest: Digest, ref: string)
    requires Sound(cfg, st) && digest !in st.sessions
    ensures Sound(cfg, Create(cfg, st, reading, a, found, digest, ref).store)
  {
    if Usable(reading) {
      var now := reading.value;
      PurgeKeeps(cfg, st, now);
      var kept := Purged(cfg, st, now);
      if Create(cfg, st, reading, a, found, digest, ref).outcome.Ok? {
        var s := NewSession(cfg, now, a, found.person, found.role, digest, ref);
        AddingSound(cfg, kept, s);
        AddingQuota(cfg, kept, s);
      }
    }
  }

  /**
   In every run, whatever the clock does: each session is stored under its own
   digest, holds its assertion in the used map until exactly its expiry, shares
   it with no other session, and both quotas hold.
   */
  lemma {:induction false} EveryRunSound(cfg: Config, ops: seq<Op>)
    requires cfg.Valid() && WellMinted(cfg, ops)
    ensures Sound(cfg, Run(cfg, ops))
  {
    if ops != [] {
      var st, op := Run(cfg, ops[..|ops| - 1]), ops[|ops| - 1];
      EveryRunSound(cfg, ops[..|ops| - 1]);
      match op {
        case CreateOp(reading, a, found, digest, ref) => CreateKeeps(cfg, st, reading, a, found, digest, ref);
        case ActorOp(reading, handle, actor) => ActorKeeps(cfg, st, reading, handle, actor);
        case RoleOp(reading, handle, role, found, digest) => RoleKeeps(cfg, st, reading, handle, role, found, digest);
        case LogoutOp(handle) => if handle.Some? { WithoutKeeps(cfg, st, handle.value); }
      }
    } else {
      assert EMPTY.sessions.Keys == {};
      forall p ensures |OfPerson(EMPTY, p)| <= cfg.perPerson { assert OfPerson(EMPTY, p) == {}; }
    }
  }

  // ------------------------------------------------------------------
  // Where sessions come from
  // ------------------------------------------------------------------

  /** The operation creates a session for this person and assertion, at its own reading. */
  predicate Creates(cfg: Config, st: Store, op: Op, s: Session) {
    && op.CreateOp?
    && Create(cfg, st, op.reading, op.a, op.found, op.digest, op.ref).outcome.Ok?
    && SameSession(NewSession(cfg, op.reading.value, op.a, op.found.person, op.found.role, op.digest, op.ref), s)
  }

  predicate KnownSession(st: Store, s: Session) { exists d :: d in st.sessions && SameSession(st.sessions[d], s) }

  lemma LookupDescends(cfg: Config, st: Store, handle: Option<Digest>, now: int, d: Digest)
    requires d in Lookup(cfg, st, handle, now).store.sessions
    ensures d in st.sessions && Lookup(cfg, st, handle, now).store.sessions[d] == st.sessions[d]
  {
  }

  lemma ActorDescends(cfg: Config, st: Store, reading: Option<int>, handle: Option<Digest>, actor: ActorLookup, d: Digest)
    requires Sound(cfg, st) && d in ActorOf(cfg, st, reading, handle, actor).store.sessions
    ensures KnownSession(st, ActorOf(cfg, st, reading, handle, actor).store.sessions[d])
  {
    if Usable(reading) {
      LookupKeeps(cfg, st, handle, reading.value);
      if d in Lookup(cfg, st, handle, reading.value).store.sessions {
        LookupDescends(cfg, st, handle, reading.value, d);
      }
    }
    assert d in st.sessions;
    assert SameSession(st.sessions[d], ActorOf(cfg, st, reading, handle, actor).store.sessions[d]);
  }

  lemma RoleDescends(cfg: Config, st: Store, reading: Option<int>, handle: Option<Digest>, role: Option<Role>, found: Resolution,
                     digest: Digest, d: Digest)
    requires Sound(cfg, st) && d in SetRole(cfg, st, reading, handle, role, found, digest).store.sessions
    ensures KnownSession(st, SetRole(cfg, st, reading, handle, role, found, digest).store.sessions[d])
  {
    var s := SetRole(cfg, st, reading, handle, role, found, digest).store.sessions[d];
    if role.Some? && Usable(reading) {
      LookupKeeps(cfg, st, handle, reading.value);
      var looked := Lookup(cfg, st, handle, reading.value);
      if looked.outcome.Ok? && d == digest && found.Found? && found.person == looked.outcome.value.person {
        assert SameSession(st.sessions[looked.outcome.value.digest], s);
      } else {
        assert d in st.sessions && st.sessions[d] == s;
        assert SameSession(st.sessions[d], s);
      }
    } else {
      assert SameSession(st.sessions[d], s);
    }
  }

  lemma CreateDescends(cfg: Config, st: Store, op: Op, d: Digest, s: Session)
    requires op.CreateOp? && d in After(cfg, st, op).sessions && After(cfg, st, op).sessions[d] == s
    ensures KnownSession(st, s) || Creates(cfg, st, op, s)
  {
    if !Creates(cfg, st, op, s) {
      assert SameSession(st.sessions[d], s);
    }
  }

  /** No operation but creation makes a session, and none moves an expiry or a person. */
  lemma SessionsDescend(cfg: Config, st: Store, op: Op, d: Digest, s: Session)
    requires Sound(cfg, st) && d in After(cfg, st, op).sessions && After(cfg, st, op).sessions[d] == s
    ensures KnownSession(st, s) || Creates(cfg, st, op, s)
  {
    match op {
      case CreateOp(_, _, _, _, _) => CreateDescends(cfg, st, op, d, s);
      case ActorOp(reading, handle, actor) => ActorDescends(cfg, st, reading, handle, actor, d);
      case RoleOp(reading, handle, role, found, digest) => RoleDescends(cfg, st, reading, handle, role, found, digest, d);
      case LogoutOp(handle) => assert SameSession(st.sessions[d], s);
    }
  }

  predicate CreatedIn(cfg: Config, ops: seq<Op>, i: nat, s: Session) {
    i < |ops| && Creates(cfg, Run(cfg, ops[..i]), ops[i], s)
  }

  /** In every run each stored session is the one some earlier creation made: same person, same expiries. */
  lemma {:induction false} SessionsWereCreated(cfg: Config, ops: seq<Op>, d: Digest) returns (i: nat)
    requires cfg.Valid() && WellMinted(cfg, ops) && d in Run(cfg, ops).sessions
    ensures CreatedIn(cfg, ops, i, Run(cfg, ops).sessions[d])
  {
    var n := |ops| - 1;
    var st, s := Run(cfg, ops[..n]), Run(cfg, ops).sessions[d];
    EveryRunSound(cfg, ops[..n]);
    SessionsDescend(cfg, st, ops[n], d, s);
    if Creates(cfg, st, ops[n], s) {
      i := n;
    } else {
      var e :| e in st.sessions && SameSession(st.sessions[e], s);
      i := SessionsWereCreated(cfg, ops[..n], e);
      assert ops[..n][..i] == ops[..i];
    }
  }

  /**
   In every run, an actor is only ever returned for a person some earlier
   creation admitted, before that creation's lifetime, its authentication age
   and its assertion have run out; no use and no role change postpones any of them.
   */
  lemma ActorsWithinLimits(cfg: Config, ops: seq<Op>, reading: Option<int>, handle: Option<Digest>, actor: ActorLookup)
    returns (i: nat)
    requires cfg.Valid() && WellMinted(cfg, ops)
    requires ActorOf(cfg, Run(cfg, ops), reading, handle, actor).outcome.Ok?
    ensures i < |ops| && ops[i].CreateOp? && ops[i].found.Found? && Usable(ops[i].reading)
    ensures ActorOf(cfg, Run(cfg, ops), reading, handle, actor).outcome.value == ops[i].found.person
    ensures reading.value < ops[i].a.expiresAt
    ensures reading.value < ops[i].reading.value + cfg.lifetime
    ensures reading.value < ops[i].a.authTime + cfg.maxAuthAge
  {
    EveryRunSound(cfg, ops);
    LookupKeeps(cfg, Run(cfg, ops), handle, reading.value);
    var s := Lookup(cfg, Run(cfg, ops), handle, reading.value).outcome.value;
    i := SessionsWereCreated(cfg, ops, s.digest);
  }

  // ------------------------------------------------------------------
  // One assertion, one session
  // ------------------------------------------------------------------

  /** The operation turns this assertion, with this expiry, into a session. */
  predicate Spends(cfg: Config, st: Store, op: Op, key: AssertionKey, expiry: int) {
    Presents(op, key, expiry) && Create(cfg, st, op.reading, op.a, op.found, op.digest, op.ref).outcome.Ok?
  }

  predicate Presents(op: Op, key: AssertionKey, expiry: int) { op.CreateOp? && KeyOf(op.a) == key && op.a.expiresAt == expiry }

  predicate SpentAt(cfg: Config, ops: seq<Op>, i: nat, key: AssertionKey, expiry: int) {
    i < |ops| && Spends(cfg, Run(cfg, ops[..i]), ops[i], key, expiry)
  }

  /** A creation attempt whose reading purges everything used that expires by then. */
  predicate PurgesPast(op: Op, expiry: int) { op.CreateOp? && Usable(op.reading) && expiry <= op.reading.value }

  predicate PurgedBetween(ops: seq<Op>, i: nat, j: nat, expiry: int) {
    exists k :: i < k < j && k < |ops| && PurgesPast(ops[k], expiry)
  }

  lemma PurgedNext(ops: seq<Op>, i: nat, n: nat, expiry: int)
    requires i < n < |ops|
    ensures PurgedBetween(ops, i, n + 1, expiry) <==> PurgedBetween(ops, i, n, expiry) || PurgesPast(ops[n], expiry)
  {
  }

  predicate HeldIn(st: Store, key: AssertionKey, expiry: int) { key in st.used && st.used[key] == expiry }

  lemma RunNext(cfg: Config, ops: seq<Op>, n: nat)
    requires n < |ops|
    ensures Run(cfg, ops[..n + 1]) == After(cfg, Run(cfg, ops[..n]), ops[n])
  {
    assert ops[..n + 1][..n] == ops[..n];
  }

  lemma HeldUntilExpiry(cfg: Config, st: Store, op: Op, key: AssertionKey, expiry: int, after: Store)
    requires HeldIn(st, key, expiry) && after == After(cfg, st, op)
    ensures !PurgesPast(op, expiry) ==> HeldIn(after, key, expiry)
  {
  }

  lemma HeldNotSpent(cfg: Config, st: Store, op: Op, key: AssertionKey, expiry: int)
    requires HeldIn(st, key, expiry)
    ensures !Spends(cfg, st, op, key, expiry)
  {
  }

  lemma SpentIsHeld(cfg: Config, st: Store, op: Op, key: AssertionKey, expiry: int, after: Store)
    requires Spends(cfg, st, op, key, expiry) && after == After(cfg, st, op)
    ensures HeldIn(after, key, expiry)
  {
  }

  /** The stores of a run, before each operation and after the last. */
  function States(cfg: Config, ops: seq<Op>): (r: seq<Store>)
    ensures |r| == |ops| + 1
  {
    seq(|ops| + 1, n requires 0 <= n <= |ops| => Run(cfg, ops[..n]))
  }

  /** Held before the operation and not purged by it, the key is held after it. */
  predicate HoldsOn(tr: seq<Store>, ops: seq<Op>, k: nat, key: AssertionKey, expiry: int)
    requires k < |ops| && |tr| == |ops| + 1
  {
    HeldIn(tr[k], key, expiry) && !PurgesPast(ops[k], expiry) ==> HeldIn(tr[k + 1], key, expiry)
  }

  lemma {:induction false} HeldOrPurgedIn(tr: seq<Store>, ops: seq<Op>, i: nat, n: nat, key: AssertionKey, expiry: int)
    requires |tr| == |ops| + 1 && i < n <= |ops| && HeldIn(tr[i + 1], key, expiry)
    requires forall k :: i < k < n ==> HoldsOn(tr, ops, k, key, expiry)
    ensures HeldIn(tr[n], key, expiry) || PurgedBetween(ops, i, n, expiry)
  {
    if n > i + 1 {
      HeldOrPurgedIn(tr, ops, i, n - 1, key, expiry);
      PurgedNext(ops, i, n - 1, expiry);
      assert HoldsOn(tr, ops, n - 1, key, expiry);
    }
  }

  lemma HeldStep(cfg: Config, ops: seq<Op>, k: nat, key: AssertionKey, expiry: int)
    requires k < |ops|
    ensures HoldsOn(States(cfg, ops), ops, k, key, expiry)
  {
    var st, after := Run(cfg, ops[..k]), Run(cfg, ops[..k + 1]);
    assert States(cfg, ops)[k] == st && States(cfg, ops)[k + 1] == after;
    RunNext(cfg, ops, k);
    if HeldIn(st, key, expiry) {
      HeldUntilExpiry(cfg, st, ops[k], key, expiry, after);
    }
  }

  lemma HeldFirst(cfg: Config, ops: seq<Op>, i: nat, key: AssertionKey, expiry: int)
    requires SpentAt(cfg, ops, i, key, expiry)
    ensures HeldIn(States(cfg, ops)[i + 1], key, expiry)
  {
    RunNext(cfg, ops, i);
    SpentIsHeld(cfg, Run(cfg, ops[..i]), ops[i], key, expiry, Run(cfg, ops[..i + 1]));
  }

  /** An assertion spent stays held until some later creation attempt purges it. */
  lemma HeldOrPurged(cfg: Config, ops: seq<Op>, i: nat, n: nat, key: AssertionKey, expiry: int)
    requires SpentAt(cfg, ops, i, key, expiry) && i < n <= |ops|
    ensures HeldIn(Run(cfg, ops[..n]), key, expiry) || PurgedBetween(ops, i, n, expiry)
  {
    var tr := States(cfg, ops);
    HeldFirst(cfg, ops, i, key, expiry);
    forall k | i < k < n ensures HoldsOn(tr, ops, k, key, expiry) { HeldStep(cfg, ops, k, key, expiry); }
    HeldOrPurgedIn(tr, ops, i, n, key, expiry);
    assert tr[n] == Run(cfg, ops[..n]);
  }

  /** Whatever the clock does, an assertion makes a second session only if a creation attempt in between read its expiry or later. */
  lemma SecondSessionNeedsPurge(cfg: Config, ops: seq<Op>, i: nat, j: nat, key: AssertionKey, expiry: int)
    requires SpentAt(cfg, ops, i, key, expiry) && SpentAt(cfg, ops, j, key, expiry) && i < j
    ensures PurgedBetween(ops, i, j, expiry)
  {
    HeldOrPurged(cfg, ops, i, j, key, expiry);
    if HeldIn(Run(cfg, ops[..j]), key, expiry) {
      HeldNotSpent(cfg, Run(cfg, ops[..j]), ops[j], key, expiry);
    }
  }

  /** No creation strictly between the two succeeds under the key, with any expiry. */
  predicate NoneSpent(cfg: Config, ops: seq<Op>, i: nat, j: nat, key: AssertionKey) {
    forall k :: i < k < j && k < |ops| ==> !SpendsKey(cfg, Run(cfg, ops[..k]), ops[k], key)
  }

  predicate SpendsKey(cfg: Config, st: Store, op: Op, key: AssertionKey) { op.CreateOp? && Spends(cfg, st, op, key, op.a.expiresAt) }

  /** The key is held with this expiry, or not at all. */
  predicate HeldExactlyIf(st: Store, key: AssertionKey, expiry: int, held: bool) {
    (key in st.used <==> held) && (held ==> st.used[key] == expiry)
  }

  lemma OneOp(cfg: Config, st: Store, op: Op, key: AssertionKey, expiry: int, held: bool, after: Store)
    requires HeldExactlyIf(st, key, expiry, held) && !SpendsKey(cfg, st, op, key) && after == After(cfg, st, op)
    ensures HeldExactlyIf(after, key, expiry, held && !PurgesPast(op, expiry))
  {
  }

  /** The key is held after the operation exactly if it was before and the operation does not purge it. */
  predicate HoldsExactlyOn(tr: seq<Store>, ops: seq<Op>, k: nat, key: AssertionKey, expiry: int)
    requires k < |ops| && |tr| == |ops| + 1
  {
    forall held :: HeldExactlyIf(tr[k], key, expiry, held) ==> HeldExactlyIf(tr[k + 1], key, expiry, held && !PurgesPast(ops[k], expiry))
  }

  lemma {:induction false} HeldExactlyIn(tr: seq<Store>, ops: seq<Op>, i: nat, n: nat, key: AssertionKey, expiry: int)
    requires |tr| == |ops| + 1 && i < n <= |ops| && HeldIn(tr[i + 1], key, expiry)
    requires forall k :: i < k < n ==> HoldsExactlyOn(tr, ops, k, key, expiry)
    ensures HeldExactlyIf(tr[n], key, expiry, !PurgedBetween(ops, i, n, expiry))
  {
    if n > i + 1 {
      HeldExactlyIn(tr, ops, i, n - 1, key, expiry);
      PurgedNext(ops, i, n - 1, expiry);
      assert HoldsExactlyOn(tr, ops, n - 1, key, expiry);
    }
  }

  lemma HeldExactlyStep(cfg: Config, ops: seq<Op>, k: nat, key: AssertionKey, expiry: int)
    requires k < |ops| && !SpendsKey(cfg, Run(cfg, ops[..k]), ops[k], key)
    ensures HoldsExactlyOn(States(cfg, ops), ops, k, key, expiry)
  {
    var st, after := Run(cfg, ops[..k]), Run(cfg, ops[..k + 1]);
    assert States(cfg, ops)[k] == st && States(cfg, ops)[k + 1] == after;
    RunNext(cfg, ops, k);
    forall held | HeldExactlyIf(st, key, expiry, held) ensures HeldExactlyIf(after, key, expiry, held && !PurgesPast(ops[k], expiry)) {
      OneOp(cfg, st, ops[k], key, expiry, held, after);
    }
  }

  /** Without another creation under its key, an assertion is held exactly until it is purged. */
  lemma HeldExactly(cfg: Config, ops: seq<Op>, i: nat, n: nat, key: AssertionKey, expiry: int)
    requires SpentAt(cfg, ops, i, key, expiry) && i < n <= |ops| && NoneSpent(cfg, ops, i, n, key)
    ensures HeldExactlyIf(Run(cfg, ops[..n]), key, expiry, !PurgedBetween(ops, i, n, expiry))
  {
    var tr := States(cfg, ops);
    HeldFirst(cfg, ops, i, key, expiry);
    forall k | i < k < n ensures HoldsExactlyOn(tr, ops, k, key, expiry) { HeldExactlyStep(cfg, ops, k, key, expiry); }
    HeldExactlyIn(tr, ops, i, n, key, expiry);
    assert tr[n] == Run(cfg, ops[..n]);
  }

  /** Every check of a creation but the one for reuse: a usable reading, an assertion in time, a person found, room in both quotas. */
  predicate OtherwiseFine(cfg: Config, st: Store, op: Op)
    requires op.CreateOp?
  {
    && Usable(op.reading)
    && op.reading.value < op.a.expiresAt
    && op.reading.value - op.a.authTime <= cfg.maxAuthAge
    && op.found.Found?
    && HasRoom(cfg, Purged(cfg, st, op.reading.value), op.found.person)
  }

  /** Room for one more session, and for one more of this person. */
  predicate HasRoom(cfg: Config, st: Store, person: string) {
    |st.sessions| < cfg.maxSessions && |OfPerson(st, person)| < cfg.perPerson
  }

  lemma OnlyUseRefuses(cfg: Config, st: Store, op: Op, key: AssertionKey, expiry: int)
    requires Presents(op, key, expiry) && OtherwiseFine(cfg, st, op)
    ensures Spends(cfg, st, op, key, expiry) <==> key !in Purged(cfg, st, op.reading.value).used
  {
  }

  /**
   Exactly when an assertion is spent again: presented with nothing else wrong,
   before anything else is spent under its key, it makes a second session if and
   only if a creation attempt in between purged it.
   */
  lemma NextSessionExactly(cfg: Config, ops: seq<Op>, i: nat, j: nat, key: AssertionKey, expiry: int)
    requires SpentAt(cfg, ops, i, key, expiry) && i < j < |ops| && NoneSpent(cfg, ops, i, j, key)
    requires Presents(ops[j], key, expiry) && OtherwiseFine(cfg, Run(cfg, ops[..j]), ops[j])
    ensures SpentAt(cfg, ops, j, key, expiry) <==> PurgedBetween(ops, i, j, expiry)
  {
    HeldExactly(cfg, ops, i, j, key, expiry);
    OnlyUseRefuses(cfg, Run(cfg, ops[..j]), ops[j], key, expiry);
  }

  predicate UsableCreation(op: Op) { op.CreateOp? && Usable(op.reading) }

  /** The usable readings of creation attempts never go back. */
  predicate Nondecreasing(ops: seq<Op>) {
    forall i, j :: 0 <= i < j < |ops| && UsableCreation(ops[i]) && UsableCreation(ops[j]) ==>
                     ops[i].reading.value <= ops[j].reading.value
  }

  /** Under a clock that never goes back, an assertion is turned into a session at most once in any run. */
  lemma AssertionSpentOnce(cfg: Config, ops: seq<Op>, i: nat, j: nat, key: AssertionKey, expiry: int)
    requires Nondecreasing(ops) && SpentAt(cfg, ops, i, key, expiry) && SpentAt(cfg, ops, j, key, expiry)
    ensures i == j
  {
    if i < j {
      SecondSessionNeedsPurge(cfg, ops, i, j, key, expiry);
    } else if j < i {
      SecondSessionNeedsPurge(cfg, ops, j, i, key, expiry);
    }
  }
}
