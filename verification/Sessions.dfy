/**
 The server-side session store: creation from a verified assertion, use,
 role change with rotation, logout, and the purge that bounds it all.
 */
module Sessions {
  import opened Wrappers

  type Digest = string
  type Role = string

  /** Moments and durations are counts of one clock unit. */
  datatype Config = Config(maxAuthAge: int, maxSessions: int, perPerson: int, idle: int, lifetime: int) {
    predicate Valid() {
      0 < maxAuthAge <= 30 * 24 * 60 * 60 && 0 < maxSessions <= 100_000 && 0 < perPerson <= maxSessions
      && 0 < idle <= 24 * 60 * 60 && 0 < lifetime <= 12 * 60 * 60
    }
  }

  datatype Assertion = Assertion(issuer: string, id: string, expiresAt: int, authTime: int)

  datatype AssertionKey = AssertionKey(issuer: string, id: string)

  function KeyOf(a: Assertion): AssertionKey { AssertionKey(a.issuer, a.id) }

  datatype Session = Session(
    digest: Digest, ref: string, verified: Assertion, person: string, role: Option<Role>,
    createdAt: int, lastSeenAt: int, absoluteExpiresAt: int, freshUntil: int)

  /** What the caller gets: the digest of the new handle stands for the handle. */
  datatype Handle = Handle(digest: Digest, ref: string, expiresAt: int)

  datatype SessionRejection =
    | InvalidSession
    | AssertionExpired
    | AuthTooOld
    | AssertionAlreadyUsed
    | AccessDenied
    | RoleSelectionRequired
    | RoleNotAssigned
    | InvalidRole
    | SessionStoreFull
    | PersonSessionLimit
    | ClockUnavailable

  /** What the directory says when a person, or a person's role, is looked up. */
  datatype Resolution = Found(person: string, role: Option<Role>) | RoleUnknown | RoleUnassigned | Denied

  function ResolutionError(r: Resolution): SessionRejection {
    match r
    case RoleUnknown => InvalidRole
    case RoleUnassigned => RoleNotAssigned
    case _ => AccessDenied
  }

  /** What the directory says when an actor is built for a session. */
  datatype ActorLookup = ActorFor(person: string) | MustSelectRole | NotEnrolled | LookupFailed

  datatype Store = Store(sessions: map<Digest, Session>, used: map<AssertionKey, int>)

  const EMPTY := Store(map[], map[])

  predicate Live(cfg: Config, s: Session, now: int) {
    now < s.freshUntil && now < s.absoluteExpiresAt && now - s.lastSeenAt < cfg.idle
  }

  function Purged(cfg: Config, st: Store, now: int): Store {
    Store(map d | d in st.sessions && Live(cfg, st.sessions[d], now) :: st.sessions[d],
          map k | k in st.used && now < st.used[k] :: st.used[k])
  }

  function OfPerson(st: Store, person: string): set<Digest> {
    set d | d in st.sessions && st.sessions[d].person == person
  }

  function Least(a: int, b: int): int { if a < b then a else b }

  function NewSession(cfg: Config, now: int, a: Assertion, person: string, role: Option<Role>, digest: Digest, ref: string): Session {
    Session(digest, ref, a, person, role, now, now, Least(now + cfg.lifetime, a.authTime + cfg.maxAuthAge), a.expiresAt)
  }

  /** A clock reading is usable only if it is positive. */
  predicate Usable(reading: Option<int>) { reading.Some? && reading.value > 0 }

  // ------------------------------------------------------------------
  // The operations, as functions of the store
  // ------------------------------------------------------------------

  datatype Step<T> = Step(store: Store, outcome: Result<T, SessionRejection>)

  function Create(cfg: Config, st: Store, reading: Option<int>, a: Assertion, found: Resolution, digest: Digest, ref: string)
    : Step<Handle>
  {
    if !Usable(reading) then Step(st, Err(ClockUnavailable))
    else
      var now := reading.value;
      var kept := Purged(cfg, st, now);
      if now >= a.expiresAt then Step(kept, Err(AssertionExpired))
      else if now - a.authTime > cfg.maxAuthAge then Step(kept, Err(AuthTooOld))
      else if KeyOf(a) in kept.used then Step(kept, Err(AssertionAlreadyUsed))
      else if !found.Found? then Step(kept, Err(ResolutionError(found)))
      else if |kept.sessions| >= cfg.maxSessions then Step(kept, Err(SessionStoreFull))
      else if |OfPerson(kept, found.person)| >= cfg.perPerson then Step(kept, Err(PersonSessionLimit))
      else
        var s := NewSession(cfg, now, a, found.person, found.role, digest, ref);
        Step(Store(kept.sessions[digest := s], kept.used[KeyOf(a) := a.expiresAt]),
             Ok(Handle(digest, ref, Least(s.absoluteExpiresAt, s.freshUntil))))
  }

  function Without(st: Store, digest: Digest): Store { st.(sessions := st.sessions - {digest}) }

  /** The session behind a handle, if it is live; a session found dead is dropped. */
  function Lookup(cfg: Config, st: Store, handle: Option<Digest>, now: int): Step<Session> {
    if handle.None? || handle.value !in st.sessions then Step(st, Err(InvalidSession))
    else
      var s := st.sessions[handle.value];
      if Live(cfg, s, now) then Step(st, Ok(s)) else Step(Without(st, s.digest), Err(InvalidSession))
  }

  function ActorOf(cfg: Config, st: Store, reading: Option<int>, handle: Option<Digest>, actor: ActorLookup): Step<string> {
    if !Usable(reading) then Step(st, Err(ClockUnavailable))
    else
      var looked := Lookup(cfg, st, handle, reading.value);
      if looked.outcome.Err? then Step(looked.store, Err(looked.outcome.error))
      else
        var s := looked.outcome.value;
        match actor
        case ActorFor(person) =>
          if person != s.person then Step(Without(st, s.digest), Err(AccessDenied))
          else Step(st.(sessions := st.sessions[s.digest := s.(lastSeenAt := reading.value)]), Ok(person))
        case MustSelectRole => Step(st, Err(RoleSelectionRequired))
        case NotEnrolled => Step(Without(st, s.digest), Err(AccessDenied))
        case LookupFailed => Step(st, Err(AccessDenied))
  }

  function SetRole(cfg: Config, st: Store, reading: Option<int>, handle: Option<Digest>, role: Option<Role>, found: Resolution,
                   digest: Digest): Step<Handle>
  {
    if role.None? then Step(st, Err(InvalidRole))
    else if !Usable(reading) then Step(st, Err(ClockUnavailable))
    else
      var looked := Lookup(cfg, st, handle, reading.value);
      if looked.outcome.Err? then Step(looked.store, Err(looked.outcome.error))
      else
        var s := looked.outcome.value;
        if !found.Found? then
          Step(if ResolutionError(found).AccessDenied? then Without(st, s.digest) else st, Err(ResolutionError(found)))
        else if found.person != s.person then Step(Without(st, s.digest), Err(AccessDenied))
        else
          var rotated := s.(digest := digest, role := found.role, lastSeenAt := reading.value);
          Step(st.(sessions := (st.sessions - {s.digest})[digest := rotated]),
               Ok(Handle(digest, s.ref, Least(s.absoluteExpiresAt, s.freshUntil))))
  }

  function Logout(st: Store, handle: Option<Digest>): Store {
    if handle.None? then st else Without(st, handle.value)
  }

  // ------------------------------------------------------------------
  // The store as it runs
  // ------------------------------------------------------------------

  class SessionManager {
    const cfg: Config
    var sessions: map<Digest, Session>
    var used: map<AssertionKey, int>

    constructor (config: Config)
      requires config.Valid()
      ensures cfg == config && State() == EMPTY
    {
      cfg := config;
      sessions := map[];
      used := map[];
    }

    function State(): Store
      reads this
    {
      Store(sessions, used)
    }

    method Purge(now: int)
      modifies this
      ensures State() == Purged(cfg, old(State()), now)
    {
      sessions := map d | d in sessions && Live(cfg, sessions[d], now) :: sessions[d];
      used := map k | k in used && now < used[k] :: used[k];
    }

    method CreateSession(reading: Option<int>, a: Assertion, found: Resolution, digest: Digest, ref: string)
      returns (r: Result<Handle, SessionRejection>)
      requires digest !in sessions
      modifies this
      ensures Step(State(), r) == Create(cfg, old(State()), reading, a, found, digest, ref)
    {
      if !Usable(reading) {
        return Err(ClockUnavailable);
      }
      var now := reading.value;
      Purge(now);
      if now >= a.expiresAt {
        return Err(AssertionExpired);
      }
      if now - a.authTime > cfg.maxAuthAge {
        return Err(AuthTooOld);
      }
      if KeyOf(a) in used {
        return Err(AssertionAlreadyUsed);
      }
      if !found.Found? {
        return Err(ResolutionError(found));
      }
      if |sessions| >= cfg.maxSessions {
        return Err(SessionStoreFull);
      }
      if |OfPerson(State(), found.person)| >= cfg.perPerson {
        return Err(PersonSessionLimit);
      }
      var s := NewSession(cfg, now, a, found.person, found.role, digest, ref);
      sessions := sessions[digest := s];
      used := used[KeyOf(a) := a.expiresAt];
      return Ok(Handle(digest, ref, Least(s.absoluteExpiresAt, s.freshUntil)));
    }

    method LiveSession(handle: Option<Digest>, now: int) returns (r: Result<Session, SessionRejection>)
      modifies this
      ensures Step(State(), r) == Lookup(cfg, old(State()), handle, now)
    {
      if handle.None? || handle.value !in sessions {
        return Err(InvalidSession);
      }
      var s := sessions[handle.value];
      if !Live(cfg, s, now) {
        sessions := sessions - {s.digest};
        return Err(InvalidSession);
      }
      return Ok(s);
    }

    method ActorForHandle(reading: Option<int>, handle: Option<Digest>, actor: ActorLookup)
      returns (r: Result<string, SessionRejection>)
      modifies this
      ensures Step(State(), r) == ActorOf(cfg, old(State()), reading, handle, actor)
    {
      if !Usable(reading) {
        return Err(ClockUnavailable);
      }
      var live := LiveSession(handle, reading.value);
      if live.Err? {
        return Err(live.error);
      }
      var s := live.value;
      var reason, destroy := AccessDenied, false;
      match actor {
        case ActorFor(person) =>
          if person == s.person {
            sessions := sessions[s.digest := s.(lastSeenAt := reading.value)];
            return Ok(person);
          }
          destroy := true;
        case MustSelectRole => reason := RoleSelectionRequired;
        case NotEnrolled => destroy := true;
        case LookupFailed =>
      }
      if destroy {
        sessions := sessions - {s.digest};
      }
      return Err(reason);
    }

    method SelectRole(reading: Option<int>, handle: Option<Digest>, role: Option<Role>, found: Resolution, digest: Digest)
      returns (r: Result<Handle, SessionRejection>)
      requires digest !in sessions
      modifies this
      ensures Step(State(), r) == SetRole(cfg, old(State()), reading, handle, role, found, digest)
    {
      if role.None? {
        return Err(InvalidRole);
      }
      if !Usable(reading) {
        return Err(ClockUnavailable);
      }
      var live := LiveSession(handle, reading.value);
      if live.Err? {
        return Err(live.error);
      }
      var s := live.value;
      if !found.Found? {
        if ResolutionError(found).AccessDenied? {
          sessions := sessions - {s.digest};
        }
        return Err(ResolutionError(found));
      }
      if found.person != s.person {
        sessions := sessions - {s.digest};
        return Err(AccessDenied);
      }
      sessions := sessions - {s.digest};
      var rotated := s.(digest := digest, role := found.role, lastSeenAt := reading.value);
      sessions := sessions[digest := rotated];
      return Ok(Handle(digest, rotated.ref, Least(rotated.absoluteExpiresAt, rotated.freshUntil)));
    }

    method EndSession(handle: Option<Digest>)
      modifies this
      ensures State() == Logout(old(State()), handle)
    {
      if handle.Some? {
        sessions := sessions - {handle.value};
      }
    }
  }
}
