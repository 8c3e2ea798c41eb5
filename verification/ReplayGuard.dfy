/**
 Identity assertions and the bounded guard that keeps one from being accepted
 twice.
 */
module ReplayGuard {
  import opened Wrappers

  datatype Key = Key(issuer: string, jti: string)

  type Entries = map<Key, int>

  datatype GuardRefusal = ReplayDetected | ReplayGuardFull

  datatype Config = Config(issuer: string, tolerance: int, maxLifetime: int, capacity: int) {
    predicate Valid() { 0 <= tolerance && 0 < maxLifetime && 0 < capacity }
  }

  /** The claims the clock and the guard depend on; the two flags stand for the checks made before and after the clock is read. */
  datatype Claims = Claims(
    issuer: string, jti: string, issuedAt: int, expiresAt: int, authTime: int, notBefore: Option<int>,
    admissible: bool, identified: bool)

  datatype Rejection =
    | WrongIssuer
    | Inadmissible
    | InvalidTemporalClaims
    | LifetimeTooLong
    | ClockUnavailable
    | IssuedInFuture
    | NotYetValid
    | Expired
    | Unidentified
    | Replayed
    | GuardFull

  // ------------------------------------------------------------------
  // The guard
  // ------------------------------------------------------------------

  function Purged(entries: Entries, now: int): Entries { map k | k in entries && now < entries[k] :: entries[k] }

  datatype Checked = Checked(entries: Entries, outcome: Outcome<GuardRefusal>)

  function CheckAndRecord(capacity: int, entries: Entries, key: Key, until: int, now: int): Checked {
    var live := Purged(entries, now);
    if key in live then Checked(live, Fail(ReplayDetected))
    else if |live| >= capacity then Checked(live, Fail(ReplayGuardFull))
    else Checked(live[key := until], Pass)
  }

  class InMemoryReplayGuard {
    const capacity: int
    var entries: Entries

    constructor (size: int)
      requires size > 0
      ensures capacity == size && entries == map[]
    {
      capacity := size;
      entries := map[];
    }

    method Record(key: Key, until: int, now: int) returns (r: Outcome<GuardRefusal>)
      modifies this
      ensures Checked(entries, r) == CheckAndRecord(capacity, old(entries), key, until, now)
    {
      entries := map k | k in entries && now < entries[k] :: entries[k];
      if key in entries {
        return Fail(ReplayDetected);
      }
      if |entries| >= capacity {
        return Fail(ReplayGuardFull);
      }
      entries := entries[key := until];
      return Pass;
    }
  }

  // ------------------------------------------------------------------
  // The verifier
  // ------------------------------------------------------------------

  /** Every check that does not touch the guard, in the order they are made. */
  function ClaimsRefusal(cfg: Config, c: Claims, reading: Option<int>): Option<Rejection> {
    if c.issuer != cfg.issuer then Some(WrongIssuer)
    else if !c.admissible then Some(Inadmissible)
    else if c.issuedAt <= 0 || c.authTime <= 0 || c.expiresAt <= c.issuedAt || c.authTime > c.issuedAt + cfg.tolerance then
      Some(InvalidTemporalClaims)
    else if c.notBefore.Some? && !(c.issuedAt <= c.notBefore.value < c.expiresAt) then Some(InvalidTemporalClaims)
    else if c.expiresAt - c.issuedAt > cfg.maxLifetime then Some(LifetimeTooLong)
    else if reading.None? || reading.value <= 0 then Some(ClockUnavailable)
    else if c.issuedAt > reading.value + cfg.tolerance then Some(IssuedInFuture)
    else if c.notBefore.Some? && c.notBefore.value > reading.value + cfg.tolerance then Some(NotYetValid)
    else if reading.value >= c.expiresAt + cfg.tolerance then Some(Expired)
    else if !c.identified then Some(Unidentified)
    else None
  }

  datatype Verified = Verified(entries: Entries, outcome: Outcome<Rejection>)

  function GuardKey(c: Claims): Key { Key(c.issuer, c.jti) }

  /** Only an otherwise valid assertion reaches the guard. */
  function Verify(cfg: Config, entries: Entries, c: Claims, reading: Option<int>): Verified {
    var refusal := ClaimsRefusal(cfg, c, reading);
    if refusal.Some? then Verified(entries, Fail(refusal.value))
    else
      var checked := CheckAndRecord(cfg.capacity, entries, GuardKey(c), c.expiresAt + cfg.tolerance, reading.value);
      Verified(checked.entries,
               if checked.outcome.Pass? then Pass
               else if checked.outcome.error.ReplayDetected? then Fail(Replayed)
               else Fail(GuardFull))
  }

  method VerifyAssertion(cfg: Config, guard: InMemoryReplayGuard, c: Claims, reading: Option<int>) returns (r: Outcome<Rejection>)
    requires guard.capacity == cfg.capacity
    modifies guard
    ensures Verified(guard.entries, r) == Verify(cfg, old(guard.entries), c, reading)
  {
    var refusal := ClaimsRefusal(cfg, c, reading);
    if refusal.Some? {
      return Fail(refusal.value);
    }
    var recorded := guard.Record(GuardKey(c), c.expiresAt + cfg.tolerance, reading.value);
    if recorded.Pass? {
      return Pass;
    }
    return if recorded.error.ReplayDetected? then Fail(Replayed) else Fail(GuardFull);
  }

  // ------------------------------------------------------------------
  // Whole runs
  // ------------------------------------------------------------------

  datatype Attempt = Attempt(claims: Claims, reading: Option<int>)

  function Run(cfg: Config, attempts: seq<Attempt>): Entries {
    if attempts == [] then map[]
    else
      var last := attempts[|attempts| - 1];
      Verify(cfg, Run(cfg, attempts[..|attempts| - 1]), last.claims, last.reading).entries
  }

  predicate AcceptedAt(cfg: Config, attempts: seq<Attempt>, i: nat) {
    i < |attempts| && Verify(cfg, Run(cfg, attempts[..i]), attempts[i].claims, attempts[i].reading).outcome.Pass?
  }

  lemma PurgedFits(entries: Entries, now: int)
    ensures |Purged(entries, now)| <= |entries|
  {
    var kept, all := Purged(entries, now).Keys, entries.Keys;
    assert all == kept + (all - kept);
    assert |kept| == |Purged(entries, now)| && |all| == |entries|;
  }

  /** In every run, whatever the clock does, the guard never holds more than its capacity. */
  lemma {:induction false} CapacityHolds(cfg: Config, attempts: seq<Attempt>)
    requires cfg.Valid()
    ensures |Run(cfg, attempts)| <= cfg.capacity
  {
    if attempts != [] {
      var front, last := attempts[..|attempts| - 1], attempts[|attempts| - 1];
      CapacityHolds(cfg, front);
      if last.reading.Some? {
        PurgedFits(Run(cfg, front), last.reading.value);
      }
    }
  }

  /** Nothing but the guard can still refuse the attempt. */
  predicate ReachesGuard(cfg: Config, a: Attempt) { ClaimsRefusal(cfg, a.claims, a.reading).None? }

  predicate Until(cfg: Config, c: Claims, key: Key, until: int) { GuardKey(c) == key && c.expiresAt + cfg.tolerance == until }

  /** The same issuer, identifier and expiry. */
  predicate SameAssertion(a: Claims, b: Claims) { GuardKey(a) == GuardKey(b) && a.expiresAt == b.expiresAt }

  predicate ReadsPast(cfg: Config, a: Attempt, until: int) { ReachesGuard(cfg, a) && until <= a.reading.value }

  /** Some attempt strictly between the two made the guard purge everything held until then. */
  predicate PurgedBetween(cfg: Config, attempts: seq<Attempt>, i: nat, j: nat, until: int) {
    exists k :: i < k < j && k < |attempts| && ReadsPast(cfg, attempts[k], until)
  }

  lemma PurgedNext(cfg: Config, attempts: seq<Attempt>, i: nat, n: nat, until: int)
    requires i < n < |attempts|
    ensures PurgedBetween(cfg, attempts, i, n + 1, until) <==>
            PurgedBetween(cfg, attempts, i, n, until) || ReadsPast(cfg, attempts[n], until)
  {
  }

  lemma RunNext(cfg: Config, attempts: seq<Attempt>, n: nat)
    requires n < |attempts|
    ensures Run(cfg, attempts[..n + 1]) == Verify(cfg, Run(cfg, attempts[..n]), attempts[n].claims, attempts[n].reading).entries
  {
    assert attempts[..n + 1][..n] == attempts[..n];
  }

  lemma HeldUntil(cfg: Config, entries: Entries, a: Attempt, key: Key, until: int)
    requires key in entries && entries[key] == until
    ensures var v := Verify(cfg, entries, a.claims, a.reading);
            !ReadsPast(cfg, a, until) ==> key in v.entries && v.entries[key] == until
    ensures Until(cfg, a.claims, key, until) ==> !Verify(cfg, entries, a.claims, a.reading).outcome.Pass?
  {
  }

  predicate HeldIn(entries: Entries, key: Key, until: int) { key in entries && entries[key] == until }

  /** An accepted assertion stays held until some later attempt purges it. */
  lemma {:induction false} HeldOrPurged(cfg: Config, attempts: seq<Attempt>, i: nat, n: nat, key: Key, until: int)
    requires AcceptedAt(cfg, attempts, i) && i < n <= |attempts| && Until(cfg, attempts[i].claims, key, until)
    ensures HeldIn(Run(cfg, attempts[..n]), key, until) || PurgedBetween(cfg, attempts, i, n, until)
  {
    RunNext(cfg, attempts, n - 1);
    if n > i + 1 {
      HeldOrPurged(cfg, attempts, i, n - 1, key, until);
      PurgedNext(cfg, attempts, i, n - 1, until);
      if HeldIn(Run(cfg, attempts[..n - 1]), key, until) {
        HeldUntil(cfg, Run(cfg, attempts[..n - 1]), attempts[n - 1], key, until);
      }
    }
  }

  /**
   Whatever the clock does, an assertion is accepted a second time only if some
   attempt in between reached the guard at or past its expiry and tolerance.
   */
  lemma SecondAcceptanceNeedsPurge(cfg: Config, attempts: seq<Attempt>, i: nat, j: nat, until: int)
    requires AcceptedAt(cfg, attempts, i) && AcceptedAt(cfg, attempts, j) && i < j
    requires SameAssertion(attempts[i].claims, attempts[j].claims) && until == attempts[i].claims.expiresAt + cfg.tolerance
    ensures PurgedBetween(cfg, attempts, i, j, until)
  {
    var key := GuardKey(attempts[i].claims);
    HeldOrPurged(cfg, attempts, i, j, key, until);
    if HeldIn(Run(cfg, attempts[..j]), key, until) {
      HeldUntil(cfg, Run(cfg, attempts[..j]), attempts[j], key, until);
    }
  }

  /** No attempt strictly between the two is accepted under the key, with any expiry. */
  predicate NoneAccepted(cfg: Config, attempts: seq<Attempt>, i: nat, j: nat, key: Key) {
    forall k :: i < k < j && AcceptedAt(cfg, attempts, k) ==> GuardKey(attempts[k].claims) != key
  }

  /** Without another acceptance under its key, an assertion is forgotten exactly when it has been purged. */
  lemma {:induction false} HeldExactly(cfg: Config, attempts: seq<Attempt>, i: nat, n: nat, key: Key, until: int)
    requires AcceptedAt(cfg, attempts, i) && i < n <= |attempts| && Until(cfg, attempts[i].claims, key, until)
    requires NoneAccepted(cfg, attempts, i, n, key)
    ensures key in Run(cfg, attempts[..n]) <==> !PurgedBetween(cfg, attempts, i, n, until)
    ensures key in Run(cfg, attempts[..n]) ==> HeldIn(Run(cfg, attempts[..n]), key, until)
  {
    RunNext(cfg, attempts, n - 1);
    if n > i + 1 {
      HeldExactly(cfg, attempts, i, n - 1, key, until);
      PurgedNext(cfg, attempts, i, n - 1, until);
      OneAttempt(cfg, Run(cfg, attempts[..n - 1]), attempts[n - 1], key, until);
      assert AcceptedAt(cfg, attempts, n - 1) ==> GuardKey(attempts[n - 1].claims) != key;
    }
  }

  lemma OneAttempt(cfg: Config, entries: Entries, a: Attempt, key: Key, until: int)
    requires key in entries ==> entries[key] == until
    requires Verify(cfg, entries, a.claims, a.reading).outcome.Pass? ==> GuardKey(a.claims) != key
    ensures var v := Verify(cfg, entries, a.claims, a.reading);
            (key in v.entries <==> key in entries && !ReadsPast(cfg, a, until)) && (key in v.entries ==> v.entries[key] == until)
  {
  }

  /** The guard has room for one more entry at this attempt. */
  predicate HasRoom(cfg: Config, entries: Entries, a: Attempt) {
    a.reading.Some? && |Purged(entries, a.reading.value)| < cfg.capacity
  }

  /**
   Exactly when a replay gets through: presented again before anything else is
   accepted under its key, and with room in the guard, an otherwise valid
   assertion is accepted if and only if an attempt in between purged it.
   */
  lemma NextAcceptanceExactly(cfg: Config, attempts: seq<Attempt>, i: nat, j: nat, key: Key, until: int)
    requires AcceptedAt(cfg, attempts, i) && i < j < |attempts| && NoneAccepted(cfg, attempts, i, j, key)
    requires Until(cfg, attempts[i].claims, key, until) && Until(cfg, attempts[j].claims, key, until)
    requires ReachesGuard(cfg, attempts[j]) && HasRoom(cfg, Run(cfg, attempts[..j]), attempts[j])
    ensures AcceptedAt(cfg, attempts, j) <==> PurgedBetween(cfg, attempts, i, j, until)
  {
    HeldExactly(cfg, attempts, i, j, key, until);
    if HeldIn(Run(cfg, attempts[..j]), key, until) {
      HeldUntil(cfg, Run(cfg, attempts[..j]), attempts[j], key, until);
    }
  }

  /** The right issuer and every fixed claim in order, within the lifetime allowed, at a moment the tolerance lets the claims cover. */
  predicate Covers(cfg: Config, c: Claims, now: int) {
    && c.issuer == cfg.issuer && c.admissible && c.identified
    && 0 < c.issuedAt < c.expiresAt <= c.issuedAt + cfg.maxLifetime
    && 0 < c.authTime <= c.issuedAt + cfg.tolerance
    && c.issuedAt - cfg.tolerance <= now < c.expiresAt + cfg.tolerance
    && (c.notBefore.Some? ==>
          c.issuedAt <= c.notBefore.value < c.expiresAt && c.notBefore.value - cfg.tolerance <= now)
  }

  /** In every run an attempt is accepted exactly if its claims cover a usable reading, its key is not held then, and there is room. */
  lemma AcceptedExactly(cfg: Config, attempts: seq<Attempt>, i: nat)
    requires i < |attempts|
    ensures var a, entries := attempts[i], Run(cfg, attempts[..i]);
            AcceptedAt(cfg, attempts, i) <==>
            && a.reading.Some? && a.reading.value > 0
            && Covers(cfg, a.claims, a.reading.value)
            && !(GuardKey(a.claims) in entries && a.reading.value < entries[GuardKey(a.claims)])
            && HasRoom(cfg, entries, a)
  {
    OutcomeExactly(cfg, Run(cfg, attempts[..i]), attempts[i]);
  }

  lemma OutcomeExactly(cfg: Config, entries: Entries, a: Attempt)
    ensures Verify(cfg, entries, a.claims, a.reading).outcome.Pass? <==>
            && a.reading.Some? && a.reading.value > 0
            && Covers(cfg, a.claims, a.reading.value)
            && !(GuardKey(a.claims) in entries && a.reading.value < entries[GuardKey(a.claims)])
            && HasRoom(cfg, entries, a)
  {
  }

  /** The readings at which the guard is reached never go back. */
  predicate Nondecreasing(cfg: Config, attempts: seq<Attempt>) {
    forall i, j :: 0 <= i < j < |attempts| && ReachesGuard(cfg, attempts[i]) && ReachesGuard(cfg, attempts[j]) ==>
                     attempts[i].reading.value <= attempts[j].reading.value
  }

  /** While readings never go back at the guard, one assertion is accepted at most once in the whole run. */
  lemma AcceptedAtMostOnce(cfg: Config, attempts: seq<Attempt>, i: nat, j: nat)
    requires Nondecreasing(cfg, attempts) && AcceptedAt(cfg, attempts, i) && AcceptedAt(cfg, attempts, j)
    requires SameAssertion(attempts[i].claims, attempts[j].claims)
    ensures i == j
  {
    var until := attempts[i].claims.expiresAt + cfg.tolerance;
    if i < j {
      SecondAcceptanceNeedsPurge(cfg, attempts, i, j, until);
    } else if j < i {
      SecondAcceptanceNeedsPurge(cfg, attempts, j, i, until);
    }
  }

  /**
   The clock assumption is needed: if another assertion is verified at a reading
   past the first one's expiry, and the clock then goes back, the first one is
   accepted a second time.
   */
  lemma ClockGoingBackReplays(cfg: Config, c: Claims, d: Claims, early: int, late: int)
    requires cfg.capacity >= 2 && GuardKey(c) != GuardKey(d)
    requires ClaimsRefusal(cfg, c, Some(early)).None? && ClaimsRefusal(cfg, d, Some(late)).None?
    requires c.expiresAt + cfg.tolerance <= late
    ensures var attempts := [Attempt(c, Some(early)), Attempt(d, Some(late)), Attempt(c, Some(early))];
            AcceptedAt(cfg, attempts, 0) && AcceptedAt(cfg, attempts, 2) && !Nondecreasing(cfg, attempts)
  {
    var a0, a1 := Attempt(c, Some(early)), Attempt(d, Some(late));
    var attempts := [a0, a1, a0];
    assert attempts[..0] == [] && attempts[..1] == [a0] && attempts[..2] == [a0, a1];
    assert [a0][..0] == [] && [a0, a1][..1] == [a0];
    var one := map[GuardKey(c) := c.expiresAt + cfg.tolerance];
    assert Purged(map[], early) == map[];
    assert Run(cfg, [a0]) == one;
    assert Purged(one, late) == map[];
    var two := map[GuardKey(d) := d.expiresAt + cfg.tolerance];
    assert Run(cfg, [a0, a1]) == two;
    PurgedFits(two, early);
    assert |two| == 1;
    assert ReachesGuard(cfg, attempts[1]) && ReachesGuard(cfg, attempts[2]);
  }
}
