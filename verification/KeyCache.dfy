/**
 The cached set of trusted keys: refreshed through a fetch that may fail, never
 fetched too often, never used when stale.
 */
module KeyCache {
  import opened Wrappers

  type KeySet = map<string, string>

  /** What the transport delivers: a parsed key set, or nothing usable. */
  type Delivery = Option<KeySet>

  datatype Config = Config(maxAge: int, minRefetch: int) {
    predicate Valid() { 0 < maxAge <= 3600 && 0 < minRefetch <= maxAge }
  }

  /** A successful fetch and when it was made. */
  datatype Fetched = Fetched(at: int, keys: KeySet)

  datatype Cache = Cache(current: Option<Fetched>, lastAttemptAt: Option<int>)

  const EMPTY := Cache(None, None)

  datatype Refusal = KeySetUnavailable

  predicate IsFresh(cfg: Config, c: Cache, now: int) { c.current.Some? && now - c.current.value.at <= cfg.maxAge }

  predicate MayAttempt(cfg: Config, c: Cache, now: int) {
    c.lastAttemptAt.None? || now - c.lastAttemptAt.value >= cfg.minRefetch
  }

  function Refreshed(c: Cache, now: int, delivery: Delivery): Cache {
    Cache(if delivery.Some? then Some(Fetched(now, delivery.value)) else c.current, Some(now))
  }

  function Find(c: Cache, kid: string): Option<string>
    requires c.current.Some?
  {
    if kid in c.current.value.keys then Some(c.current.value.keys[kid]) else None
  }

  /** A fetch made at a reading, and what it delivered. */
  datatype Fetch = Fetch(at: int, delivery: Delivery)

  datatype Got = Got(cache: Cache, answer: Result<Option<string>, Refusal>, fetches: seq<Fetch>)

  /** The two deliveries are what the transport would return to a first and to a second fetch. */
  function GetKey(cfg: Config, c: Cache, now: int, kid: string, first: Delivery, second: Delivery): Got {
    var early := !IsFresh(cfg, c, now) && MayAttempt(cfg, c, now);
    var c1 := if early then Refreshed(c, now, first) else c;
    var made := if early then [Fetch(now, first)] else [];
    if !IsFresh(cfg, c1, now) then Got(c1, Err(KeySetUnavailable), made)
    else if Find(c1, kid).Some? then Got(c1, Ok(Find(c1, kid)), made)
    else if MayAttempt(cfg, c1, now) then
      var c2 := Refreshed(c1, now, second);
      Got(c2, Ok(if IsFresh(cfg, c2, now) then Find(c2, kid) else None), made + [Fetch(now, second)])
    else Got(c1, Ok(None), made)
  }

  class CachingJwksProvider {
    const cfg: Config
    var current: Option<Fetched>
    var lastAttemptAt: Option<int>

    constructor (config: Config)
      requires config.Valid()
      ensures cfg == config && State() == EMPTY
    {
      cfg := config;
      current := None;
      lastAttemptAt := None;
    }

    function State(): Cache
      reads this
    {
      Cache(current, lastAttemptAt)
    }

    method Refresh(now: int, delivery: Delivery)
      modifies this
      ensures State() == Refreshed(old(State()), now, delivery)
    {
      lastAttemptAt := Some(now);
      if delivery.Some? {
        current := Some(Fetched(now, delivery.value));
      }
    }

    method Get(now: int, kid: string, first: Delivery, second: Delivery)
      returns (answer: Result<Option<string>, Refusal>, fetches: seq<Fetch>)
      modifies this
      ensures Got(State(), answer, fetches) == GetKey(cfg, old(State()), now, kid, first, second)
    {
      fetches := [];
      if !IsFresh(cfg, State(), now) && MayAttempt(cfg, State(), now) {
        Refresh(now, first);
        fetches := fetches + [Fetch(now, first)];
      }
      if !IsFresh(cfg, State(), now) {
        return Err(KeySetUnavailable), fetches;
      }
      var found := Find(State(), kid);
      if found.Some? {
        return Ok(found), fetches;
      }
      if MayAttempt(cfg, State(), now) {
        Refresh(now, second);
        fetches := fetches + [Fetch(now, second)];
        if IsFresh(cfg, State(), now) {
          return Ok(Find(State(), kid)), fetches;
        }
      }
      return Ok(None), fetches;
    }
  }

  // ------------------------------------------------------------------
  // Whole runs
  // ------------------------------------------------------------------

  datatype Call = Call(now: int, kid: string, first: Delivery, second: Delivery)

  function Answered(cfg: Config, c: Cache, call: Call): Got { GetKey(cfg, c, call.now, call.kid, call.first, call.second) }

  function Run(cfg: Config, calls: seq<Call>): Cache {
    if calls == [] then EMPTY else Answered(cfg, Run(cfg, calls[..|calls| - 1]), calls[|calls| - 1]).cache
  }

  /** Every fetch of a run, in the order they are made. */
  function Fetches(cfg: Config, calls: seq<Call>): seq<Fetch> {
    if calls == [] then []
    else
      var front, last := calls[..|calls| - 1], calls[|calls| - 1];
      Fetches(cfg, front) + Answered(cfg, Run(cfg, front), last).fetches
  }

  /** One lookup fetches at most once, at its own reading, and only when an attempt is due. */
  lemma AtMostOneFetch(cfg: Config, c: Cache, call: Call)
    requires cfg.Valid()
    ensures var g := Answered(cfg, c, call);
            && |g.fetches| <= 1
            && (g.fetches != [] ==> g.fetches[0].at == call.now && MayAttempt(cfg, c, call.now) && g.cache.lastAttemptAt == Some(call.now))
            && (g.fetches == [] ==> g.cache == c)
  {
  }

  predicate Spaced(cfg: Config, fs: seq<Fetch>) { forall i :: 0 <= i < |fs| - 1 ==> GapAt(cfg, fs, i) }

  predicate GapAt(cfg: Config, fs: seq<Fetch>, i: nat)
    requires i + 1 < |fs|
  {
    fs[i].at + cfg.minRefetch <= fs[i + 1].at
  }

  /** Any two fetches of a run are at least the minimum interval apart, whatever the clock does. */
  lemma {:induction false} FetchesSpaced(cfg: Config, calls: seq<Call>)
    requires cfg.Valid()
    ensures Spaced(cfg, Fetches(cfg, calls))
    ensures Run(cfg, calls).lastAttemptAt ==
            if Fetches(cfg, calls) == [] then None else Some(Fetches(cfg, calls)[|Fetches(cfg, calls)| - 1].at)
  {
    if calls != [] {
      var front, last := calls[..|calls| - 1], calls[|calls| - 1];
      FetchesSpaced(cfg, front);
      AtMostOneFetch(cfg, Run(cfg, front), last);
      var before, more := Fetches(cfg, front), Answered(cfg, Run(cfg, front), last).fetches;
      forall i | 0 <= i < |before + more| - 1 ensures GapAt(cfg, before + more, i) {
        if i < |before| - 1 { assert GapAt(cfg, before, i); }
      }
    }
  }

  /** How many fetches fall between two readings, both included. */
  function CountBetween(fs: seq<Fetch>, from: int, to: int): nat {
    if fs == [] then 0
    else CountBetween(fs[..|fs| - 1], from, to) + (if from <= fs[|fs| - 1].at <= to then 1 else 0)
  }

  /** So many fetches need so many gaps. */
  predicate Fit(count: int, gap: int, length: int) { count <= 0 || (count - 1) * gap <= length }

  lemma {:induction false} SpacedCount(cfg: Config, fs: seq<Fetch>, from: int, to: int)
    requires cfg.Valid() && Spaced(cfg, fs) && from <= to
    ensures Fit(CountBetween(fs, from, to), cfg.minRefetch, to - from)
    ensures fs != [] && from <= fs[|fs| - 1].at <= to ==>
              Fit(CountBetween(fs, from, to), cfg.minRefetch, fs[|fs| - 1].at - from)
    ensures fs != [] && fs[|fs| - 1].at < from ==> CountBetween(fs, from, to) == 0
  {
    if fs != [] {
      var n := |fs| - 1;
      var front := fs[..n];
      forall i | 0 <= i < |front| - 1 ensures GapAt(cfg, front, i) { assert GapAt(cfg, fs, i); }
      SpacedCount(cfg, front, from, to);
      if n > 0 {
        assert GapAt(cfg, fs, n - 1);
        OneMore(CountBetween(front, from, to), cfg.minRefetch);
      }
    }
  }

  lemma OneMore(count: nat, gap: int)
    requires gap > 0
    ensures count > 0 ==> (count + 1 - 1) * gap == (count - 1) * gap + gap
  {
  }

  lemma FitIsBound(count: nat, gap: int, length: nat)
    requires gap > 0 && Fit(count, gap, length)
    ensures count <= length / gap + 1
  {
    var q, r := length / gap, length % gap;
    assert length == q * gap + r && r < gap;
    assert (q + 1) * gap == q * gap + gap;
    if count - 1 > q {
      MoreGaps(count - 1, q + 1, gap);
    }
  }

  lemma MoreGaps(a: int, b: int, gap: int)
    requires b <= a && gap > 0
    ensures b * gap <= a * gap
  {
    var d := a - b;
    assert d * gap >= 0;
    assert a * gap == b * gap + d * gap;
  }

  /** A run makes at most T / minRefetch + 1 fetches in any interval of length T. */
  lemma FetchRateBounded(cfg: Config, calls: seq<Call>, from: int, length: nat)
    requires cfg.Valid()
    ensures CountBetween(Fetches(cfg, calls), from, from + length) <= length / cfg.minRefetch + 1
  {
    FetchesSpaced(cfg, calls);
    SpacedCount(cfg, Fetches(cfg, calls), from, from + length);
    FitIsBound(CountBetween(Fetches(cfg, calls), from, from + length), cfg.minRefetch, length);
  }

  // ------------------------------------------------------------------
  // Which keys are used
  // ------------------------------------------------------------------

  /** The last fetch that delivered a key set. */
  function LastSuccess(fs: seq<Fetch>): Option<Fetched> {
    if fs == [] then None
    else
      var last := fs[|fs| - 1];
      if last.delivery.Some? then Some(Fetched(last.at, last.delivery.value)) else LastSuccess(fs[..|fs| - 1])
  }

  lemma LastSuccessOfOneMore(before: seq<Fetch>, f: Fetch)
    ensures LastSuccess(before + [f]) == if f.delivery.Some? then Some(Fetched(f.at, f.delivery.value)) else LastSuccess(before)
  {
    assert (before + [f])[..|before|] == before;
  }

  /** A lookup leaves the cached set as its fetch, if it makes one that delivers, and otherwise as it was. */
  lemma CacheAfterLookup(cfg: Config, c: Cache, call: Call, g: Got)
    requires cfg.Valid() && g == Answered(cfg, c, call)
    ensures g.fetches == [] ==> g.cache.current == c.current
    ensures |g.fetches| == 1 ==>
              g.cache.current ==
              if g.fetches[0].delivery.Some? then Some(Fetched(g.fetches[0].at, g.fetches[0].delivery.value)) else c.current
  {
  }

  /** The cache always holds the last successful fetch, however many failed after it. */
  lemma {:induction false} CacheIsLastSuccess(cfg: Config, calls: seq<Call>)
    requires cfg.Valid()
    ensures Run(cfg, calls).current == LastSuccess(Fetches(cfg, calls))
  {
    if calls != [] {
      var front, last := calls[..|calls| - 1], calls[|calls| - 1];
      CacheIsLastSuccess(cfg, front);
      var before, g := Fetches(cfg, front), Answered(cfg, Run(cfg, front), last);
      AtMostOneFetch(cfg, Run(cfg, front), last);
      CacheAfterLookup(cfg, Run(cfg, front), last, g);
      if g.fetches == [] {
        assert before + g.fetches == before;
      } else {
        assert g.fetches == [g.fetches[0]];
        LastSuccessOfOneMore(before, g.fetches[0]);
      }
    }
  }

  /** Every attempt so far is at least the minimum interval old. */
  predicate Due(cfg: Config, made: seq<Fetch>, now: int) { made == [] || now - made[|made| - 1].at >= cfg.minRefetch }

  /** There is no key set, or the one there is has passed the maximum age. */
  predicate Stale(cfg: Config, made: seq<Fetch>, now: int) {
    LastSuccess(made).None? || now - LastSuccess(made).value.at > cfg.maxAge
  }

  /** The key set in use is in time and lacks the key. */
  predicate Lacks(cfg: Config, made: seq<Fetch>, now: int, kid: string) {
    !Stale(cfg, made, now) && kid !in LastSuccess(made).value.keys
  }

  lemma LookupFetches(cfg: Config, c: Cache, made: seq<Fetch>, call: Call)
    requires cfg.Valid() && c.current == LastSuccess(made)
    requires c.lastAttemptAt == if made == [] then None else Some(made[|made| - 1].at)
    ensures Answered(cfg, c, call).fetches ==
            if !Due(cfg, made, call.now) then []
            else if Stale(cfg, made, call.now) then [Fetch(call.now, call.first)]
            else if Lacks(cfg, made, call.now, call.kid) then [Fetch(call.now, call.second)]
            else []
  {
  }

  /**
   In every run a lookup makes a fetch exactly when one is due and the last
   successful fetch is missing, too old, or without the key asked for.
   */
  lemma FetchesExactly(cfg: Config, calls: seq<Call>)
    requires cfg.Valid() && calls != []
    ensures var made, last := Fetches(cfg, calls[..|calls| - 1]), calls[|calls| - 1];
            Fetches(cfg, calls) == made +
            if !Due(cfg, made, last.now) then []
            else if Stale(cfg, made, last.now) then [Fetch(last.now, last.first)]
            else if Lacks(cfg, made, last.now, last.kid) then [Fetch(last.now, last.second)]
            else []
  {
    var front := calls[..|calls| - 1];
    FetchesSpaced(cfg, front);
    CacheIsLastSuccess(cfg, front);
    LookupFetches(cfg, Run(cfg, front), Fetches(cfg, front), calls[|calls| - 1]);
  }

  /**
   So a key published after the set in use was fetched is found at the first
   lookup for it that is due, however fresh that set still is.
   */
  lemma PublishedKeyIsFound(cfg: Config, calls: seq<Call>)
    requires cfg.Valid() && calls != []
    requires var made, last := Fetches(cfg, calls[..|calls| - 1]), calls[|calls| - 1];
             Due(cfg, made, last.now) && Lacks(cfg, made, last.now, last.kid) && last.second.Some? && last.kid in last.second.value
    ensures LastAnswer(cfg, calls) == Ok(Some(calls[|calls| - 1].second.value[calls[|calls| - 1].kid]))
  {
    var made, last := Fetches(cfg, calls[..|calls| - 1]), calls[|calls| - 1];
    FetchesExactly(cfg, calls);
    LastSuccessOfOneMore(made, Fetch(last.now, last.second));
    AnswersAreFresh(cfg, calls);
  }

  function LastAnswer(cfg: Config, calls: seq<Call>): Result<Option<string>, Refusal>
    requires calls != []
  {
    Answered(cfg, Run(cfg, calls[..|calls| - 1]), calls[|calls| - 1]).answer
  }

  /**
   In every run a lookup answers exactly when the last successful fetch is no
   older than the maximum age, and answers with that fetch's own key.
   */
  lemma AnswersAreFresh(cfg: Config, calls: seq<Call>)
    requires cfg.Valid() && calls != []
    ensures var last, success := calls[|calls| - 1], LastSuccess(Fetches(cfg, calls));
            && (LastAnswer(cfg, calls).Ok? <==> success.Some? && last.now - success.value.at <= cfg.maxAge)
            && (LastAnswer(cfg, calls).Ok? ==>
                  LastAnswer(cfg, calls).value ==
                  if last.kid in success.value.keys then Some(success.value.keys[last.kid]) else None)
  {
    CacheIsLastSuccess(cfg, calls);
    AnswerMatchesCache(cfg, Run(cfg, calls[..|calls| - 1]), calls[|calls| - 1]);
  }

  lemma AnswerMatchesCache(cfg: Config, c: Cache, call: Call)
    requires cfg.Valid()
    ensures var g := Answered(cfg, c, call);
            && (g.answer.Ok? <==> IsFresh(cfg, g.cache, call.now))
            && (g.answer.Ok? ==> g.answer.value == Find(g.cache, call.kid))
  {
  }

  /** Readings never go back. */
  predicate Nondecreasing(calls: seq<Call>) { forall i, j :: 0 <= i <= j < |calls| ==> calls[i].now <= calls[j].now }

  /** When readings never go back, the fetch an answer comes from was made in the past. */
  lemma {:induction false} FetchesAreInThePast(cfg: Config, calls: seq<Call>)
    requires cfg.Valid() && Nondecreasing(calls) && calls != []
    ensures forall i :: 0 <= i < |Fetches(cfg, calls)| ==> Fetches(cfg, calls)[i].at <= calls[|calls| - 1].now
  {
    var front, last := calls[..|calls| - 1], calls[|calls| - 1];
    AtMostOneFetch(cfg, Run(cfg, front), last);
    if front != [] {
      FetchesAreInThePast(cfg, front);
    }
  }
}
