/**
 The snapshot builder's side of the clocks: unrolling the published readings,
 weaving in passing times at unlisted stations, and why the texts it writes
 resolve to the very minutes it computed.
 */
module SnapshotClocks {
  import opened Wrappers
  import opened ClockLift
  import opened ClockText

  /** The builder's own unrolling, without bounds. */
  method Unwrap(events: seq<int>) returns (out: seq<int>)
    ensures out == Unwound(events)
  {
    out := [];
    var day := 0;
    for i := 0 to |events|
      invariant out == Unwound(events)[..i]
      invariant day == if i == 0 then 0 else DayOf(events, i - 1)
    {
      if out != [] && events[i] + day * DAY < out[|out| - 1] {
        day := day + 1;
      }
      assert day == DayOf(events, i);
      out := out + [events[i] + day * DAY];
    }
  }

  // ------------------------------------------------------------------
  // Passing times at unlisted stations
  // ------------------------------------------------------------------

  /** Strictly increasing, and strictly inside the leg. */
  predicate Inside(from: int, times: seq<int>, to: int) {
    forall k :: 0 <= k < |times| ==> InsideAt(from, times, to, k)
  }

  predicate InsideAt(from: int, times: seq<int>, to: int, k: nat)
    requires k < |times|
  {
    (if k == 0 then from else times[k - 1]) < times[k] < to
  }

  /** A passing time is both an arrival and a departure. */
  function Doubled(times: seq<int>): seq<int> {
    seq(2 * |times|, k requires 0 <= k < 2 * |times| => times[k / 2])
  }

  /** The passing times before a published stop, then its own two events. */
  function StopEvents(before: seq<int>, arrival: int, departure: int): seq<int> {
    Doubled(before) + [arrival, departure]
  }

  /** Arrivals and departures of the first stop and the n that follow it, with the passing times between them. */
  function Woven(published: seq<int>, passing: seq<seq<int>>, n: nat): seq<int>
    requires 2 * n + 1 < |published| && n <= |passing|
  {
    if n == 0 then [published[0], published[1]]
    else Woven(published, passing, n - 1) + StopEvents(passing[n - 1], published[2 * n], published[2 * n + 1])
  }

  predicate LegInside(published: seq<int>, passing: seq<seq<int>>, i: nat)
    requires 2 * i + 2 < |published| && i < |passing|
  {
    Inside(published[2 * i + 1], passing[i], published[2 * i + 2])
  }

  /** One leg's passing times, each checked against the time before it and the next published arrival. */
  method WeaveLeg(from: int, times: seq<int>, to: int) returns (r: Option<seq<int>>)
    ensures r == if Inside(from, times, to) then Some(Doubled(times)) else None
  {
    var events: seq<int> := [];
    var previous := from;
    for k := 0 to |times|
      invariant events == Doubled(times)[..2 * k]
      invariant previous == if k == 0 then from else times[k - 1]
      invariant forall m :: 0 <= m < k ==> InsideAt(from, times, to, m)
    {
      if !(previous < times[k] < to) {
        assert !InsideAt(from, times, to, k);
        return None;
      }
      assert Doubled(times)[..2 * (k + 1)] == Doubled(times)[..2 * k] + [times[k], times[k]];
      events := events + [times[k], times[k]];
      previous := times[k];
    }
    assert Doubled(times)[..2 * |times|] == Doubled(times);
    return Some(events);
  }

  lemma WovenNext(published: seq<int>, passing: seq<seq<int>>, n: nat)
    requires 0 < n && 2 * n + 1 < |published| && n <= |passing|
    ensures Woven(published, passing, n) ==
            Woven(published, passing, n - 1) + StopEvents(passing[n - 1], published[2 * n], published[2 * n + 1])
  {
  }

  /** The whole record in travel order; None when an interpolated time falls outside its leg. */
  method DeriveStationTimes(published: seq<int>, passing: seq<seq<int>>) returns (r: Option<seq<int>>)
    requires |published| == 2 * |passing| + 2
    ensures r.Some? <==> forall i :: 0 <= i < |passing| ==> LegInside(published, passing, i)
    ensures r.Some? ==> r.value == Woven(published, passing, |passing|)
  {
    var result := [published[0], published[1]];
    for i := 0 to |passing|
      invariant result == Woven(published, passing, i)
      invariant forall k :: 0 <= k < i ==> LegInside(published, passing, k)
    {
      var events := WeaveStop(published, passing, i + 1);
      if events.None? {
        return None;
      }
      result := result + events.value;
    }
    return Some(result);
  }

  /** The passing times before the n-th stop and that stop's two events. */
  method WeaveStop(published: seq<int>, passing: seq<seq<int>>, n: nat) returns (r: Option<seq<int>>)
    requires 0 < n && 2 * n + 1 < |published| && n <= |passing|
    ensures r.Some? <==> LegInside(published, passing, n - 1)
    ensures r.Some? ==> Woven(published, passing, n) == Woven(published, passing, n - 1) + r.value
  {
    var between := WeaveLeg(published[2 * n - 1], passing[n - 1], published[2 * n]);
    if between.None? {
      return None;
    }
    WovenNext(published, passing, n);
    return Some(between.value + [published[2 * n], published[2 * n + 1]]);
  }

  lemma {:induction false} InsideOrdered(from: int, times: seq<int>, to: int, i: nat, j: nat)
    requires Inside(from, times, to) && i <= j < |times|
    ensures from < times[i] <= times[j] < to
    decreases i + j
  {
    assert InsideAt(from, times, to, j) && InsideAt(from, times, to, i);
    if i < j {
      InsideOrdered(from, times, to, i, j - 1);
    } else if i > 0 {
      InsideOrdered(from, times, to, i - 1, i - 1);
    }
  }

  lemma StepsConcat(a: seq<int>, b: seq<int>, maxStep: int)
    requires Steps(a, maxStep) && Steps(b, maxStep)
    requires a != [] && b != [] ==> 0 <= b[0] - a[|a| - 1] <= maxStep
    ensures Steps(a + b, maxStep)
  {
    forall i | 0 <= i < |a + b| - 1 ensures StepOk(a + b, i, maxStep) {
      if i < |a| - 1 {
        assert StepOk(a, i, maxStep);
      } else if i >= |a| {
        assert StepOk(b, i - |a|, maxStep);
      }
    }
  }

  lemma PassingSteps(from: int, times: seq<int>, to: int, maxStep: int)
    requires Inside(from, times, to) && times != [] && to - from <= maxStep
    ensures Steps(Doubled(times), maxStep)
    ensures from < Doubled(times)[0] < to && from < Doubled(times)[2 * |times| - 1] < to
  {
    var d := Doubled(times);
    forall i | 0 <= i < |d| - 1 ensures StepOk(d, i, maxStep) {
      InsideOrdered(from, times, to, i / 2, (i + 1) / 2);
    }
    InsideOrdered(from, times, to, 0, |times| - 1);
  }

  /** Between its first and last minute no step goes back or exceeds the bound. */
  predicate Plausible(times: seq<int>, first: int, last: int, maxStep: int) {
    times != [] && times[0] == first && times[|times| - 1] == last && Steps(times, maxStep)
  }

  lemma Joined(a: seq<int>, b: seq<int>, first: int, mid: int, next: int, last: int, maxStep: int)
    requires Plausible(a, first, mid, maxStep) && Plausible(b, next, last, maxStep) && 0 <= next - mid <= maxStep
    ensures Plausible(a + b, first, last, maxStep)
  {
    StepsConcat(a, b, maxStep);
  }

  lemma StopSteps(from: int, times: seq<int>, arrival: int, departure: int, maxStep: int) returns (first: int)
    requires Inside(from, times, arrival) && 0 <= arrival - from <= maxStep && 0 <= departure - arrival <= maxStep
    ensures Plausible(StopEvents(times, arrival, departure), first, departure, maxStep)
    ensures 0 <= first - from <= maxStep
  {
    var pair := [arrival, departure];
    assert Steps(pair, maxStep);
    if times == [] {
      assert StopEvents(times, arrival, departure) == pair;
      first := arrival;
    } else {
      PassingSteps(from, times, arrival, maxStep);
      StepsConcat(Doubled(times), pair, maxStep);
      first := Doubled(times)[0];
    }
  }

  /** Weaving passing times into a plausible published sequence keeps it plausible, with the same first and last time. */
  lemma {:induction false} WovenSteps(published: seq<int>, passing: seq<seq<int>>, n: nat, maxStep: int)
    requires 2 * n + 1 < |published| && n <= |passing| && Steps(published, maxStep)
    requires forall i :: 0 <= i < n ==> LegInside(published, passing, i)
    ensures Plausible(Woven(published, passing, n), published[0], published[2 * n + 1], maxStep)
  {
    assert StepOk(published, 2 * n, maxStep);
    if n > 0 {
      WovenSteps(published, passing, n - 1, maxStep);
      assert LegInside(published, passing, n - 1) && StepOk(published, 2 * n - 1, maxStep);
      var arrival, departure := published[2 * n], published[2 * n + 1];
      var first := StopSteps(published[2 * n - 1], passing[n - 1], arrival, departure, maxStep);
      Joined(Woven(published, passing, n - 1), StopEvents(passing[n - 1], arrival, departure),
             published[0], published[2 * n - 1], first, departure, maxStep);
    }
  }

  // ------------------------------------------------------------------
  // Round trip
  // ------------------------------------------------------------------

  function Readings(times: seq<int>): seq<int> { seq(|times|, i requires 0 <= i < |times| => times[i] % DAY) }

  function Texts(times: seq<int>): seq<string> { seq(|times|, i requires 0 <= i < |times| => FormatClock(times[i])) }

  lemma {:induction false} Nondecreasing(times: seq<int>, maxStep: int, i: nat, j: nat)
    requires Steps(times, maxStep) && i <= j < |times|
    ensures times[i] <= times[j]
  {
    if i < j {
      Nondecreasing(times, maxStep, i, j - 1);
      assert StepOk(times, j - 1, maxStep);
    }
  }

  /**
   For any minutes that begin on day 0, the runtime recovers them from their
   texts exactly when they never go back, no step exceeds the longest plausible
   leg, and all fall within the allowed rollovers.
   */
  lemma RoundTrip(times: seq<int>, maxDays: int, maxStep: int)
    requires times != [] ==> IsClock(times[0])
    requires 0 <= maxDays && maxStep < DAY
    ensures forall i :: 0 <= i < |times| ==> ParseClock(Texts(times)[i]) == Ok(Readings(times)[i])
    ensures Resolved(Readings(times), maxDays, maxStep) == Ok(times) <==>
            Steps(times, maxStep) && (forall i :: 0 <= i < |times| ==> times[i] < (maxDays + 1) * DAY)
  {
    var cs := Readings(times);
    forall i | 0 <= i < |times| ensures ParseClock(Texts(times)[i]) == Ok(cs[i]) {
      FormattedReadsBack(times[i]);
    }
    if Steps(times, maxStep) && forall i :: 0 <= i < |times| ==> times[i] < (maxDays + 1) * DAY {
      TimesAreLift(times, maxDays, maxStep);
      forall k | 0 <= k < |cs| - 1 ensures ShortStep(times, k) { assert StepOk(times, k, maxStep); }
      ResolvesToLeastLift(times, cs, maxDays, maxStep);
    }
    if Resolved(cs, maxDays, maxStep) == Ok(times) {
      ResolvesExactlyLiftable(cs, maxDays, maxStep);
      forall i | 0 <= i < |times| ensures times[i] < (maxDays + 1) * DAY {
        assert times[i] <= cs[i] + maxDays * DAY;
      }
    }
  }

  lemma TimesAreLift(times: seq<int>, maxDays: int, maxStep: int)
    requires times != [] ==> IsClock(times[0])
    requires Steps(times, maxStep) && forall i :: 0 <= i < |times| ==> times[i] < (maxDays + 1) * DAY
    ensures IsLift(times, Readings(times), maxDays, maxStep)
  {
    forall i | 0 <= i < |times|
      ensures Congruent(times[i], times[i] % DAY) && times[i] <= times[i] % DAY + maxDays * DAY
    {
      DayBound(times[i], maxDays);
    }
  }

  lemma DayBound(time: int, maxDays: int)
    requires time < (maxDays + 1) * DAY
    ensures Congruent(time, time % DAY) && time <= time % DAY + maxDays * DAY
  {
    var day := time / DAY;
    assert time == day * DAY + time % DAY;
    assert day <= maxDays;
    assert time - time % DAY == day * DAY;
  }

  /** The builder unrolls its published readings and the runtime resolves its texts to the same minutes. */
  lemma BuilderMatchesRuntime(readings: seq<int>, maxDays: int, maxStep: int)
    requires AreClocks(readings) && 0 <= maxDays && maxStep < DAY
    ensures Readings(Unwound(readings)) == readings
    ensures Resolved(readings, maxDays, maxStep).Ok? ==> Resolved(readings, maxDays, maxStep).value == Unwound(readings)
    ensures Resolved(readings, maxDays, maxStep).Ok? <==>
            Steps(Unwound(readings), maxStep)
            && (forall i :: 0 <= i < |readings| ==> Unwound(readings)[i] < (maxDays + 1) * DAY)
  {
    var u := Unwound(readings);
    forall i | 0 <= i < |readings| ensures u[i] % DAY == readings[i] {
      assert u[i] == readings[i] + DayOf(readings, i) * DAY;
    }
    assert Readings(u) == readings;
    RoundTrip(u, maxDays, maxStep);
    LiftsUnwound(readings, maxDays, maxStep);
  }

  /**
   The whole record, passing times included: if the published times unrolled
   from the readings are plausible and end before the second midnight, the
   runtime recovers every woven minute from its text.
   */
  lemma RecordRoundTrip(readings: seq<int>, passing: seq<seq<int>>)
    requires AreClocks(readings) && |readings| == 2 * |passing| + 2
    requires forall i :: 0 <= i < |passing| ==> LegInside(Unwound(readings), passing, i)
    requires Resolved(readings, DEFAULT_MAX_DAYS, DEFAULT_MAX_STEP).Ok?
    ensures var w := Woven(Unwound(readings), passing, |passing|);
            && (forall i :: 0 <= i < |w| ==> ParseClock(Texts(w)[i]) == Ok(Readings(w)[i]))
            && Resolved(Readings(w), DEFAULT_MAX_DAYS, DEFAULT_MAX_STEP) == Ok(w)
  {
    BuilderMatchesRuntime(readings, DEFAULT_MAX_DAYS, DEFAULT_MAX_STEP);
    WovenRoundTrip(Unwound(readings), passing, DEFAULT_MAX_DAYS, DEFAULT_MAX_STEP);
  }

  lemma WovenRoundTrip(published: seq<int>, passing: seq<seq<int>>, maxDays: int, maxStep: int)
    requires |published| == 2 * |passing| + 2 && IsClock(published[0]) && Steps(published, maxStep)
    requires forall i :: 0 <= i < |passing| ==> LegInside(published, passing, i)
    requires published[|published| - 1] < (maxDays + 1) * DAY
    requires 0 <= maxDays && maxStep < DAY
    ensures var w := Woven(published, passing, |passing|);
            && (forall i :: 0 <= i < |w| ==> ParseClock(Texts(w)[i]) == Ok(Readings(w)[i]))
            && Resolved(Readings(w), maxDays, maxStep) == Ok(w)
  {
    var w := Woven(published, passing, |passing|);
    WovenSteps(published, passing, |passing|, maxStep);
    forall i | 0 <= i < |w| ensures w[i] < (maxDays + 1) * DAY {
      Nondecreasing(w, maxStep, i, |w| - 1);
    }
    RoundTrip(w, maxDays, maxStep);
  }
}
