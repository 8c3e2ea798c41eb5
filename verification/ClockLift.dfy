/**
 Day-less clock readings and the absolute minutes they stand for: the midnight
 rollover within its two bounds, and what it means to be a lift of the readings.
 */
module ClockLift {
  import opened Wrappers

  const DAY: int := 1440
  const DEFAULT_MAX_DAYS: int := 1
  const DEFAULT_MAX_STEP: int := 720

  predicate IsClock(c: int) { 0 <= c < DAY }

  predicate AreClocks(cs: seq<int>) { forall i :: 0 <= i < |cs| ==> IsClock(cs[i]) }

  // ------------------------------------------------------------------
  // Bounded rollover
  // ------------------------------------------------------------------

  datatype ClockError =
    | NegativeRollover
    | TooManyRollovers(position: nat)
    | StillDecreasing(position: nat)
    | StepTooLong(position: nat)

  /** The minutes resolved so far and the day the last of them fell on. */
  datatype Lifted = Lifted(out: seq<int>, day: int)

  /** One more reading: same day if that does not go backwards, else the next day, if both bounds allow it. */
  function Extend(acc: Lifted, raw: int, maxDays: int, maxStep: int): Result<Lifted, ClockError> {
    var sameDay := raw + acc.day * DAY;
    if acc.out == [] then Ok(Lifted(acc.out + [sameDay], acc.day))
    else
      var previous := acc.out[|acc.out| - 1];
      if sameDay < previous && maxDays < acc.day + 1 then Err(TooManyRollovers(|acc.out|))
      else
        var day := if sameDay < previous then acc.day + 1 else acc.day;
        var candidate := raw + day * DAY;
        if candidate < previous then Err(StillDecreasing(|acc.out|))
        else if maxStep < candidate - previous then Err(StepTooLong(|acc.out|))
        else Ok(Lifted(acc.out + [candidate], day))
  }

  function Lifts(cs: seq<int>, maxDays: int, maxStep: int): Result<Lifted, ClockError> {
    if cs == [] then Ok(Lifted([], 0))
    else
      var rest := Lifts(cs[..|cs| - 1], maxDays, maxStep);
      if rest.Err? then rest else Extend(rest.value, cs[|cs| - 1], maxDays, maxStep)
  }

  function Resolved(cs: seq<int>, maxDays: int, maxStep: int): Result<seq<int>, ClockError> {
    if maxDays < 0 then Err(NegativeRollover)
    else
      var l := Lifts(cs, maxDays, maxStep);
      if l.Err? then Err(l.error) else Ok(l.value.out)
  }

  lemma {:induction false} LiftErrorStays(cs: seq<int>, n: nat, maxDays: int, maxStep: int)
    requires n <= |cs| && Lifts(cs[..n], maxDays, maxStep).Err?
    ensures Lifts(cs, maxDays, maxStep) == Lifts(cs[..n], maxDays, maxStep)
    decreases |cs| - n
  {
    if n == |cs| {
      assert cs[..n] == cs;
    } else {
      assert cs[..n + 1][..n] == cs[..n];
      LiftErrorStays(cs, n + 1, maxDays, maxStep);
    }
  }

  method ResolveAbsoluteMinutes(cs: seq<int>, maxDays: int, maxStep: int) returns (r: Result<seq<int>, ClockError>)
    ensures r == Resolved(cs, maxDays, maxStep)
  {
    if maxDays < 0 {
      return Err(NegativeRollover);
    }
    var resolved: seq<int> := [];
    var day := 0;
    for i := 0 to |cs|
      invariant |resolved| == i
      invariant Lifts(cs[..i], maxDays, maxStep) == Ok(Lifted(resolved, day))
    {
      assert cs[..i + 1][..i] == cs[..i];
      var candidate := cs[i] + day * DAY;
      if resolved != [] {
        var previous := resolved[|resolved| - 1];
        if candidate < previous {
          if day + 1 > maxDays {
            LiftErrorStays(cs, i + 1, maxDays, maxStep);
            return Err(TooManyRollovers(i));
          }
          day := day + 1;
          candidate := cs[i] + day * DAY;
        }
        if candidate < previous {
          LiftErrorStays(cs, i + 1, maxDays, maxStep);
          return Err(StillDecreasing(i));
        }
        if candidate - previous > maxStep {
          LiftErrorStays(cs, i + 1, maxDays, maxStep);
          return Err(StepTooLong(i));
        }
      }
      resolved := resolved + [candidate];
    }
    assert cs[..|cs|] == cs;
    return Ok(resolved);
  }

  // ------------------------------------------------------------------
  // What a lift is
  // ------------------------------------------------------------------

  predicate Congruent(a: int, b: int) { (a - b) % DAY == 0 }

  predicate StepOk(out: seq<int>, i: nat, maxStep: int)
    requires i + 1 < |out|
  {
    0 <= out[i + 1] - out[i] <= maxStep
  }

  predicate Steps(out: seq<int>, maxStep: int) { forall i :: 0 <= i < |out| - 1 ==> StepOk(out, i, maxStep) }

  /** Absolute minutes that read as the clocks, start with the first reading, and stay within both bounds. */
  predicate IsLift(out: seq<int>, cs: seq<int>, maxDays: int, maxStep: int) {
    && |out| == |cs|
    && (cs != [] ==> out[0] == cs[0])
    && (forall i :: 0 <= i < |cs| ==> Congruent(out[i], cs[i]) && out[i] <= cs[i] + maxDays * DAY)
    && Steps(out, maxStep)
  }

  /** The minutes from one clock reading to the next occurrence of another. */
  function Gap(a: int, b: int): int { if b < a then b - a + DAY else b - a }

  /** How many midnights lie before a reading, if each comes as soon as it can. */
  function DayOf(cs: seq<int>, i: nat): nat
    requires i < |cs|
  {
    if i == 0 then 0 else DayOf(cs, i - 1) + (if cs[i] < cs[i - 1] then 1 else 0)
  }

  /** Each reading at its first occurrence after the one before. */
  function Unwound(cs: seq<int>): seq<int> {
    seq(|cs|, i requires 0 <= i < |cs| => cs[i] + DayOf(cs, i) * DAY)
  }

  lemma GapIsLeast(a: int, b: int, step: int)
    requires IsClock(a) && IsClock(b) && 0 <= step && Congruent(step, b - a)
    ensures Gap(a, b) <= step
    ensures step < DAY ==> step == Gap(a, b)
  {
    var k := (step - (b - a)) / DAY;
    assert step == b - a + k * DAY;
  }

  lemma StepCongruent(from: int, to: int, a: int, b: int)
    requires Congruent(from, a) && Congruent(to, b)
    ensures Congruent(to - from, b - a)
  {
    var j, k := (from - a) / DAY, (to - b) / DAY;
    assert from == a + j * DAY && to == b + k * DAY;
    assert (to - from) - (b - a) == (k - j) * DAY;
  }

  lemma UnwoundStep(cs: seq<int>, i: nat)
    requires AreClocks(cs) && i + 1 < |cs|
    ensures Unwound(cs)[i + 1] == Unwound(cs)[i] + Gap(cs[i], cs[i + 1])
    ensures 0 <= Gap(cs[i], cs[i + 1]) < DAY
  {
    assert DayOf(cs, i + 1) == DayOf(cs, i) + (if cs[i + 1] < cs[i] then 1 else 0);
  }

  lemma {:induction false} DayGrows(cs: seq<int>, i: nat, j: nat)
    requires i <= j < |cs|
    ensures DayOf(cs, i) <= DayOf(cs, j)
  {
    if i < j { DayGrows(cs, i, j - 1); }
  }

  lemma {:induction false} DayOfPrefix(cs: seq<int>, n: nat, i: nat)
    requires i < n <= |cs|
    ensures DayOf(cs[..n], i) == DayOf(cs, i)
  {
    if i > 0 { DayOfPrefix(cs, n, i - 1); }
  }

  lemma UnwoundPrefix(cs: seq<int>, n: nat)
    requires n <= |cs|
    ensures Unwound(cs[..n]) == Unwound(cs)[..n]
  {
    forall i | 0 <= i < n ensures Unwound(cs[..n])[i] == Unwound(cs)[i] {
      DayOfPrefix(cs, n, i);
    }
  }

  predicate GapOk(cs: seq<int>, i: nat, maxStep: int)
    requires i + 1 < |cs|
  {
    Gap(cs[i], cs[i + 1]) <= maxStep
  }

  /** The first occurrences stay within the two bounds. */
  predicate Fits(cs: seq<int>, maxDays: int, maxStep: int) {
    && (forall i :: 0 <= i < |cs| - 1 ==> GapOk(cs, i, maxStep))
    && (cs != [] ==> DayOf(cs, |cs| - 1) <= maxDays)
  }

  lemma ExtendStep(acc: Lifted, clock: int, raw: int, maxDays: int, maxStep: int, day: int, next: int)
    requires acc.out != [] && acc.out[|acc.out| - 1] == clock + acc.day * DAY && IsClock(clock) && IsClock(raw)
    requires day == acc.day + (if raw < clock then 1 else 0) && next == raw + day * DAY
    ensures var r := Extend(acc, raw, maxDays, maxStep);
            && (r.Ok? <==> (raw < clock ==> day <= maxDays) && Gap(clock, raw) <= maxStep)
            && (r.Ok? ==> r.value == Lifted(acc.out + [next], day))
            && (r.Err? ==> !r.error.StillDecreasing?)
  {
  }

  predicate AsUnwound(r: Result<Lifted, ClockError>, cs: seq<int>, fits: bool) {
    && (r.Ok? <==> fits)
    && (r.Ok? ==> r.value == Lifted(Unwound(cs), if cs == [] then 0 else DayOf(cs, |cs| - 1)))
    && (r.Err? ==> !r.error.StillDecreasing?)
  }

  /** The resolver succeeds exactly when the first occurrences fit, and returns them; "still decreasing" never happens. */
  lemma {:induction false} LiftsUnwound(cs: seq<int>, maxDays: int, maxStep: int)
    requires AreClocks(cs) && 0 <= maxDays
    ensures AsUnwound(Lifts(cs, maxDays, maxStep), cs, Fits(cs, maxDays, maxStep))
  {
    if cs != [] {
      var n := |cs| - 1;
      LiftsUnwound(cs[..n], maxDays, maxStep);
      UnwoundPrefix(cs, n);
      var next := Unwound(cs)[n];
      assert Unwound(cs) == Unwound(cs)[..n] + [next];
      if n > 0 {
        DayOfPrefix(cs, n, n - 1);
        FitsStep(cs, maxDays, maxStep);
        if Fits(cs[..n], maxDays, maxStep) {
          ExtendStep(Lifts(cs[..n], maxDays, maxStep).value, cs[n - 1], cs[n], maxDays, maxStep, DayOf(cs, n), next);
        }
      }
    }
  }

  lemma FitsStep(cs: seq<int>, maxDays: int, maxStep: int)
    requires |cs| >= 2
    ensures var n := |cs| - 1;
            Fits(cs, maxDays, maxStep) <==>
            Fits(cs[..n], maxDays, maxStep) && DayOf(cs, n) <= maxDays && Gap(cs[n - 1], cs[n]) <= maxStep
  {
    var n := |cs| - 1;
    DayOfPrefix(cs, n, n - 1);
    forall i | 0 <= i < n - 1 ensures GapOk(cs[..n], i, maxStep) <==> GapOk(cs, i, maxStep) {
    }
    assert GapOk(cs, n - 1, maxStep) <==> Gap(cs[n - 1], cs[n]) <= maxStep;
  }

  /** When the first occurrences fit they are a lift. */
  lemma UnwoundIsLift(cs: seq<int>, maxDays: int, maxStep: int)
    requires AreClocks(cs) && Fits(cs, maxDays, maxStep)
    ensures IsLift(Unwound(cs), cs, maxDays, maxStep)
  {
    forall i | 0 <= i < |cs| ensures Congruent(Unwound(cs)[i], cs[i]) && Unwound(cs)[i] <= cs[i] + maxDays * DAY {
      DayGrows(cs, i, |cs| - 1);
      assert Unwound(cs)[i] - cs[i] == DayOf(cs, i) * DAY;
    }
    forall i | 0 <= i < |cs| - 1 ensures StepOk(Unwound(cs), i, maxStep) {
      UnwoundStep(cs, i);
      assert GapOk(cs, i, maxStep);
    }
  }

  predicate ShortStep(out: seq<int>, i: nat)
    requires i + 1 < |out|
  {
    out[i + 1] - out[i] < DAY
  }

  /** Every step of a lift is at least the step between first occurrences. */
  lemma LiftStep(out: seq<int>, cs: seq<int>, maxDays: int, maxStep: int, i: nat)
    requires AreClocks(cs) && IsLift(out, cs, maxDays, maxStep) && i + 1 < |cs|
    ensures Gap(cs[i], cs[i + 1]) <= out[i + 1] - out[i] <= maxStep
    ensures ShortStep(out, i) ==> Gap(cs[i], cs[i + 1]) == out[i + 1] - out[i]
  {
    assert StepOk(out, i, maxStep);
    StepCongruent(out[i], out[i + 1], cs[i], cs[i + 1]);
    GapIsLeast(cs[i], cs[i + 1], out[i + 1] - out[i]);
  }

  lemma {:induction false} LiftAbove(out: seq<int>, cs: seq<int>, maxDays: int, maxStep: int, i: nat)
    requires AreClocks(cs) && IsLift(out, cs, maxDays, maxStep) && i < |cs|
    ensures Unwound(cs)[i] <= out[i]
    ensures (forall k :: 0 <= k < |cs| - 1 ==> ShortStep(out, k)) ==> Unwound(cs)[i] == out[i]
  {
    if i > 0 {
      LiftAbove(out, cs, maxDays, maxStep, i - 1);
      LiftStep(out, cs, maxDays, maxStep, i - 1);
      UnwoundStep(cs, i - 1);
    }
  }

  lemma LiftExistsOnlyIfFits(out: seq<int>, cs: seq<int>, maxDays: int, maxStep: int)
    requires AreClocks(cs) && IsLift(out, cs, maxDays, maxStep)
    ensures Fits(cs, maxDays, maxStep)
  {
    forall i | 0 <= i < |cs| - 1 ensures GapOk(cs, i, maxStep) {
      LiftStep(out, cs, maxDays, maxStep, i);
    }
    if cs != [] {
      LiftAbove(out, cs, maxDays, maxStep, |cs| - 1);
    }
  }

  /**
   On clock readings the resolver succeeds exactly when some bounded lift
   exists, and never by way of its second "decreasing" error.
   */
  lemma ResolvesExactlyLiftable(cs: seq<int>, maxDays: int, maxStep: int)
    requires AreClocks(cs) && 0 <= maxDays
    ensures Resolved(cs, maxDays, maxStep).Ok? <==> exists out :: IsLift(out, cs, maxDays, maxStep)
    ensures Resolved(cs, maxDays, maxStep).Ok? ==> IsLift(Resolved(cs, maxDays, maxStep).value, cs, maxDays, maxStep)
    ensures Resolved(cs, maxDays, maxStep).Err? ==> !Resolved(cs, maxDays, maxStep).error.StillDecreasing?
  {
    LiftsUnwound(cs, maxDays, maxStep);
    if Fits(cs, maxDays, maxStep) {
      UnwoundIsLift(cs, maxDays, maxStep);
    }
    if out :| IsLift(out, cs, maxDays, maxStep) {
      LiftExistsOnlyIfFits(out, cs, maxDays, maxStep);
    }
  }

  /** The resolver's answer is below every bounded lift, and equals every one whose steps are shorter than a day. */
  lemma ResolvesToLeastLift(out: seq<int>, cs: seq<int>, maxDays: int, maxStep: int)
    requires AreClocks(cs) && 0 <= maxDays && IsLift(out, cs, maxDays, maxStep)
    ensures var r := Resolved(cs, maxDays, maxStep);
            && r.Ok? && |r.value| == |cs|
            && (forall i :: 0 <= i < |cs| ==> r.value[i] <= out[i])
            && ((forall k :: 0 <= k < |cs| - 1 ==> ShortStep(out, k)) ==> r.value == out)
  {
    LiftExistsOnlyIfFits(out, cs, maxDays, maxStep);
    LiftsUnwound(cs, maxDays, maxStep);
    var short := forall k :: 0 <= k < |cs| - 1 ==> ShortStep(out, k);
    forall i | 0 <= i < |cs| ensures Unwound(cs)[i] <= out[i] && (short ==> Unwound(cs)[i] == out[i]) {
      LiftAbove(out, cs, maxDays, maxStep, i);
    }
  }

  /** When a step may not reach a day there is only one bounded lift. */
  lemma LiftIsUnique(a: seq<int>, b: seq<int>, cs: seq<int>, maxDays: int, maxStep: int)
    requires AreClocks(cs) && 0 <= maxDays && maxStep < DAY
    requires IsLift(a, cs, maxDays, maxStep) && IsLift(b, cs, maxDays, maxStep)
    ensures a == b
  {
    forall k | 0 <= k < |cs| - 1 ensures ShortStep(a, k) && ShortStep(b, k) {
      assert StepOk(a, k, maxStep) && StepOk(b, k, maxStep);
    }
    ResolvesToLeastLift(a, cs, maxDays, maxStep);
    ResolvesToLeastLift(b, cs, maxDays, maxStep);
  }
}
