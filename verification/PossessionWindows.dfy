/**
 From buffered occupation to possession windows: per track and section, the
 train-free gaps that are long enough.
 */
module PossessionWindows {

  datatype Interval = Interval(start: int, end: int)

  predicate Contains(i: Interval, minute: int) { i.start <= minute < i.end }

  predicate Covered(s: seq<Interval>, minute: int) { exists k :: 0 <= k < |s| && Contains(s[k], minute) }

  predicate NonEmpty(s: seq<Interval>) { forall k :: 0 <= k < |s| ==> s[k].start < s[k].end }

  // ------------------------------------------------------------------
  // Sorting and merging
  // ------------------------------------------------------------------

  predicate Before(a: Interval, b: Interval) { a.start < b.start || (a.start == b.start && a.end <= b.end) }

  predicate Ordered(s: seq<Interval>) { forall i, j :: 0 <= i <= j < |s| ==> Before(s[i], s[j]) }

  function Inserted(s: seq<Interval>, x: Interval): (r: seq<Interval>)
    requires Ordered(s)
    ensures Ordered(r) && multiset(r) == multiset(s) + multiset{x}
  {
    if s == [] then [x]
    else if Before(s[|s| - 1], x) then s + [x]
    else
      assert s == s[..|s| - 1] + [s[|s| - 1]];
      var front := Inserted(s[..|s| - 1], x);
      BelowAll(s, x, front);
      front + [s[|s| - 1]]
  }

  lemma BelowAll(s: seq<Interval>, x: Interval, front: seq<Interval>)
    requires s != [] && Ordered(s) && !Before(s[|s| - 1], x) && multiset(front) == multiset(s[..|s| - 1]) + multiset{x}
    ensures forall k :: 0 <= k < |front| ==> Before(front[k], s[|s| - 1])
  {
    forall k | 0 <= k < |front| ensures Before(front[k], s[|s| - 1]) {
      assert front[k] in multiset(front);
      if front[k] != x {
        assert front[k] in s[..|s| - 1];
      }
    }
  }

  /** The same intervals by start, then by end. */
  function Sorted(s: seq<Interval>): (r: seq<Interval>)
    ensures Ordered(r) && multiset(r) == multiset(s)
  {
    if s == [] then []
    else
      assert s == s[..|s| - 1] + [s[|s| - 1]];
      Inserted(Sorted(s[..|s| - 1]), s[|s| - 1])
  }

  lemma SortedCovers(s: seq<Interval>)
    ensures |Sorted(s)| == |s|
    ensures forall minute :: Covered(Sorted(s), minute) <==> Covered(s, minute)
    ensures NonEmpty(s) ==> NonEmpty(Sorted(s))
  {
    var r := Sorted(s);
    assert |multiset(r)| == |multiset(s)|;
    forall k | 0 <= k < |r| ensures r[k] in s { assert r[k] in multiset(r); }
    forall k | 0 <= k < |s| ensures s[k] in r { assert s[k] in multiset(s); }
  }

  /** Disjoint, in order, and with a free minute between any two neighbours. */
  predicate Separated(s: seq<Interval>) {
    NonEmpty(s) && forall i, j :: 0 <= i < j < |s| ==> s[i].end < s[j].start
  }

  ghost predicate SameCover(a: seq<Interval>, b: seq<Interval>) { forall minute :: Covered(a, minute) <==> Covered(b, minute) }

  /** Overlapping and touching intervals become one. */
  method MergeIntervals(intervals: seq<Interval>) returns (merged: seq<Interval>)
    requires NonEmpty(intervals)
    ensures Separated(merged)
    ensures SameCover(merged, intervals)
  {
    if intervals == [] {
      return [];
    }
    SortedCovers(intervals);
    merged := MergeOrdered(Sorted(intervals));
  }

  method MergeOrdered(ordered: seq<Interval>) returns (merged: seq<Interval>)
    requires ordered != [] && Ordered(ordered) && NonEmpty(ordered)
    ensures Separated(merged) && SameCover(merged, ordered)
  {
    merged := [ordered[0]];
    assert ordered[..1] == merged;
    for i := 1 to |ordered|
      invariant merged != [] && Separated(merged)
      invariant merged[|merged| - 1].start <= ordered[i - 1].start
      invariant SameCover(merged, ordered[..i])
    {
      var last, next := merged[|merged| - 1], ordered[i];
      assert Before(ordered[i - 1], next);
      Absorbs(merged, ordered[..i], next);
      assert ordered[..i + 1] == ordered[..i] + [next];
      if next.start <= last.end {
        merged := merged[|merged| - 1 := Interval(last.start, if last.end < next.end then next.end else last.end)];
      } else {
        merged := merged + [next];
      }
    }
    assert ordered[..|ordered|] == ordered;
  }

  /** The last interval widened, or the next one added after it. */
  function Absorbed(merged: seq<Interval>, next: Interval): seq<Interval>
    requires merged != []
  {
    var last := merged[|merged| - 1];
    if next.start <= last.end then
      merged[|merged| - 1 := Interval(last.start, if last.end < next.end then next.end else last.end)]
    else merged + [next]
  }

  lemma Absorbs(merged: seq<Interval>, done: seq<Interval>, next: Interval)
    requires merged != [] && Separated(merged) && SameCover(merged, done)
    requires merged[|merged| - 1].start <= next.start < next.end
    ensures Separated(Absorbed(merged, next))
    ensures SameCover(Absorbed(merged, next), done + [next])
  {
    forall minute ensures Covered(Absorbed(merged, next), minute) <==> Covered(done + [next], minute) {
      AbsorbedCovers(merged, next, minute);
      CoveredMore(done, next);
    }
  }

  lemma AbsorbedCovers(merged: seq<Interval>, next: Interval, minute: int)
    requires merged != [] && merged[|merged| - 1].start <= next.start
    ensures Covered(Absorbed(merged, next), minute) <==> Covered(merged, minute) || Contains(next, minute)
  {
    var after, last := Absorbed(merged, next), |merged| - 1;
    if Covered(merged, minute) {
      var k :| 0 <= k < |merged| && Contains(merged[k], minute);
      assert Contains(after[k], minute);
    }
    if Contains(next, minute) {
      assert Contains(after[|after| - 1], minute);
    }
    if Covered(after, minute) {
      var k :| 0 <= k < |after| && Contains(after[k], minute);
      assert k < last ==> Contains(merged[k], minute);
      assert k == last ==> Contains(merged[last], minute) || Contains(next, minute);
    }
  }

  lemma CoveredMore(s: seq<Interval>, x: Interval)
    ensures forall minute :: Covered(s + [x], minute) <==> Covered(s, minute) || Contains(x, minute)
  {
    forall minute ensures Covered(s + [x], minute) <==> Covered(s, minute) || Contains(x, minute) {
      if Covered(s, minute) {
        var k :| 0 <= k < |s| && Contains(s[k], minute);
        assert (s + [x])[k] == s[k];
      }
      if Contains(x, minute) { assert (s + [x])[|s|] == x; }
    }
  }

  // ------------------------------------------------------------------
  // Sweeping the gaps
  // ------------------------------------------------------------------

  predicate FreeRun(s: seq<Interval>, a: int, b: int) { forall minute :: a <= minute < b ==> !Covered(s, minute) }

  /** A run of free minutes of the horizon that cannot be extended on either side. */
  predicate MaximalFree(s: seq<Interval>, horizon: int, w: Interval) {
    && 0 <= w.start < w.end <= horizon
    && FreeRun(s, w.start, w.end)
    && (w.start == 0 || Covered(s, w.start - 1))
    && (w.end == horizon || Covered(s, w.end))
  }

  predicate IsGap(s: seq<Interval>, horizon: int, minimum: int, w: Interval) {
    MaximalFree(s, horizon, w) && w.end - w.start >= minimum
  }

  function Clip(x: int, horizon: int): int { if (if x < horizon then x else horizon) < 0 then 0 else if x < horizon then x else horizon }

  /** In order, and never touching. */
  predicate Apart(gaps: seq<Interval>) { forall i, j :: 0 <= i < j < |gaps| ==> gaps[i].end < gaps[j].start }

  /** The gaps that end by the cursor, all of them and nothing else, in order. */
  ghost predicate Found(s: seq<Interval>, horizon: int, minimum: int, gaps: seq<Interval>, cursor: int) {
    && Apart(gaps)
    && (forall w :: w in gaps <==> IsGap(s, horizon, minimum, w) && w.end <= cursor)
  }

  /** Everything swept so far lies before the cursor, which is the horizon, its start, or the end of an occupation. */
  predicate CursorSound(s: seq<Interval>, horizon: int, cursor: int) {
    0 <= cursor <= horizon && (cursor == 0 || cursor == horizon || Covered(s, cursor - 1))
  }

  function WithGap(gaps: seq<Interval>, start: int, end: int, minimum: int): seq<Interval> {
    if end > start && end - start >= minimum then gaps + [Interval(start, end)] else gaps
  }

  /** Free minutes from the cursor, then occupied ones: exactly one more maximal run, if it is not empty. */
  lemma NextGap(s: seq<Interval>, horizon: int, cursor: int, free: int, next: int, w: Interval)
    requires CursorSound(s, horizon, cursor) && free <= next <= horizon && cursor <= next
    requires FreeRun(s, cursor, free) && (forall minute :: free <= minute < next ==> minute < 0 || Covered(s, minute))
    requires free > cursor ==> free == horizon || Covered(s, free)
    ensures MaximalFree(s, horizon, w) && cursor < w.end <= next <==> cursor < free && w == Interval(cursor, free)
  {
    if free < w.end <= next {
      assert w.end - 1 < 0 || Covered(s, w.end - 1);
    }
  }

  lemma FoundNext(s: seq<Interval>, horizon: int, minimum: int, gaps: seq<Interval>, cursor: int, free: int, next: int)
    requires Found(s, horizon, minimum, gaps, cursor) && minimum > 0
    requires CursorSound(s, horizon, cursor) && free <= next <= horizon && cursor <= next
    requires FreeRun(s, cursor, free) && (forall minute :: free <= minute < next ==> minute < 0 || Covered(s, minute))
    requires free > cursor ==> free == horizon || Covered(s, free)
    ensures Found(s, horizon, minimum, WithGap(gaps, cursor, free, minimum), next)
  {
    var out := WithGap(gaps, cursor, free, minimum);
    forall w ensures w in out <==> IsGap(s, horizon, minimum, w) && w.end <= next {
      NextGap(s, horizon, cursor, free, next, w);
    }
    forall i, j | 0 <= i < j < |out| ensures out[i].end < out[j].start {
      assert out[i] in gaps;
      if j == |gaps| {
        assert IsGap(s, horizon, minimum, out[i]) && out[i].end <= cursor;
        assert cursor != horizon;
        assert out[i].end == cursor ==> !Covered(s, cursor - 1);
      }
    }
  }

  /** The stretch from the cursor to the end of the next merged interval: free up to its start, occupied from there. */
  lemma NextInterval(s: seq<Interval>, horizon: int, k: nat, cursor: int)
    requires Separated(s) && k < |s| && horizon > 0 && cursor == CursorAfter(s, horizon, k)
    ensures var free, next := Clip(s[k].start, horizon), Clip(s[k].end, horizon);
            && CursorSound(s, horizon, cursor) && free <= next <= horizon && cursor <= next
            && FreeRun(s, cursor, free)
            && (forall minute :: free <= minute < next ==> Covered(s, minute))
            && (free > cursor ==> free == horizon || Covered(s, free))
  {
    var free, next := Clip(s[k].start, horizon), Clip(s[k].end, horizon);
    CursorIsSound(s, horizon, k);
    StretchFree(s, horizon, k, free);
    forall minute | free <= minute < next ensures Covered(s, minute) {
      assert Contains(s[k], minute);
    }
    if cursor < free < horizon {
      assert Contains(s[k], free);
    }
  }

  function CursorAfter(s: seq<Interval>, horizon: int, k: nat): int
    requires k <= |s|
  {
    if k == 0 then 0 else Clip(s[k - 1].end, horizon)
  }

  lemma CursorIsSound(s: seq<Interval>, horizon: int, k: nat)
    requires Separated(s) && k <= |s| && horizon > 0
    ensures CursorSound(s, horizon, CursorAfter(s, horizon, k))
  {
    if k > 0 && 0 < s[k - 1].end < horizon {
      assert Contains(s[k - 1], s[k - 1].end - 1);
    }
  }

  lemma StretchFree(s: seq<Interval>, horizon: int, k: nat, free: int)
    requires Separated(s) && k <= |s| && horizon > 0
    requires free == if k == |s| then horizon else Clip(s[k].start, horizon)
    ensures FreeRun(s, CursorAfter(s, horizon, k), free)
  {
    var cursor := CursorAfter(s, horizon, k);
    forall minute | cursor <= minute < free ensures !Covered(s, minute) {
      forall i | 0 <= i < |s| ensures !Contains(s[i], minute) {
        if i < k {
          assert s[i].end <= s[k - 1].end;
        } else {
          assert s[k].start <= s[i].start;
        }
      }
    }
  }

  /** The train-free gaps of the horizon, from one end to the other. */
  method SweepGaps(merged: seq<Interval>, horizon: int, minimum: int) returns (gaps: seq<Interval>)
    requires Separated(merged) && horizon > 0 && minimum > 0
    ensures Apart(gaps)
    ensures forall w :: w in gaps <==> IsGap(merged, horizon, minimum, w)
  {
    var cursor := 0;
    gaps := [];
    for k := 0 to |merged|
      invariant cursor == CursorAfter(merged, horizon, k)
      invariant Found(merged, horizon, minimum, gaps, cursor)
    {
      var clippedStart, clippedEnd := Clip(merged[k].start, horizon), Clip(merged[k].end, horizon);
      NextInterval(merged, horizon, k, cursor);
      FoundNext(merged, horizon, minimum, gaps, cursor, clippedStart, clippedEnd);
      if clippedStart > cursor && clippedStart - cursor >= minimum {
        gaps := gaps + [Interval(cursor, clippedStart)];
      }
      cursor := if cursor < clippedEnd then clippedEnd else cursor;
    }
    CursorIsSound(merged, horizon, |merged|);
    StretchFree(merged, horizon, |merged|, horizon);
    FoundNext(merged, horizon, minimum, gaps, cursor, horizon, horizon);
    if horizon > cursor && horizon - cursor >= minimum {
      gaps := gaps + [Interval(cursor, horizon)];
    }
  }
}
