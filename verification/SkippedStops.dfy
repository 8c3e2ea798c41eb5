/**
 A train running through a station without stopping is booked on every section
 of the leg for the whole leg. Stating the stop it skipped can only make that
 occupation smaller.
 */
module SkippedStops {
  import opened Wrappers
  import opened ClockLift
  import opened Topology
  import opened TrainConversion
  import opened TrainOccupation

  // ------------------------------------------------------------------
  // Two more readings inside a leg
  // ------------------------------------------------------------------

  function Spliced<T>(s: seq<T>, k: nat, mid: seq<T>): seq<T>
    requires k <= |s|
  {
    s[..k] + mid + s[k..]
  }

  lemma {:induction false} SplicedBefore(cs: seq<int>, k: nat, x: int, y: int, i: nat)
    requires i < k <= |cs|
    ensures DayOf(Spliced(cs, k, [x, y]), i) == DayOf(cs, i)
  {
    if i > 0 { SplicedBefore(cs, k, x, y, i - 1); }
  }

  lemma {:induction false} SplicedAfter(cs: seq<int>, k: nat, x: int, y: int, i: nat)
    requires k <= i < |cs| && DayOf(Spliced(cs, k, [x, y]), k + 2) == DayOf(cs, k)
    ensures DayOf(Spliced(cs, k, [x, y]), i + 2) == DayOf(cs, i)
  {
    var s := Spliced(cs, k, [x, y]);
    if i > k {
      SplicedAfter(cs, k, x, y, i - 1);
      assert s[i + 2] == cs[i] && s[i + 1] == cs[i - 1];
    }
  }

  /** The reading after a splice falls on the day it fell on before, if the splice ends by then. */
  lemma SplicedHere(cs: seq<int>, k: nat, x: int, y: int)
    requires AreClocks(cs) && IsClock(x) && IsClock(y) && 0 < k < |cs|
    requires var s := Spliced(cs, k, [x, y]); Unwound(s)[k + 1] <= Unwound(cs)[k]
    ensures DayOf(Spliced(cs, k, [x, y]), k + 2) == DayOf(cs, k)
  {
    var s := Spliced(cs, k, [x, y]);
    SplicedBefore(cs, k, x, y, k - 1);
    assert s[k - 1] == cs[k - 1] && s[k] == x && s[k + 1] == y && s[k + 2] == cs[k];
    SpliceDays(cs[k - 1], x, y, cs[k], DayOf(cs, k - 1));
    assert DayOf(s, k) == DayOf(s, k - 1) + (if s[k] < s[k - 1] then 1 else 0);
    assert DayOf(s, k + 1) == DayOf(s, k) + (if s[k + 1] < s[k] then 1 else 0);
    assert DayOf(s, k + 2) == DayOf(s, k + 1) + (if s[k + 2] < s[k + 1] then 1 else 0);
  }

  lemma SpliceDays(a: int, x: int, y: int, b: int, day: int)
    requires IsClock(a) && IsClock(x) && IsClock(y) && IsClock(b)
    ensures var straight := day + (if b < a then 1 else 0);
            var middle := day + (if x < a then 1 else 0) + (if y < x then 1 else 0);
            y + middle * DAY <= b + straight * DAY ==> middle + (if b < y then 1 else 0) == straight
  {
  }

  /** Readings spliced in before a later reading leave every other first occurrence where it was. */
  lemma SplicedUnwound(cs: seq<int>, k: nat, x: int, y: int) returns (a: int, b: int)
    requires AreClocks(cs) && IsClock(x) && IsClock(y) && 0 < k < |cs|
    requires var s := Spliced(cs, k, [x, y]); Unwound(s)[k + 1] <= Unwound(cs)[k]
    ensures Unwound(Spliced(cs, k, [x, y])) == Spliced(Unwound(cs), k, [a, b])
    ensures Unwound(cs)[k - 1] <= a <= b <= Unwound(cs)[k]
  {
    var s := Spliced(cs, k, [x, y]);
    assert AreClocks(s);
    a, b := Unwound(s)[k], Unwound(s)[k + 1];
    SplicedHere(cs, k, x, y);
    forall i | 0 <= i < |s| ensures Unwound(s)[i] == Spliced(Unwound(cs), k, [a, b])[i] {
      if i < k {
        SplicedBefore(cs, k, x, y, i);
      } else if i >= k + 2 {
        SplicedAfter(cs, k, x, y, i - 2);
      }
    }
    UnwoundStep(s, k - 1);
    UnwoundStep(s, k);
    assert Unwound(s)[k - 1] == Unwound(cs)[k - 1];
  }

  // ------------------------------------------------------------------
  // One more stop
  // ------------------------------------------------------------------

  /** Occupying no more than another traversal of the same section and track. */
  predicate Within(t: Traversal, u: Traversal) {
    t.section == u.section && t.track == u.track && u.enter <= t.enter && t.exit <= u.exit
  }

  predicate Covers(coarse: seq<Traversal>, fine: seq<Traversal>) {
    forall t :: t in fine ==> exists u :: u in coarse && Within(t, u)
  }

  predicate InSomeLeg(legs: seq<LegResult>, t: Traversal) {
    exists k :: 0 <= k < |legs| && legs[k].Ok? && t in legs[k].value
  }

  lemma {:induction false} GatherMembers(legs: seq<LegResult>, t: Traversal)
    requires Gather(legs).Ok?
    ensures t in Gather(legs).value <==> InSomeLeg(legs, t)
    ensures forall k :: 0 <= k < |legs| ==> legs[k].Ok?
  {
    if legs != [] {
      var front := legs[..|legs| - 1];
      GatherMembers(front, t);
      assert forall k :: 0 <= k < |front| ==> front[k] == legs[k];
      if InSomeLeg(legs, t) && !InSomeLeg(front, t) {
        assert t in legs[|legs| - 1].value;
      }
    }
  }

  predicate StrictlyBetween(c: Corridor, from: string, via: string, to: string) {
    && from in c && via in c && to in c
    && var a, b, e := IndexOf(c, from).value, IndexOf(c, via).value, IndexOf(c, to).value;
    a < b < e || e < b < a
  }

  predicate LegInside(t: Traversal, leg: LegResult) {
    leg.Ok? && exists u :: u in leg.value && Within(t, u)
  }

  /** A traversal of a shorter stretch of a leg, at times inside it, lies within one of the leg. */
  lemma ShorterLeg(c: Corridor, from: string, to: string, first: string, last: string, track: string, start: int, end: int,
                   s: int, e: int, basis: Basis, leg: nat, other: nat, t: Traversal)
    requires SectionsBetween(c, from, to).Ok? && SectionsBetween(c, first, last).Ok?
    requires forall id :: id in SectionsBetween(c, first, last).value ==> id in SectionsBetween(c, from, to).value
    requires start <= s && e <= end
    requires Leg(c, first, last, track, s, e, basis, other).Ok? && t in Leg(c, first, last, track, s, e, basis, other).value
    ensures LegInside(t, Leg(c, from, to, track, start, end, basis, leg))
  {
    assert t.section in SectionsBetween(c, first, last).value;
    var all := SectionsBetween(c, from, to).value;
    var i :| 0 <= i < |all| && all[i] == t.section;
    var u := LegTraversals(all, track, start, end, basis)[i];
    assert u in LegTraversals(all, track, start, end, basis) && Within(t, u);
  }

  lemma StretchSections(c: Corridor, from: string, via: string, to: string)
    requires StrictlyBetween(c, from, via, to)
    ensures SectionsBetween(c, from, to).Ok? && SectionsBetween(c, from, via).Ok? && SectionsBetween(c, via, to).Ok?
    ensures forall id :: id in SectionsBetween(c, from, via).value ==> id in SectionsBetween(c, from, to).value
    ensures forall id :: id in SectionsBetween(c, via, to).value ==> id in SectionsBetween(c, from, to).value
  {
    SectionsThroughStation(c, from, via, to);
  }

  datatype Ends = Ends(from: string, to: string, start: int, end: int)

  function EndsAt(stations: seq<string>, times: seq<int>, k: nat): Ends
    requires |times| == 2 * |stations| && k + 1 < |stations|
  {
    Ends(stations[k], stations[k + 1], times[2 * k + 1], times[2 * k + 2])
  }

  function LegOf(c: Corridor, e: Ends, track: string, basis: Basis, leg: nat): LegResult {
    Leg(c, e.from, e.to, track, e.start, e.end, basis, leg)
  }

  /** Splicing a station into the i-th leg splits it in two and leaves the other legs as they were. */
  lemma SplicedEnds(stations: seq<string>, times: seq<int>, i: nat, via: string, a: int, b: int, k: nat)
    requires |times| == 2 * |stations| && i + 1 < |stations| && k < |stations|
    ensures var e := EndsAt(stations, times, i);
            EndsAt(Spliced(stations, i + 1, [via]), Spliced(times, 2 * i + 2, [a, b]), k) ==
            if k < i then EndsAt(stations, times, k)
            else if k == i then Ends(e.from, via, e.start, a)
            else if k == i + 1 then Ends(via, e.to, b, e.end)
            else EndsAt(stations, times, k - 1)
  {
    var s, t := Spliced(stations, i + 1, [via]), Spliced(times, 2 * i + 2, [a, b]);
    if k < i {
      assert s[k] == stations[k] && s[k + 1] == stations[k + 1];
    } else if k > i + 1 {
      assert s[k] == stations[k - 1] && s[k + 1] == stations[k];
    }
  }

  lemma SameLegInside(c: Corridor, e: Ends, track: string, basis: Basis, k: nat, j: nat, t: Traversal)
    requires LegOf(c, e, track, basis, k).Ok? && t in LegOf(c, e, track, basis, k).value
    ensures LegInside(t, LegOf(c, e, track, basis, j))
  {
    assert Within(t, t);
  }

  lemma HalfLegInside(c: Corridor, e: Ends, via: string, a: int, b: int, track: string, basis: Basis, j: nat, k: nat,
                      half: Ends, t: Traversal)
    requires StrictlyBetween(c, e.from, via, e.to) && e.start <= a <= b <= e.end
    requires half == Ends(e.from, via, e.start, a) || half == Ends(via, e.to, b, e.end)
    requires LegOf(c, half, track, basis, k).Ok? && t in LegOf(c, half, track, basis, k).value
    ensures LegInside(t, LegOf(c, e, track, basis, j))
  {
    StretchSections(c, e.from, via, e.to);
    ShorterLeg(c, e.from, e.to, half.from, half.to, track, e.start, e.end, half.start, half.end, basis, j, k, t);
  }

  /** Every leg of the train with the extra stop lies within a leg of the train without it. */
  lemma SplicedLeg(c: Corridor, stations: seq<string>, times: seq<int>, track: string, basis: Basis,
                   i: nat, via: string, a: int, b: int, k: nat, t: Traversal) returns (j: nat)
    requires |times| == 2 * |stations| && i + 1 < |stations| && k < |stations|
    requires StrictlyBetween(c, stations[i], via, stations[i + 1])
    requires times[2 * i + 1] <= a <= b <= times[2 * i + 2]
    requires var fine := LegOf(c, EndsAt(Spliced(stations, i + 1, [via]), Spliced(times, 2 * i + 2, [a, b]), k), track, basis, k);
             fine.Ok? && t in fine.value
    ensures j < |stations| - 1 && LegInside(t, LegOf(c, EndsAt(stations, times, j), track, basis, j))
  {
    var fine := EndsAt(Spliced(stations, i + 1, [via]), Spliced(times, 2 * i + 2, [a, b]), k);
    SplicedEnds(stations, times, i, via, a, b, k);
    j := if k <= i then k else k - 1;
    var e := EndsAt(stations, times, j);
    if k == i || k == i + 1 {
      HalfLegInside(c, e, via, a, b, track, basis, j, k, fine, t);
    } else {
      SameLegInside(c, e, track, basis, k, j, t);
    }
  }

  /** The occupation with the extra stop lies within the occupation without it. */
  lemma SplicedLegs(c: Corridor, stations: seq<string>, times: seq<int>, track: string, basis: Basis,
                    i: nat, via: string, a: int, b: int)
    requires |times| == 2 * |stations| && i + 1 < |stations|
    requires StrictlyBetween(c, stations[i], via, stations[i + 1])
    requires times[2 * i + 1] <= a <= b <= times[2 * i + 2]
    requires Gather(LegList(c, stations, times, track, basis)).Ok?
    requires Gather(LegList(c, Spliced(stations, i + 1, [via]), Spliced(times, 2 * i + 2, [a, b]), track, basis)).Ok?
    ensures Covers(Gather(LegList(c, stations, times, track, basis)).value,
                   Gather(LegList(c, Spliced(stations, i + 1, [via]), Spliced(times, 2 * i + 2, [a, b]), track, basis)).value)
  {
    var fineStations, fineTimes := Spliced(stations, i + 1, [via]), Spliced(times, 2 * i + 2, [a, b]);
    var coarse, fine := LegList(c, stations, times, track, basis), LegList(c, fineStations, fineTimes, track, basis);
    forall t | t in Gather(fine).value ensures exists u :: u in Gather(coarse).value && Within(t, u) {
      GatherMembers(fine, t);
      var k :| 0 <= k < |fine| && fine[k].Ok? && t in fine[k].value;
      LegListAt(c, fineStations, fineTimes, track, basis, k);
      var j := SplicedLeg(c, stations, times, track, basis, i, via, a, b, k, t);
      LegListAt(c, stations, times, track, basis, j);
      var u :| u in coarse[j].value && Within(t, u);
      GatherMembers(coarse, u);
      assert InSomeLeg(coarse, u);
    }
  }

  // ------------------------------------------------------------------
  // The record that states the stop
  // ------------------------------------------------------------------

  lemma {:induction false} CollectConcat(a: seq<StopResult>, b: seq<StopResult>)
    ensures Collect(a + b).Ok? <==> Collect(a).Ok? && Collect(b).Ok?
    ensures Collect(a + b).Ok? ==> Collect(a + b).value.clocks == Collect(a).value.clocks + Collect(b).value.clocks
  {
    if b == [] {
      assert a + b == a;
    } else {
      assert (a + b)[..|a + b| - 1] == a + b[..|b| - 1];
      CollectConcat(a, b[..|b| - 1]);
    }
  }

  lemma CollectSpliced(times: seq<StopResult>, n: nat, one: StopResult)
    requires n <= |times| && Collect(Spliced(times, n, [one])).Ok?
    ensures Collect(times).Ok? && one.Ok?
    ensures Collect(Spliced(times, n, [one])).value.clocks
            == Spliced(Collect(times).value.clocks, 2 * n, [one.value.arrival, one.value.departure])
  {
    var front, back := times[..n], times[n..];
    CollectConcat(front + [one], back);
    CollectConcat(front, [one]);
    CollectConcat(front, back);
    assert front + back == times;
    assert [one][..0] == [];
    assert Collect(times).value.clocks[..2 * n] == Collect(front).value.clocks;
  }

  lemma ListSpliced(reader: Stop -> StopResult, stops: seq<Stop>, n: nat, stop: Stop, one: StopResult)
    requires n <= |stops| && one == reader(stop)
    ensures Read(reader, Spliced(stops, n, [stop])) == Spliced(Read(reader, stops), n, [one])
  {
    var front, back := stops[..n], stops[n..];
    assert front + back == stops;
    ListConcat(reader, front, back);
    ListConcat(reader, front + [stop], back);
    ListConcat(reader, front, [stop]);
    assert Read(reader, [stop]) == [one];
  }

  lemma ListConcat(reader: Stop -> StopResult, a: seq<Stop>, b: seq<Stop>)
    ensures Read(reader, a + b) == Read(reader, a) + Read(reader, b)
  {
  }

  /** Adding a stop adds its two readings. */
  lemma ReadSpliced(stops: seq<Stop>, n: nat, stop: Stop, preferActual: bool) returns (x: int, y: int)
    requires n <= |stops| && ReadStops(Spliced(stops, n, [stop]), preferActual).Ok?
    ensures ReadStops(stops, preferActual).Ok? && IsClock(x) && IsClock(y)
    ensures ReadStops(Spliced(stops, n, [stop]), preferActual).value.clocks
            == Spliced(ReadStops(stops, preferActual).value.clocks, 2 * n, [x, y])
  {
    var one := ReadStop(stop, preferActual);
    ListSpliced(Reader(preferActual), stops, n, stop, one);
    CollectSpliced(StopList(stops, preferActual), n, one);
    x, y := one.value.arrival, one.value.departure;
  }

  function WithStop(record: Record, i: nat, stop: Stop): Record
    requires i < |record.stops|
  {
    record.(stops := Spliced(record.stops, i + 1, [stop]))
  }

  lemma ShiftedSpliced(times: seq<int>, k: nat, a: int, b: int, delta: int)
    requires k <= |times|
    ensures Shifted(Spliced(times, k, [a, b]), delta) == Spliced(Shifted(times, delta), k, [a + delta, b + delta])
  {
  }

  lemma StationsSpliced(stops: seq<Stop>, k: nat, stop: Stop)
    requires k <= |stops|
    ensures StationIds(Spliced(stops, k, [stop])) == Spliced(StationIds(stops), k, [stop.stationId])
  {
  }

  lemma SplicedTimes(cs: seq<int>, k: nat, x: int, y: int, delta: int) returns (a: int, b: int)
    requires AreClocks(cs) && IsClock(x) && IsClock(y) && 0 < k < |cs|
    requires Shifted(Unwound(Spliced(cs, k, [x, y])), delta)[k + 1] <= Shifted(Unwound(cs), delta)[k]
    ensures Shifted(Unwound(Spliced(cs, k, [x, y])), delta) == Spliced(Shifted(Unwound(cs), delta), k, [a, b])
    ensures Shifted(Unwound(cs), delta)[k - 1] <= a <= b <= Shifted(Unwound(cs), delta)[k]
  {
    a, b := SplicedUnwound(cs, k, x, y);
    ShiftedSpliced(Unwound(cs), k, a, b, delta);
    a, b := a + delta, b + delta;
  }

  /** A record's times are its readings' first occurrences moved by one offset. */
  predicate TimesOf(times: seq<int>, clocks: seq<int>, delta: int) { times == Shifted(Unwound(clocks), delta) }

  lemma TimedTimes(record: Record, opts: Options) returns (running: Running)
    requires record.stops != [] && Timed(record, opts).Ok?
    ensures ReadStops(record.stops, opts.preferActual) == Ok(running) && AreClocks(running.clocks)
    ensures |running.clocks| == 2 * |record.stops|
    ensures TimesOf(Timed(record, opts).value.times, running.clocks, Offset(record, opts, running.observed))
    ensures Timed(record, opts).value.basis == BasisOf(running.observed, DelayOf(record.delay))
  {
    TimedIsShift(record, opts);
    running := ReadStops(record.stops, opts.preferActual).value;
  }

  lemma TimesSpliced(coarse: seq<int>, fine: seq<int>, cs: seq<int>, fineCs: seq<int>, k: nat, x: int, y: int, delta: int)
    returns (a: int, b: int)
    requires AreClocks(cs) && IsClock(x) && IsClock(y) && 0 < k < |cs| == |coarse| && |fine| == |cs| + 2
    requires fineCs == Spliced(cs, k, [x, y]) && TimesOf(coarse, cs, delta) && TimesOf(fine, fineCs, delta)
    requires fine[k + 1] <= coarse[k]
    ensures fine == Spliced(coarse, k, [a, b]) && coarse[k - 1] <= a <= b <= coarse[k]
  {
    a, b := SplicedTimes(cs, k, x, y, delta);
  }

  lemma ClocksSpliced(stops: seq<Stop>, fine: seq<Stop>, n: nat, k: nat, stop: Stop, preferActual: bool,
                      coarseRun: Running, fineRun: Running)
    returns (x: int, y: int)
    requires n <= |stops| && k == 2 * n && fine == Spliced(stops, n, [stop])
    requires ReadStops(stops, preferActual) == Ok(coarseRun) && ReadStops(fine, preferActual) == Ok(fineRun)
    ensures IsClock(x) && IsClock(y) && fineRun.clocks == Spliced(coarseRun.clocks, k, [x, y])
  {
    x, y := ReadSpliced(stops, n, stop, preferActual);
  }

  /** Stating a stop inside a leg, on the same timing basis, splices its two times in and moves no other. */
  lemma TimedSpliced(record: Record, fine: Record, opts: Options, i: nat, k: nat, stop: Stop) returns (a: int, b: int)
    requires i + 1 < |record.stops| && k == 2 * i + 2 && fine == WithStop(record, i, stop)
    requires Timed(record, opts).Ok? && Timed(fine, opts).Ok?
    requires Timed(fine, opts).value.basis == Timed(record, opts).value.basis
    requires Timed(fine, opts).value.times[k + 1] <= Timed(record, opts).value.times[k]
    ensures Timed(fine, opts).value.times == Spliced(Timed(record, opts).value.times, k, [a, b])
    ensures Timed(record, opts).value.times[k - 1] <= a <= b <= Timed(record, opts).value.times[k]
  {
    var coarseRun := TimedTimes(record, opts);
    var fineRun := TimedTimes(fine, opts);
    var x, y := ClocksSpliced(record.stops, fine.stops, i + 1, k, stop, opts.preferActual, coarseRun, fineRun);
    SameOffset(record, i, stop, opts, coarseRun.observed, fineRun.observed);
    a, b := TimesSpliced(Timed(record, opts).value.times, Timed(fine, opts).value.times, coarseRun.clocks, fineRun.clocks,
                         k, x, y, Offset(record, opts, coarseRun.observed));
  }

  /** One timing basis means one offset. */
  lemma SameOffset(record: Record, i: nat, stop: Stop, opts: Options, coarse: bool, fine: bool)
    requires i < |record.stops| && BasisOf(fine, DelayOf(record.delay)) == BasisOf(coarse, DelayOf(record.delay))
    ensures Offset(WithStop(record, i, stop), opts, fine) == Offset(record, opts, coarse)
  {
  }

  /**
   Stating a stop a train skipped, at a station inside a leg and at times
   inside it, on the same timing basis: the train then occupies no section
   at any time it did not occupy before.
   */
  lemma SkippedStopOverApproximates(record: Record, c: Corridor, opts: Options, i: nat, stop: Stop)
    requires i + 1 < |record.stops|
    requires Converted(record, c, opts).Ok? && Converted(WithStop(record, i, stop), c, opts).Ok?
    requires StrictlyBetween(c, record.stops[i].stationId, stop.stationId, record.stops[i + 1].stationId)
    requires Timed(WithStop(record, i, stop), opts).value.basis == Timed(record, opts).value.basis
    requires Timed(WithStop(record, i, stop), opts).value.times[2 * i + 3] <= Timed(record, opts).value.times[2 * i + 2]
    ensures Covers(Converted(record, c, opts).value.traversals, Converted(WithStop(record, i, stop), c, opts).value.traversals)
  {
    var a, b := TimedSpliced(record, WithStop(record, i, stop), opts, i, 2 * i + 2, stop);
    StationsSpliced(record.stops, i + 1, stop);
    var timed := Timed(record, opts).value;
    SplicedLegs(c, StationIds(record.stops), timed.times, record.trackId, timed.basis, i, stop.stationId, a, b);
  }
}
