/**
 What a converted train says of its record: the published clocks it keeps, what
 a delay does to it, and which records are converted at all.
 */
module TrainTimes {
  import opened Wrappers
  import opened ClockLift
  import opened ClockText
  import opened HorizonAnchor
  import opened Topology
  import opened TrainConversion
  import opened TrainOccupation
  import opened SkippedStops

  // ------------------------------------------------------------------
  // The clocks of a record
  // ------------------------------------------------------------------

  predicate Reads(text: string, clock: int) { ParseClock(text) == Ok(clock) }

  /** An actual time counts before a scheduled one if it is preferred, and the arrival before the departure. */
  predicate Arrives(stop: Stop, preferActual: bool, clock: int) {
    if preferActual && stop.actualArrival != "" then Reads(stop.actualArrival, clock)
    else if stop.scheduledArrival != "" then Reads(stop.scheduledArrival, clock)
    else if preferActual && stop.actualDeparture != "" then Reads(stop.actualDeparture, clock)
    else Reads(stop.scheduledDeparture, clock)
  }

  predicate Departs(stop: Stop, preferActual: bool, clock: int) {
    if preferActual && stop.actualDeparture != "" then Reads(stop.actualDeparture, clock)
    else if stop.scheduledDeparture != "" then Reads(stop.scheduledDeparture, clock)
    else if preferActual && stop.actualArrival != "" then Reads(stop.actualArrival, clock)
    else Reads(stop.scheduledArrival, clock)
  }

  predicate HasActual(stop: Stop) { stop.actualArrival != "" || stop.actualDeparture != "" }

  /** Some actual time is preferred and stated. */
  predicate IsObserved(stops: seq<Stop>, preferActual: bool) { preferActual && exists i :: 0 <= i < |stops| && HasActual(stops[i]) }

  lemma NothingUnread(text: string)
    requires text == ""
    ensures ParseClock(text).Err?
  {
  }

  lemma StopReadsExactly(stop: Stop, preferActual: bool, r: StopTimes)
    ensures ReadTimes(stop, preferActual) == Ok(r) <==>
            && Arrives(stop, preferActual, r.arrival) && Departs(stop, preferActual, r.departure)
            && r.observed == (preferActual && HasActual(stop))
  {
    NothingUnread("");
  }

  /** The clocks are those of stop k. */
  predicate StopHas(stops: seq<Stop>, preferActual: bool, clocks: seq<int>, k: nat)
    requires k < |stops| && |clocks| == 2 * |stops|
  {
    Arrives(stops[k], preferActual, clocks[2 * k]) && Departs(stops[k], preferActual, clocks[2 * k + 1])
  }

  /** The arrivals and departures the stops state, in running order. */
  predicate ClocksOf(stops: seq<Stop>, preferActual: bool, clocks: seq<int>) {
    |clocks| == 2 * |stops| && forall k :: 0 <= k < |stops| ==> StopHas(stops, preferActual, clocks, k)
  }

  predicate AllDaysReadable(stops: seq<Stop>) { forall k :: 0 <= k < |stops| ==> DaysReadable(stops[k]) }

  predicate Gives(times: seq<StopResult>, clocks: seq<int>, k: nat)
    requires k < |times| && |clocks| == 2 * |times|
  {
    times[k].Ok? && times[k].value.arrival == clocks[2 * k] && times[k].value.departure == clocks[2 * k + 1]
  }

  lemma {:induction false} CollectExactly(times: seq<StopResult>, clocks: seq<int>)
    requires |clocks| == 2 * |times|
    ensures (Collect(times).Ok? && Collect(times).value.clocks == clocks) <==>
            forall k :: 0 <= k < |times| ==> Gives(times, clocks, k)
  {
    if times == [] {
      assert clocks == [];
    } else {
      var n := |times| - 1;
      var front, early := times[..n], clocks[..2 * n];
      CollectExactly(front, early);
      assert clocks == early + [clocks[2 * n], clocks[2 * n + 1]];
      assert forall k :: 0 <= k < n ==> Gives(front, early, k) == Gives(times, clocks, k);
      if forall k :: 0 <= k < |times| ==> Gives(times, clocks, k) {
        assert Gives(times, clocks, n);
      } else if Collect(times).Ok? {
        assert Collect(front).Ok? && times[n].Ok?;
        assert Collect(times).value.clocks == Collect(front).value.clocks + [times[n].value.arrival, times[n].value.departure];
        if Collect(times).value.clocks == clocks {
          assert Collect(front).value.clocks == Collect(times).value.clocks[..2 * n] == early;
          assert Gives(times, clocks, n);
        }
      }
    }
  }

  lemma {:induction false} CollectObserved(times: seq<StopResult>)
    requires Collect(times).Ok?
    ensures forall k :: 0 <= k < |times| ==> times[k].Ok?
    ensures Collect(times).value.observed <==> exists k :: 0 <= k < |times| && times[k].Ok? && times[k].value.observed
  {
    if times != [] {
      var front := times[..|times| - 1];
      CollectObserved(front);
      assert forall k :: 0 <= k < |front| ==> front[k] == times[k];
    }
  }

  lemma StopGives(stops: seq<Stop>, preferActual: bool, clocks: seq<int>, k: nat)
    requires k < |stops| && |clocks| == 2 * |stops|
    ensures Gives(StopList(stops, preferActual), clocks, k) <==> StopHas(stops, preferActual, clocks, k) && DaysReadable(stops[k])
  {
    StopListAt(stops, preferActual, k);
    StopReadsExactly(stops[k], preferActual, StopTimes(clocks[2 * k], clocks[2 * k + 1], preferActual && HasActual(stops[k])));
    if ReadTimes(stops[k], preferActual).Ok? {
      StopReadsExactly(stops[k], preferActual, ReadTimes(stops[k], preferActual).value);
    }
  }

  /** The stops read exactly as the clocks they state, if their stated days read. */
  lemma ReadsExactly(stops: seq<Stop>, preferActual: bool, clocks: seq<int>)
    requires |clocks| == 2 * |stops|
    ensures (ReadStops(stops, preferActual).Ok? && ReadStops(stops, preferActual).value.clocks == clocks) <==>
            ClocksOf(stops, preferActual, clocks) && AllDaysReadable(stops)
  {
    CollectExactly(StopList(stops, preferActual), clocks);
    forall k | 0 <= k < |stops|
      ensures Gives(StopList(stops, preferActual), clocks, k) <==> StopHas(stops, preferActual, clocks, k) && DaysReadable(stops[k])
    {
      StopGives(stops, preferActual, clocks, k);
    }
  }

  lemma ObservedExactly(stops: seq<Stop>, preferActual: bool)
    requires ReadStops(stops, preferActual).Ok?
    ensures ReadStops(stops, preferActual).value.observed <==> IsObserved(stops, preferActual)
  {
    var times := StopList(stops, preferActual);
    CollectObserved(times);
    forall k | 0 <= k < |stops| ensures times[k].Ok? && times[k].value.observed == (preferActual && HasActual(stops[k])) {
      StopListAt(stops, preferActual, k);
      StopReadsExactly(stops[k], preferActual, times[k].value);
    }
  }

  // ------------------------------------------------------------------
  // Delays
  // ------------------------------------------------------------------

  /** Minutes later, and marked as delayed if that is any. */
  function Later(t: Traversal, d: int): Traversal {
    t.(enter := t.enter + d, exit := t.exit + d, basis := if d == 0 then Scheduled else ScheduledPlusDelay)
  }

  function Delayer(d: int): Rewriting { t => Later(t, d) }

  lemma LegDelayed(c: Corridor, from: string, to: string, track: string, start: int, end: int, leg: nat, d: int, newStart: int, newEnd: int)
    requires newStart == start + d && newEnd == end + d
    ensures Leg(c, from, to, track, newStart, newEnd, if d == 0 then Scheduled else ScheduledPlusDelay, leg) ==
            LegMapped(Leg(c, from, to, track, start, end, Scheduled, leg), Delayer(d))
  {
    var sections := SectionsBetween(c, from, to);
    if sections.Ok? {
      assert LegTraversals(sections.value, track, newStart, newEnd, if d == 0 then Scheduled else ScheduledPlusDelay)
             == Mapped(LegTraversals(sections.value, track, start, end, Scheduled), Delayer(d));
    }
  }

  lemma LegsDelayed(c: Corridor, stations: seq<string>, times: seq<int>, track: string, d: int, late: seq<int>, basis: Basis)
    requires |times| == 2 * |stations| && stations != [] && late == Shifted(times, d)
    requires basis == if d == 0 then Scheduled else ScheduledPlusDelay
    ensures Gather(LegList(c, stations, late, track, basis)) == LegMapped(Gather(LegList(c, stations, times, track, Scheduled)), Delayer(d))
  {
    var legs, mapped := LegList(c, stations, times, track, Scheduled), LegList(c, stations, late, track, basis);
    forall i | 0 <= i < |legs| ensures mapped[i] == LegMapped(legs[i], Delayer(d)) {
      LegListAt(c, stations, times, track, Scheduled, i);
      LegListAt(c, stations, late, track, basis, i);
      LegDelayed(c, stations[i], stations[i + 1], track, times[2 * i + 1], times[2 * i + 2], i, d, late[2 * i + 1], late[2 * i + 2]);
    }
    EachLegMapped(legs, mapped, Delayer(d));
  }

  predicate SameButDelay(a: Record, b: Record) { b == a.(delay := b.delay) }

  /** How the timing of a record changes with its delay. */
  lemma TimedFromDelayed(punctual: Record, late: Record, opts: Options, running: Running, d: int)
    requires SameButDelay(punctual, late) && punctual.delay == Whole(0) && late.delay == Whole(d)
    requires |running.clocks| == 2 * |punctual.stops|
    ensures var a, b := TimedFrom(punctual, opts, running), TimedFrom(late, opts, running);
            if a.Err? then b == a
            else if running.observed then b == a && a.value.basis == Observed
            else
              && a.value.basis == Scheduled
              && b == Ok(Timing(Shifted(a.value.times, d), if d == 0 then Scheduled else ScheduledPlusDelay))
  {
    var resolved := Resolved(running.clocks, opts.maxDays, opts.maxLeg);
    if resolved.Ok? {
      ResolvedLength(running.clocks, opts.maxDays, opts.maxLeg);
      var placed := Placed(punctual, running.clocks, resolved.value, opts.horizon);
      assert placed == Placed(late, running.clocks, resolved.value, opts.horizon);
      if placed.Ok? {
        Unshifted(placed.value);
      }
    }
  }

  lemma TimedDelayed(punctual: Record, late: Record, opts: Options, d: int)
    requires SameButDelay(punctual, late) && punctual.delay == Whole(0) && late.delay == Whole(d)
    ensures var a, b := Timed(punctual, opts), Timed(late, opts);
            if a.Err? then b == a
            else if IsObserved(punctual.stops, opts.preferActual) then b == a && a.value.basis == Observed
            else
              && a.value.basis == Scheduled
              && b == Ok(Timing(Shifted(a.value.times, d), if d == 0 then Scheduled else ScheduledPlusDelay))
  {
    var running := ReadStops(punctual.stops, opts.preferActual);
    if running.Ok? {
      ObservedExactly(punctual.stops, opts.preferActual);
      TimedFromDelayed(punctual, late, opts, running.value, d);
    }
  }

  lemma SameProblem(punctual: Record, late: Record, c: Corridor)
    requires SameButDelay(punctual, late)
    ensures RecordProblem(late, c) == RecordProblem(punctual, c)
  {
  }

  /** A delay of a train without observed times moves every traversal by it, and says so; the train is refused alike. */
  lemma DelayMovesScheduled(punctual: Record, late: Record, c: Corridor, opts: Options, d: int)
    requires SameButDelay(punctual, late) && punctual.delay == Whole(0) && late.delay == Whole(d)
    requires !IsObserved(punctual.stops, opts.preferActual)
    ensures Converted(late, c, opts) == TrainMapped(Converted(punctual, c, opts), Delayer(d))
  {
    SameProblem(punctual, late, c);
    TimedDelayed(punctual, late, opts, d);
    if RecordProblem(punctual, c).None? && Timed(punctual, opts).Ok? {
      var times := Timed(punctual, opts).value.times;
      LegsDelayed(c, StationIds(punctual.stops), times, punctual.trackId, d, Shifted(times, d),
                  if d == 0 then Scheduled else ScheduledPlusDelay);
    }
  }

  /** A delay of a train with observed times changes nothing: they are already the real ones. */
  lemma DelaySparesObserved(punctual: Record, late: Record, c: Corridor, opts: Options, d: int)
    requires SameButDelay(punctual, late) && punctual.delay == Whole(0) && late.delay == Whole(d)
    requires IsObserved(punctual.stops, opts.preferActual)
    ensures Converted(late, c, opts) == Converted(punctual, c, opts)
    ensures Converted(late, c, opts).Ok? ==> forall t :: t in Converted(late, c, opts).value.traversals ==> t.basis == Observed
  {
    SameProblem(punctual, late, c);
    TimedDelayed(punctual, late, opts, d);
    if Converted(late, c, opts).Ok? {
      var timed := Timed(late, opts).value;
      LegsHaveBasis(c, StationIds(late.stops), timed.times, late.trackId, timed.basis);
    }
  }

  lemma LegsHaveBasis(c: Corridor, stations: seq<string>, times: seq<int>, track: string, basis: Basis)
    requires |times| == 2 * |stations| && stations != [] && Gather(LegList(c, stations, times, track, basis)).Ok?
    ensures forall t :: t in Gather(LegList(c, stations, times, track, basis)).value ==> t.basis == basis
  {
    var legs := LegList(c, stations, times, track, basis);
    forall t | t in Gather(legs).value ensures t.basis == basis {
      GatherMembers(legs, t);
      var k :| 0 <= k < |legs| && legs[k].Ok? && t in legs[k].value;
      LegHasBasis(c, stations, times, track, basis, k, t);
    }
  }

  lemma LegHasBasis(c: Corridor, stations: seq<string>, times: seq<int>, track: string, basis: Basis, k: nat, t: Traversal)
    requires |times| == 2 * |stations| && k + 1 < |stations|
    requires LegList(c, stations, times, track, basis)[k].Ok? && t in LegList(c, stations, times, track, basis)[k].value
    ensures t.basis == basis
  {
  }

  /** A delay that is not stated is a delay of zero. */
  lemma NoDelayIsZero(silent: Record, punctual: Record, c: Corridor, opts: Options)
    requires SameButDelay(silent, punctual) && silent.delay == NotStated && punctual.delay == Whole(0)
    ensures Converted(silent, c, opts) == Converted(punctual, c, opts)
  {
    SameProblem(silent, punctual, c);
    var running := ReadStops(silent.stops, opts.preferActual);
    if running.Ok? {
      SilentTimedFrom(silent, punctual, opts, running.value);
    }
  }

  lemma SilentTimedFrom(silent: Record, punctual: Record, opts: Options, running: Running)
    requires SameButDelay(silent, punctual) && silent.delay == NotStated && punctual.delay == Whole(0)
    requires |running.clocks| == 2 * |silent.stops|
    ensures TimedFrom(silent, opts, running) == TimedFrom(punctual, opts, running)
  {
    var resolved := Resolved(running.clocks, opts.maxDays, opts.maxLeg);
    if resolved.Ok? {
      ResolvedLength(running.clocks, opts.maxDays, opts.maxLeg);
      assert Placed(silent, running.clocks, resolved.value, opts.horizon) == Placed(punctual, running.clocks, resolved.value, opts.horizon);
    }
  }

  // ------------------------------------------------------------------
  // Published clocks
  // ------------------------------------------------------------------

  /** The traversal is of leg k: one of its sections, from the departure its first stop states to the arrival its second does. */
  predicate KeepsLeg(record: Record, c: Corridor, preferActual: bool, k: nat, t: Traversal) {
    && k + 1 < |record.stops|
    && t.track == record.trackId
    && var sections := SectionsBetween(c, record.stops[k].stationId, record.stops[k + 1].stationId);
    && sections.Ok? && t.section in sections.value
    && Departs(record.stops[k], preferActual, t.enter % DAY)
    && Arrives(record.stops[k + 1], preferActual, t.exit % DAY)
    && 0 < t.exit - t.enter < DAY
  }

  lemma MinuteReads(clocks: seq<int>, i: nat)
    requires AreClocks(clocks) && i < |clocks|
    ensures Unwound(clocks)[i] % DAY == clocks[i]
  {
    assert Unwound(clocks)[i] == clocks[i] + DayOf(clocks, i) * DAY;
  }

  lemma LegTimes(c: Corridor, stations: seq<string>, times: seq<int>, track: string, basis: Basis, k: nat, t: Traversal)
    requires |times| == 2 * |stations| && k + 1 < |stations|
    requires LegList(c, stations, times, track, basis)[k].Ok? && t in LegList(c, stations, times, track, basis)[k].value
    ensures t.track == track && t.enter == times[2 * k + 1] && t.exit == times[2 * k + 2] && t.enter < t.exit
    ensures SectionsBetween(c, stations[k], stations[k + 1]).Ok? && t.section in SectionsBetween(c, stations[k], stations[k + 1]).value
  {
    LegListAt(c, stations, times, track, basis, k);
  }

  lemma ClockKept(clocks: seq<int>, times: seq<int>, k: nat, from: int, to: int)
    requires AreClocks(clocks) && times == Unwound(clocks) && 2 * k + 2 < |clocks| && from == times[2 * k + 1] && to == times[2 * k + 2]
    ensures from % DAY == clocks[2 * k + 1] && to % DAY == clocks[2 * k + 2] && to - from < DAY
  {
    MinuteReads(clocks, 2 * k + 1);
    MinuteReads(clocks, 2 * k + 2);
    UnwoundStep(clocks, 2 * k + 1);
  }

  lemma LegKept(record: Record, c: Corridor, preferActual: bool, clocks: seq<int>, times: seq<int>, k: nat, t: Traversal)
    requires ClocksOf(record.stops, preferActual, clocks) && AreClocks(clocks) && times == Unwound(clocks) && k + 1 < |record.stops|
    requires t.track == record.trackId && t.enter == times[2 * k + 1] && t.exit == times[2 * k + 2] && t.enter < t.exit
    requires SectionsBetween(c, record.stops[k].stationId, record.stops[k + 1].stationId).Ok?
    requires t.section in SectionsBetween(c, record.stops[k].stationId, record.stops[k + 1].stationId).value
    ensures KeepsLeg(record, c, preferActual, k, t)
  {
    ClockKept(clocks, times, k, t.enter, t.exit);
    EndsKept(record.stops, preferActual, clocks, k, k + 1, t.enter % DAY, t.exit % DAY);
  }

  lemma LegListKept(record: Record, c: Corridor, preferActual: bool, clocks: seq<int>, timed: Timing, legs: seq<LegResult>, k: nat, t: Traversal)
    requires ClocksOf(record.stops, preferActual, clocks) && AreClocks(clocks) && timed.times == Unwound(clocks)
    requires record.stops != [] && legs == LegList(c, StationIds(record.stops), timed.times, record.trackId, timed.basis)
    requires k < |legs| && legs[k].Ok? && t in legs[k].value
    ensures KeepsLeg(record, c, preferActual, k, t)
  {
    var stations := StationIds(record.stops);
    LegTimes(c, stations, timed.times, record.trackId, timed.basis, k, t);
    assert stations[k] == record.stops[k].stationId && stations[k + 1] == record.stops[k + 1].stationId;
    LegKept(record, c, preferActual, clocks, timed.times, k, t);
  }

  lemma EndsKept(stops: seq<Stop>, preferActual: bool, clocks: seq<int>, k: nat, next: nat, left: int, reached: int)
    requires ClocksOf(stops, preferActual, clocks) && next == k + 1 < |stops|
    requires left == clocks[2 * k + 1] && reached == clocks[2 * next]
    ensures Departs(stops[k], preferActual, left) && Arrives(stops[next], preferActual, reached)
  {
    assert StopHas(stops, preferActual, clocks, k) && StopHas(stops, preferActual, clocks, next);
  }

  /** Where a traversal comes from. */
  lemma LegOfTraversal(record: Record, c: Corridor, opts: Options, t: Traversal) returns (timed: Timing, legs: seq<LegResult>, k: nat)
    requires Converted(record, c, opts).Ok? && t in Converted(record, c, opts).value.traversals
    ensures record.stops != [] && Timed(record, opts) == Ok(timed)
    ensures legs == LegList(c, StationIds(record.stops), timed.times, record.trackId, timed.basis)
    ensures k < |legs| && legs[k].Ok? && t in legs[k].value
  {
    timed := Timed(record, opts).value;
    legs := LegList(c, StationIds(record.stops), timed.times, record.trackId, timed.basis);
    GatherMembers(legs, t);
    k :| 0 <= k < |legs| && legs[k].Ok? && t in legs[k].value;
  }

  /** Each traversal of a train that is neither anchored nor delayed keeps the clocks its record publishes for its leg. */
  lemma TraversalsKeepClocks(record: Record, c: Corridor, opts: Options, t: Traversal)
    requires opts.horizon.None? && record.delay == NotStated
    requires Converted(record, c, opts).Ok? && t in Converted(record, c, opts).value.traversals
    ensures exists k: nat :: KeepsLeg(record, c, opts.preferActual, k, t)
  {
    var timed, legs, k := LegOfTraversal(record, c, opts, t);
    var clocks := PlainTimes(record, opts, timed);
    LegListKept(record, c, opts.preferActual, clocks, timed, legs, k, t);
  }

  lemma PlainTimes(record: Record, opts: Options, timed: Timing) returns (clocks: seq<int>)
    requires record.stops != [] && opts.horizon.None? && record.delay == NotStated && Timed(record, opts) == Ok(timed)
    ensures ClocksOf(record.stops, opts.preferActual, clocks) && AreClocks(clocks) && timed.times == Unwound(clocks)
  {
    TimedIsShift(record, opts);
    clocks := ReadStops(record.stops, opts.preferActual).value.clocks;
    Unshifted(Unwound(clocks));
    ReadsExactly(record.stops, opts.preferActual, clocks);
  }

  // ------------------------------------------------------------------
  // Which records are converted
  // ------------------------------------------------------------------

  /** A number, a bare track, and at least two different named stations of the corridor. */
  predicate Acceptable(record: Record, c: Corridor) {
    && record.trainNumber != "" && record.trackId != "" && ':' !in record.trackId
    && |record.stops| >= 2
    && (forall i :: 0 <= i < |record.stops| ==> record.stops[i].stationId != "" && record.stops[i].stationId in c)
    && (forall i, j :: 0 <= i < j < |record.stops| ==> record.stops[i].stationId != record.stops[j].stationId)
  }

  /** The days a stop states are the midnights passed by then. */
  predicate DaysAgree(stops: seq<Stop>, clocks: seq<int>, k: nat)
    requires k < |stops| && |clocks| == 2 * |stops|
  {
    && (stops[k].arrivalDay.Whole? ==> stops[k].arrivalDay.n == DayOf(clocks, 2 * k))
    && (stops[k].departureDay.Whole? ==> stops[k].departureDay.n == DayOf(clocks, 2 * k + 1))
  }

  /** The horizon starts on a whole minute and the train ends by the last day of the calendar. */
  predicate CanAnchor(record: Record, horizon: Horizon, clocks: seq<int>)
    requires clocks != []
  {
    && record.serviceDate.Date? && horizon.HorizonAt? && horizon.start % MINUTE == 0
    && record.serviceDate.day + DayOf(clocks, |clocks| - 1) <= LAST_DAY
  }

  /** The clocks can be run: within the bounds, as the stated days say, and with time for every leg. */
  predicate Runnable(record: Record, opts: Options, clocks: seq<int>)
    requires clocks != [] && |clocks| == 2 * |record.stops|
  {
    && AllDaysReadable(record.stops) && !record.delay.Unreadable?
    && 0 <= opts.maxDays && Fits(clocks, opts.maxDays, opts.maxLeg)
    && (forall k :: 0 <= k < |record.stops| ==> DaysAgree(record.stops, clocks, k))
    && (opts.horizon.Some? ==> CanAnchor(record, opts.horizon.value, clocks))
    && (forall k :: 0 <= k < |record.stops| - 1 ==> TakesTime(clocks, k))
  }

  predicate TakesTime(clocks: seq<int>, k: nat)
    requires 2 * k + 2 < |clocks|
  {
    clocks[2 * k + 1] != clocks[2 * k + 2]
  }

  lemma ProblemExactly(record: Record, c: Corridor)
    ensures RecordProblem(record, c).None? && !Compound(record.trackId) <==> Acceptable(record, c)
  {
    var ids := StationIds(record.stops);
    assert forall i :: 0 <= i < |ids| ==> ids[i] == record.stops[i].stationId;
  }

  lemma ResolvesExactly(clocks: seq<int>, maxDays: int, maxLeg: int)
    requires AreClocks(clocks)
    ensures Resolved(clocks, maxDays, maxLeg).Ok? <==> 0 <= maxDays && Fits(clocks, maxDays, maxLeg)
  {
    if 0 <= maxDays { LiftsUnwound(clocks, maxDays, maxLeg); }
  }

  lemma DisagreesExactly(stops: seq<Stop>, clocks: seq<int>, k: nat)
    requires k < |stops| && |clocks| == 2 * |stops|
    ensures (!DayDisagrees(stops, Unwound(clocks), clocks, 2 * k) && !DayDisagrees(stops, Unwound(clocks), clocks, 2 * k + 1)) <==>
            DaysAgree(stops, clocks, k)
  {
    InferredIsDayOf(clocks, 2 * k);
    InferredIsDayOf(clocks, 2 * k + 1);
  }

  lemma AgreeExactly(stops: seq<Stop>, clocks: seq<int>)
    requires |clocks| == 2 * |stops|
    ensures (forall i :: 0 <= i < |clocks| ==> !DayDisagrees(stops, Unwound(clocks), clocks, i)) <==>
            forall k :: 0 <= k < |stops| ==> DaysAgree(stops, clocks, k)
  {
    forall k | 0 <= k < |stops|
      ensures (!DayDisagrees(stops, Unwound(clocks), clocks, 2 * k) && !DayDisagrees(stops, Unwound(clocks), clocks, 2 * k + 1)) <==>
              DaysAgree(stops, clocks, k)
    {
      DisagreesExactly(stops, clocks, k);
    }
    if forall k :: 0 <= k < |stops| ==> DaysAgree(stops, clocks, k) {
      forall i | 0 <= i < |clocks| ensures !DayDisagrees(stops, Unwound(clocks), clocks, i) {
        assert DaysAgree(stops, clocks, i / 2);
        assert i == 2 * (i / 2) || i == 2 * (i / 2) + 1;
      }
    }
  }

  /** The times are those clocks' first occurrences moved by one constant. */
  lemma TimedExactly(record: Record, opts: Options, clocks: seq<int>) returns (delta: int)
    requires record.stops != [] && ClocksOf(record.stops, opts.preferActual, clocks)
    ensures Timed(record, opts).Ok? <==>
            && AllDaysReadable(record.stops) && !record.delay.Unreadable?
            && 0 <= opts.maxDays && Fits(clocks, opts.maxDays, opts.maxLeg)
            && (forall k :: 0 <= k < |record.stops| ==> DaysAgree(record.stops, clocks, k))
            && (opts.horizon.Some? ==> CanAnchor(record, opts.horizon.value, clocks))
    ensures Timed(record, opts).Ok? ==> AreClocks(clocks) && Timed(record, opts).value.times == Shifted(Unwound(clocks), delta)
  {
    delta := 0;
    ReadsExactly(record.stops, opts.preferActual, clocks);
    TimedIsShift(record, opts);
    var running := ReadStops(record.stops, opts.preferActual);
    if running.Ok? {
      ReadsExactly(record.stops, opts.preferActual, running.value.clocks);
      SameClocks(record.stops, opts.preferActual, running.value.clocks, clocks);
      ResolvesExactly(clocks, opts.maxDays, opts.maxLeg);
      AgreeExactly(record.stops, clocks);
      delta := Offset(record, opts, running.value.observed);
    }
  }

  lemma SameStopClocks(stops: seq<Stop>, preferActual: bool, a: seq<int>, b: seq<int>, k: nat)
    requires k < |stops| && |a| == 2 * |stops| == |b| && StopHas(stops, preferActual, a, k) && StopHas(stops, preferActual, b, k)
    ensures a[2 * k] == b[2 * k] && a[2 * k + 1] == b[2 * k + 1]
  {
  }

  lemma SameClocks(stops: seq<Stop>, preferActual: bool, a: seq<int>, b: seq<int>)
    requires ClocksOf(stops, preferActual, a) && ClocksOf(stops, preferActual, b)
    ensures a == b
  {
    forall i | 0 <= i < |a| ensures a[i] == b[i] {
      var k := i / 2;
      assert i == 2 * k || i == 2 * k + 1;
      SameStopClocks(stops, preferActual, a, b, k);
    }
  }

  lemma {:induction false} GatherExactly(legs: seq<LegResult>)
    ensures Gather(legs).Ok? <==> forall k :: 0 <= k < |legs| ==> legs[k].Ok?
  {
    if legs != [] {
      var front := legs[..|legs| - 1];
      GatherExactly(front);
      assert forall k :: 0 <= k < |front| ==> front[k] == legs[k];
    }
  }

  lemma LegExactly(record: Record, c: Corridor, clocks: seq<int>, delta: int, times: seq<int>, basis: Basis, k: nat)
    requires Acceptable(record, c) && k + 1 < |record.stops| && |clocks| == 2 * |record.stops| && AreClocks(clocks)
    requires times == Shifted(Unwound(clocks), delta)
    ensures LegList(c, StationIds(record.stops), times, record.trackId, basis)[k].Ok? <==> TakesTime(clocks, k)
  {
    var stations := StationIds(record.stops);
    LegListAt(c, stations, times, record.trackId, basis, k);
    SpanExactly(c, stations[k], stations[k + 1]);
    UnwoundStep(clocks, 2 * k + 1);
  }

  lemma LegsExactly(record: Record, c: Corridor, clocks: seq<int>, delta: int, times: seq<int>, basis: Basis)
    requires Acceptable(record, c) && |clocks| == 2 * |record.stops| && AreClocks(clocks)
    requires times == Shifted(Unwound(clocks), delta)
    ensures Gather(LegList(c, StationIds(record.stops), times, record.trackId, basis)).Ok? <==>
            forall k :: 0 <= k < |record.stops| - 1 ==> TakesTime(clocks, k)
  {
    var legs := LegList(c, StationIds(record.stops), times, record.trackId, basis);
    GatherExactly(legs);
    forall k | 0 <= k < |legs| ensures legs[k].Ok? <==> TakesTime(clocks, k) {
      LegExactly(record, c, clocks, delta, times, basis, k);
    }
  }

  /** A record whose stops state these clocks is converted exactly when it is acceptable and the clocks can be run. */
  lemma ConvertsExactly(record: Record, c: Corridor, opts: Options, clocks: seq<int>)
    requires record.stops != [] && ClocksOf(record.stops, opts.preferActual, clocks)
    ensures Converted(record, c, opts).Ok? <==> Acceptable(record, c) && Runnable(record, opts, clocks)
    ensures Converted(record, c, opts).Ok? ==>
              Converted(record, c, opts).value.number == record.trainNumber && Converted(record, c, opts).value.track == record.trackId
  {
    ProblemExactly(record, c);
    var delta := TimedExactly(record, opts, clocks);
    if RecordProblem(record, c).None? && Timed(record, opts).Ok? {
      var timed := Timed(record, opts).value;
      if Compound(record.trackId) {
        CompoundNeverConverts(record, c, timed);
      } else {
        LegsExactly(record, c, clocks, delta, timed.times, timed.basis);
      }
    }
  }

  lemma CompoundNeverConverts(record: Record, c: Corridor, timed: Timing)
    requires |record.stops| >= 2 && |timed.times| == 2 * |record.stops| && Compound(record.trackId)
    ensures Gather(LegList(c, StationIds(record.stops), timed.times, record.trackId, timed.basis)).Err?
  {
    var legs := LegList(c, StationIds(record.stops), timed.times, record.trackId, timed.basis);
    GatherExactly(legs);
    LegListAt(c, StationIds(record.stops), timed.times, record.trackId, timed.basis, 0);
  }

  /** A record is converted only if its stops state clocks at all. */
  lemma ConvertedClocks(record: Record, c: Corridor, opts: Options) returns (clocks: seq<int>)
    requires Converted(record, c, opts).Ok?
    ensures record.stops != [] && ClocksOf(record.stops, opts.preferActual, clocks)
  {
    clocks := ReadStops(record.stops, opts.preferActual).value.clocks;
    ReadsExactly(record.stops, opts.preferActual, clocks);
  }
}
