/**
 Whole timetables: per-train failures kept as rejections with the sections of
 their declared routes, and exactly which failures cost the whole timetable.
 */
module Rejections {
  import opened Wrappers
  import opened Topology
  import opened TrainConversion
  import opened TrainOccupation
  import opened SnapshotWindows

  // ------------------------------------------------------------------
  // Declared routes
  // ------------------------------------------------------------------

  type RouteResult = Result<seq<string>, TopologyError>

  /** The sections of each leg of a route. */
  function RouteLegs(c: Corridor, route: seq<string>): (r: seq<RouteResult>)
    requires route != []
    ensures |r| == |route| - 1
  {
    seq(|route| - 1, i requires 0 <= i < |route| - 1 => SectionsBetween(c, route[i], route[i + 1]))
  }

  /** The sections of all legs, or the first leg's error. */
  function Joined(legs: seq<RouteResult>): RouteResult {
    if legs == [] then Ok([])
    else
      var rest, last := Joined(legs[..|legs| - 1]), legs[|legs| - 1];
      if rest.Err? then rest else if last.Err? then last else Ok(rest.value + last.value)
  }

  lemma {:induction false} RouteErrorStays(legs: seq<RouteResult>, n: nat)
    requires n <= |legs| && Joined(legs[..n]).Err?
    ensures Joined(legs) == Joined(legs[..n])
    decreases |legs| - n
  {
    if n == |legs| {
      assert legs[..n] == legs;
    } else {
      assert legs[..n + 1][..n] == legs[..n];
      RouteErrorStays(legs, n + 1);
    }
  }

  lemma JoinNext(legs: seq<RouteResult>, i: nat, before: seq<string>)
    requires i < |legs| && Joined(legs[..i]) == Ok(before)
    ensures legs[i].Ok? ==> Joined(legs[..i + 1]) == Ok(before + legs[i].value)
    ensures legs[i].Err? ==> Joined(legs) == legs[i]
  {
    assert legs[..i + 1][..i] == legs[..i];
    if legs[i].Err? {
      RouteErrorStays(legs, i + 1);
    }
  }

  /** Each element once, where it first occurs. */
  function Once(s: seq<string>): (r: seq<string>)
    ensures forall x :: x in r <==> x in s
  {
    if s == [] then []
    else
      assert s == s[..|s| - 1] + [s[|s| - 1]];
      var rest := Once(s[..|s| - 1]);
      if s[|s| - 1] in rest then rest else rest + [s[|s| - 1]]
  }

  function RouteSectionIds(c: Corridor, route: seq<string>): RouteResult
    requires route != []
  {
    var all := Joined(RouteLegs(c, route));
    if all.Err? then all else Ok(Once(all.value))
  }

  method CollectRouteSections(c: Corridor, route: seq<string>) returns (r: RouteResult)
    requires route != []
    ensures r == RouteSectionIds(c, route)
  {
    ghost var legs := RouteLegs(c, route);
    var sections: seq<string> := [];
    for i := 0 to |route| - 1
      invariant Joined(legs[..i]) == Ok(sections)
    {
      var leg := SectionsBetween(c, route[i], route[i + 1]);
      assert leg == legs[i];
      JoinNext(legs, i, sections);
      if leg.Err? {
        return leg;
      }
      sections := sections + leg.value;
    }
    assert legs[..|legs|] == legs;
    return Ok(Once(sections));
  }

  /** The route a record declares: its stops if it has any, else its route list; None when a stop has no station. */
  function DeclaredRoute(record: Record): Option<seq<string>> {
    if exists i :: 0 <= i < |record.stops| && record.stops[i].stationId == "" then None
    else if record.stops != [] then Some(StationIds(record.stops))
    else Some(record.route)
  }

  /** A record with stops declares their stations, all of them named; one without declares its route list. */
  lemma DeclaredExactly(record: Record, route: seq<string>)
    ensures DeclaredRoute(record) == Some(route) <==>
            if record.stops == [] then route == record.route
            else |route| == |record.stops| && forall i :: 0 <= i < |route| ==> route[i] == record.stops[i].stationId && route[i] != ""
  {
    var ids := StationIds(record.stops);
    assert (|route| == |ids| && forall i :: 0 <= i < |ids| ==> route[i] == ids[i]) ==> route == ids;
  }

  function RejectionOf(record: Record, c: Corridor): Rejection {
    var number := if record.trainNumber == "" then "UNKNOWN" else record.trainNumber;
    var route := DeclaredRoute(record);
    if route.None? || |route.value| < 2 then Rejection(number, [], false)
    else
      var sections := RouteSectionIds(c, route.value);
      if sections.Err? then Rejection(number, [], false) else Rejection(number, sections.value, true)
  }

  // ------------------------------------------------------------------
  // Whole timetables
  // ------------------------------------------------------------------

  /** The errors a timetable isolates; any other aborts the whole batch. */
  predicate Isolated(e: ConversionError) {
    && !e.CompoundTrack? && !e.UnreadableDay? && !e.UnreadableDelay? && !e.PastCalendar?
    && e != Chronology(ClockLift.NegativeRollover)
  }

  /** A record's conversion, and the rejection it leaves if that fails. */
  datatype Entry = Entry(outcome: Result<Train, ConversionError>, rejection: Rejection)

  function EntryOf(record: Record, c: Corridor, opts: Options): Entry {
    Entry(Converted(record, c, opts), RejectionOf(record, c))
  }

  function Entries(records: seq<Record>, c: Corridor, opts: Options): (r: seq<Entry>)
    ensures |r| == |records|
  {
    seq(|records|, i requires 0 <= i < |records| => EntryOf(records[i], c, opts))
  }

  function Sifted(entries: seq<Entry>): Result<Snapshot, ConversionError> {
    if entries == [] then Ok(Snapshot([], []))
    else
      var rest, last := Sifted(entries[..|entries| - 1]), entries[|entries| - 1];
      if rest.Err? then rest
      else if last.outcome.Ok? then Ok(rest.value.(trains := rest.value.trains + [last.outcome.value]))
      else if Isolated(last.outcome.error) then Ok(rest.value.(rejections := rest.value.rejections + [last.rejection]))
      else Err(last.outcome.error)
  }

  function Timetable(records: seq<Record>, c: Corridor, opts: Options): Result<Snapshot, ConversionError> {
    Sifted(Entries(records, c, opts))
  }

  lemma {:induction false} AbortStays(entries: seq<Entry>, n: nat)
    requires n <= |entries| && Sifted(entries[..n]).Err?
    ensures Sifted(entries) == Sifted(entries[..n])
    decreases |entries| - n
  {
    if n == |entries| {
      assert entries[..n] == entries;
    } else {
      assert entries[..n + 1][..n] == entries[..n];
      AbortStays(entries, n + 1);
    }
  }

  /** What one more entry does to the snapshot, or to the whole batch. */
  lemma SiftNext(entries: seq<Entry>, i: nat, trains: seq<Train>, rejections: seq<Rejection>)
    requires i < |entries| && Sifted(entries[..i]) == Ok(Snapshot(trains, rejections))
    ensures entries[i].outcome.Ok? ==> Sifted(entries[..i + 1]) == Ok(Snapshot(trains + [entries[i].outcome.value], rejections))
    ensures entries[i].outcome.Err? && Isolated(entries[i].outcome.error) ==>
              Sifted(entries[..i + 1]) == Ok(Snapshot(trains, rejections + [entries[i].rejection]))
    ensures entries[i].outcome.Err? && !Isolated(entries[i].outcome.error) ==> Sifted(entries) == Err(entries[i].outcome.error)
  {
    assert entries[..i + 1][..i] == entries[..i];
    if entries[i].outcome.Err? && !Isolated(entries[i].outcome.error) {
      AbortStays(entries, i + 1);
    }
  }

  /** The rejection of one record, its route worked out leg by leg. */
  method Reject(record: Record, c: Corridor) returns (r: Rejection)
    ensures r == RejectionOf(record, c)
  {
    var number := if record.trainNumber == "" then "UNKNOWN" else record.trainNumber;
    var route := DeclaredRoute(record);
    var affected: seq<string> := [];
    var routeKnown := false;
    if route.Some? && |route.value| >= 2 {
      var sections := CollectRouteSections(c, route.value);
      if sections.Ok? {
        affected := sections.value;
        routeKnown := true;
      }
    }
    return Rejection(number, affected, routeKnown);
  }

  method ConvertTimetable(records: seq<Record>, c: Corridor, opts: Options) returns (r: Result<Snapshot, ConversionError>)
    ensures r == Timetable(records, c, opts)
  {
    ghost var entries := Entries(records, c, opts);
    var trains: seq<Train> := [];
    var rejections: seq<Rejection> := [];
    for i := 0 to |records|
      invariant Sifted(entries[..i]) == Ok(Snapshot(trains, rejections))
    {
      var train := ConvertTrain(records[i], c, opts);
      var rejection := Reject(records[i], c);
      EntriesAt(records, c, opts, i, train, rejection);
      SiftNext(entries, i, trains, rejections);
      if train.Ok? {
        trains := trains + [train.value];
      } else if Isolated(train.error) {
        rejections := rejections + [rejection];
      } else {
        return Err(train.error);
      }
    }
    assert entries[..|records|] == entries;
    return Ok(Snapshot(trains, rejections));
  }

  lemma EntriesAt(records: seq<Record>, c: Corridor, opts: Options, i: nat, train: Result<Train, ConversionError>, rejection: Rejection)
    requires i < |records| && train == Converted(records[i], c, opts) && rejection == RejectionOf(records[i], c)
    ensures Entries(records, c, opts)[i] == Entry(train, rejection)
  {
  }

  // ------------------------------------------------------------------
  // What a snapshot holds
  // ------------------------------------------------------------------

  predicate TrainEntry(entries: seq<Entry>, k: nat, t: Traversal) {
    k < |entries| && entries[k].outcome.Ok? && t in entries[k].outcome.value.traversals
  }

  predicate RejectedEntry(entries: seq<Entry>, k: nat, r: Rejection) {
    k < |entries| && entries[k].outcome.Err? && entries[k].rejection == r
  }

  lemma TraversalsOneMore(trains: seq<Train>, train: Train)
    ensures Traversals(trains + [train]) == Traversals(trains) + train.traversals
  {
    assert (trains + [train])[..|trains|] == trains;
  }

  lemma TrainEntryNext(front: seq<Entry>, entries: seq<Entry>, t: Traversal)
    requires entries != [] && front == entries[..|entries| - 1]
    ensures (exists k: nat :: TrainEntry(entries, k, t)) <==>
            (exists k: nat :: TrainEntry(front, k, t)) || TrainEntry(entries, |front|, t)
  {
    if k: nat :| TrainEntry(front, k, t) {
      assert TrainEntry(entries, k, t);
    }
    if k: nat :| TrainEntry(entries, k, t) {
      assert k < |front| ==> TrainEntry(front, k, t);
    }
  }

  lemma SiftedTraversals(entries: seq<Entry>, n: nat, t: Traversal)
    requires n + 1 == |entries| && Sifted(entries).Ok?
    ensures Sifted(entries[..n]).Ok?
    ensures t in Traversals(Sifted(entries).value.trains) <==>
            t in Traversals(Sifted(entries[..n]).value.trains) || TrainEntry(entries, n, t)
  {
    var before := Sifted(entries[..n]).value;
    if entries[n].outcome.Ok? {
      TraversalsOneMore(before.trains, entries[n].outcome.value);
    }
  }

  /** A traversal is in the snapshot exactly if some converted record has it. */
  lemma {:induction false} SnapshotTraversals(entries: seq<Entry>, t: Traversal)
    requires Sifted(entries).Ok?
    ensures t in Traversals(Sifted(entries).value.trains) <==> exists k: nat :: TrainEntry(entries, k, t)
  {
    if entries != [] {
      var n := |entries| - 1;
      SiftedTraversals(entries, n, t);
      SnapshotTraversals(entries[..n], t);
      TrainEntryNext(entries[..n], entries, t);
    }
  }

  /** A rejection is in the snapshot exactly if some failed record left it. */
  lemma {:induction false} SnapshotRejections(entries: seq<Entry>, r: Rejection)
    requires Sifted(entries).Ok?
    ensures r in Sifted(entries).value.rejections <==> exists k: nat :: RejectedEntry(entries, k, r)
  {
    if entries != [] {
      var n := |entries| - 1;
      SnapshotRejections(entries[..n], r);
      if k: nat :| RejectedEntry(entries[..n], k, r) {
        assert RejectedEntry(entries, k, r);
      }
      if k: nat :| RejectedEntry(entries, k, r) {
        assert k < n ==> RejectedEntry(entries[..n], k, r);
      }
      assert RejectedEntry(entries, n, r) <==> entries[n].outcome.Err? && entries[n].rejection == r;
    }
  }

  // ------------------------------------------------------------------
  // What is isolated and what is not
  // ------------------------------------------------------------------

  predicate Aborts(entries: seq<Entry>, k: nat) {
    k < |entries| && entries[k].outcome.Err? && !Isolated(entries[k].outcome.error)
  }

  /** A batch is lost exactly when one of its records fails in a way that is not isolated. */
  lemma {:induction false} BatchAbortsExactly(entries: seq<Entry>)
    ensures Sifted(entries).Err? <==> exists k: nat :: Aborts(entries, k)
  {
    if entries != [] {
      var n := |entries| - 1;
      BatchAbortsExactly(entries[..n]);
      if k: nat :| Aborts(entries[..n], k) { assert Aborts(entries, k); }
      if k: nat :| Aborts(entries, k) { assert k < n ==> Aborts(entries[..n], k); }
      assert Aborts(entries, n) <==> entries[n].outcome.Err? && !Isolated(entries[n].outcome.error);
    }
  }

  lemma {:induction false} LegsNotCompound(legs: seq<LegResult>)
    requires forall k :: 0 <= k < |legs| && legs[k].Err? ==> Isolated(legs[k].error)
    ensures Gather(legs).Err? ==> Isolated(Gather(legs).error)
  {
    if legs != [] { LegsNotCompound(legs[..|legs| - 1]); }
  }

  lemma LegListNotCompound(c: Corridor, stations: seq<string>, times: seq<int>, track: string, basis: Basis)
    requires |times| == 2 * |stations| && stations != [] && !Compound(track)
    ensures Gather(LegList(c, stations, times, track, basis)).Err? ==> Isolated(Gather(LegList(c, stations, times, track, basis)).error)
  {
    var legs := LegList(c, stations, times, track, basis);
    forall k | 0 <= k < |legs| && legs[k].Err? ensures Isolated(legs[k].error) {
      LegListAt(c, stations, times, track, basis, k);
    }
    LegsNotCompound(legs);
  }

  // ------------------------------------------------------------------
  // Failures while the stops are read
  // ------------------------------------------------------------------

  /** The stop at which reading ends. */
  predicate FirstFailure(times: seq<StopResult>, k: nat) {
    k < |times| && times[k].Err? && forall i :: 0 <= i < k ==> times[i].Ok?
  }

  lemma {:induction false} AllRead(times: seq<StopResult>)
    requires forall i :: 0 <= i < |times| ==> times[i].Ok?
    ensures Collect(times).Ok?
  {
    if times != [] { AllRead(times[..|times| - 1]); }
  }

  lemma {:induction false} FirstFailureWins(times: seq<StopResult>, k: nat)
    requires FirstFailure(times, k)
    ensures Collect(times) == Err(times[k].error)
  {
    var front := times[..|times| - 1];
    if k == |front| {
      AllRead(front);
    } else {
      FirstFailureWins(front, k);
    }
  }

  lemma SomeFailure(times: seq<StopResult>) returns (k: nat)
    requires Collect(times).Err?
    ensures FirstFailure(times, k)
  {
    k := 0;
    while times[k].Ok?
      invariant k <= |times| && forall i :: 0 <= i < k ==> times[i].Ok?
      invariant k < |times|
      decreases |times| - k
    {
      if k + 1 == |times| { AllRead(times); }
      k := k + 1;
    }
  }

  /** Reading ends at a stop whose clocks read and whose stated days do not. */
  predicate DayUnreadAt(stops: seq<Stop>, preferActual: bool, k: nat) {
    && k < |stops| && ReadTimes(stops[k], preferActual).Ok? && !DaysReadable(stops[k])
    && forall i :: 0 <= i < k ==> ReadStop(stops[i], preferActual).Ok?
  }

  predicate DayUnread(stops: seq<Stop>, preferActual: bool) { exists k: nat :: k < |stops| && DayUnreadAt(stops, preferActual, k) }

  lemma StopEscapes(stop: Stop, preferActual: bool)
    requires ReadStop(stop, preferActual).Err?
    ensures !Isolated(ReadStop(stop, preferActual).error) <==> ReadTimes(stop, preferActual).Ok? && !DaysReadable(stop)
  {
  }

  lemma FailureAt(stops: seq<Stop>, preferActual: bool, times: seq<StopResult>, k: nat)
    requires times == StopList(stops, preferActual) && k < |stops|
    ensures FirstFailure(times, k) <==>
            ReadStop(stops[k], preferActual).Err? && forall i :: 0 <= i < k ==> ReadStop(stops[i], preferActual).Ok?
  {
    forall i | 0 <= i < |stops| ensures times[i] == ReadStop(stops[i], preferActual) {
      StopListAt(stops, preferActual, i);
    }
  }

  /** Failing to read the stops escapes exactly when reading ends at an unreadable day. */
  lemma ReadEscapes(stops: seq<Stop>, preferActual: bool)
    ensures ReadStops(stops, preferActual).Err? && !Isolated(ReadStops(stops, preferActual).error) <==> DayUnread(stops, preferActual)
  {
    var times := StopList(stops, preferActual);
    if Collect(times).Err? {
      var k := SomeFailure(times);
      FirstFailureWins(times, k);
      FailureAt(stops, preferActual, times, k);
      StopListAt(stops, preferActual, k);
      StopEscapes(stops[k], preferActual);
      assert !Isolated(times[k].error) ==> DayUnreadAt(stops, preferActual, k);
    }
    if k: nat :| DayUnreadAt(stops, preferActual, k) {
      FailureAt(stops, preferActual, times, k);
      FirstFailureWins(times, k);
      StopListAt(stops, preferActual, k);
    }
  }

  // ------------------------------------------------------------------
  // Failures while the times are worked out
  // ------------------------------------------------------------------

  lemma {:induction false} LiftIsolated(cs: seq<int>, maxDays: int, maxStep: int)
    ensures ClockLift.Lifts(cs, maxDays, maxStep).Err? ==> !ClockLift.Lifts(cs, maxDays, maxStep).error.NegativeRollover?
  {
    if cs != [] { LiftIsolated(cs[..|cs| - 1], maxDays, maxStep); }
  }

  lemma ResolvedEscapes(cs: seq<int>, maxDays: int, maxStep: int)
    ensures maxDays < 0 <==> ClockLift.Resolved(cs, maxDays, maxStep) == Err(ClockLift.NegativeRollover)
  {
    LiftIsolated(cs, maxDays, maxStep);
  }

  lemma PlacedErrors(record: Record, clocks: seq<int>, resolved: seq<int>, horizon: Option<Horizon>)
    requires |resolved| == |clocks| && Placed(record, clocks, resolved, horizon).Err?
    ensures !Isolated(Placed(record, clocks, resolved, horizon).error) <==>
            Placed(record, clocks, resolved, horizon).error.PastCalendar?
  {
  }

  /** An anchored train that would be placed, were it not to run past the end of the calendar. */
  predicate RunsPastCalendar(record: Record, opts: Options, clocks: seq<int>)
    requires clocks != [] && |clocks| == 2 * |record.stops|
  {
    && Consistent(record.stops, opts, clocks)
    && Dateable(record, opts.horizon)
    && !StaysOnCalendar(record, opts.horizon, clocks)
  }

  /** Working out the times escapes on a negative rollover bound, past the calendar, and on an unreadable delay; all else is isolated. */
  lemma TimedFromEscapes(record: Record, opts: Options, running: Running)
    requires running.clocks != [] && ClockLift.AreClocks(running.clocks) && |running.clocks| == 2 * |record.stops|
    ensures TimedFrom(record, opts, running).Err? && !Isolated(TimedFrom(record, opts, running).error) <==>
            || opts.maxDays < 0
            || RunsPastCalendar(record, opts, running.clocks)
            || (Standing(record, opts, running.clocks) && record.delay.Unreadable?)
  {
    var clocks := running.clocks;
    var resolved := ClockLift.Resolved(clocks, opts.maxDays, opts.maxLeg);
    ResolvedEscapes(clocks, opts.maxDays, opts.maxLeg);
    if resolved.Ok? {
      ResolvedIsUnwound(clocks, opts.maxDays, opts.maxLeg);
      var placed := Placed(record, clocks, ClockLift.Unwound(clocks), opts.horizon);
      TimedFromPlaced(record, opts, running, ClockLift.Unwound(clocks), placed);
      PlacedIsShift(record, clocks, opts.horizon);
      if placed.Err? { PlacedErrors(record, clocks, ClockLift.Unwound(clocks), opts.horizon); }
    }
  }

  lemma {:induction false} FirstErrorWins(legs: seq<LegResult>)
    requires legs != [] && legs[0].Err?
    ensures Gather(legs) == legs[0]
  {
    if |legs| > 1 {
      FirstErrorWins(legs[..|legs| - 1]);
    } else {
      assert legs[..0] == [];
    }
  }

  /** The first leg of an acceptable record: too short, on a compound track, or expanded. */
  lemma FirstLeg(record: Record, c: Corridor, times: seq<int>, basis: Basis)
    requires RecordProblem(record, c).None? && |times| == 2 * |record.stops|
    ensures var leg := LegList(c, StationIds(record.stops), times, record.trackId, basis)[0];
            if times[2] <= times[1] then leg == Err(NonPositiveLeg(0))
            else if Compound(record.trackId) then leg == Err(CompoundTrack)
            else leg.Ok?
  {
    var stations := StationIds(record.stops);
    assert stations[0] == record.stops[0].stationId && stations[1] == record.stops[1].stationId;
    LegListAt(c, stations, times, record.trackId, basis, 0);
    SpanExactly(c, stations[0], stations[1]);
  }

  /** The record's times can be worked out but for its delay. */
  predicate Places(record: Record, opts: Options) { Coherent(record, opts) && Anchorable(record, opts) }

  /** The train does not reach its second stop at the time of day at which it leaves its first. */
  predicate FirstLegTakesTime(record: Record, opts: Options) {
    var running := ReadStops(record.stops, opts.preferActual);
    running.Ok? && |record.stops| >= 2 && running.value.clocks[1] != running.value.clocks[2]
  }

  /**
   Where a failure escapes. Nothing is wrong with the record itself, and then
   reading its stops ends at a day that does not read; or its stops read and the
   rollover bound is negative; or it would be placed, were it not to run past the
   calendar; or it is placed, and its delay does not read; or it does, but the
   track is compound and the first leg takes time.
   */
  predicate LosesBatch(record: Record, c: Corridor, opts: Options) {
    && RecordProblem(record, c).None?
    && ( || DayUnread(record.stops, opts.preferActual)
         || (opts.maxDays < 0 && ReadStops(record.stops, opts.preferActual).Ok?)
         || (Coherent(record, opts) && Dateable(record, opts.horizon) && !Anchorable(record, opts))
         || (Places(record, opts) && record.delay.Unreadable?)
         || (Places(record, opts) && Compound(record.trackId) && FirstLegTakesTime(record, opts)))
  }

  predicate Escapes(r: Result<Train, ConversionError>) { r.Err? && !Isolated(r.error) }

  lemma LegsEscapeExactly(record: Record, c: Corridor, timed: Timing, legs: LegResult)
    requires RecordProblem(record, c).None? && |timed.times| == 2 * |record.stops|
    requires legs == Gather(LegList(c, StationIds(record.stops), timed.times, record.trackId, timed.basis))
    ensures (legs.Err? && !Isolated(legs.error)) <==> Compound(record.trackId) && timed.times[1] < timed.times[2]
  {
    var list := LegList(c, StationIds(record.stops), timed.times, record.trackId, timed.basis);
    FirstLeg(record, c, timed.times, timed.basis);
    if !Compound(record.trackId) {
      LegListNotCompound(c, StationIds(record.stops), timed.times, record.trackId, timed.basis);
    } else {
      FirstErrorWins(list);
    }
  }

  lemma ConvertedFromTiming(record: Record, c: Corridor, opts: Options, timed: Timing, legs: LegResult)
    requires RecordProblem(record, c).None? && Timed(record, opts) == Ok(timed)
    requires legs == Gather(LegList(c, StationIds(record.stops), timed.times, record.trackId, timed.basis))
    ensures Converted(record, c, opts) == if legs.Err? then Err(legs.error) else Ok(Train(record.trainNumber, record.trackId, legs.value))
  {
  }

  /** The failures to time a train that escape. */
  lemma TimedEscapes(record: Record, opts: Options)
    requires record.stops != []
    ensures Timed(record, opts).Err? && !Isolated(Timed(record, opts).error) <==>
            || DayUnread(record.stops, opts.preferActual)
            || (opts.maxDays < 0 && ReadStops(record.stops, opts.preferActual).Ok?)
            || (Coherent(record, opts) && Dateable(record, opts.horizon) && !Anchorable(record, opts))
            || (Places(record, opts) && record.delay.Unreadable?)
  {
    ReadEscapes(record.stops, opts.preferActual);
    var running := ReadStops(record.stops, opts.preferActual);
    if running.Ok? { TimedFromEscapes(record, opts, running.value); }
  }

  lemma FirstLegTime(record: Record, opts: Options, timed: Timing)
    requires |record.stops| >= 2 && Timed(record, opts) == Ok(timed)
    ensures timed.times[1] < timed.times[2] <==> FirstLegTakesTime(record, opts)
  {
    TimedIsShift(record, opts);
    var running := ReadStops(record.stops, opts.preferActual).value;
    ClockLift.UnwoundStep(running.clocks, 1);
  }

  lemma UntimedFails(record: Record, c: Corridor, opts: Options)
    requires RecordProblem(record, c).None? && Timed(record, opts).Err?
    ensures Converted(record, c, opts) == Err(Timed(record, opts).error)
  {
  }

  lemma ProblemIsolated(record: Record, c: Corridor, opts: Options)
    requires RecordProblem(record, c).Some?
    ensures !Escapes(Converted(record, c, opts))
  {
  }

  lemma TimedEscapesExactly(record: Record, c: Corridor, opts: Options, timed: Timing)
    requires RecordProblem(record, c).None? && Timed(record, opts) == Ok(timed)
    ensures Escapes(Converted(record, c, opts)) <==> Compound(record.trackId) && timed.times[1] < timed.times[2]
  {
    var legs := Gather(LegList(c, StationIds(record.stops), timed.times, record.trackId, timed.basis));
    ConvertedFromTiming(record, c, opts, timed, legs);
    LegsEscapeExactly(record, c, timed, legs);
  }

  /** A record's failure escapes exactly then. */
  lemma EscapesExactly(record: Record, c: Corridor, opts: Options)
    ensures Escapes(Converted(record, c, opts)) <==> LosesBatch(record, c, opts)
  {
    if RecordProblem(record, c).Some? {
      ProblemIsolated(record, c, opts);
    } else {
      TimedEscapes(record, opts);
      TimedIsShift(record, opts);
      if Timed(record, opts).Err? {
        UntimedFails(record, c, opts);
      } else {
        TimedEscapesExactly(record, c, opts, Timed(record, opts).value);
        FirstLegTime(record, opts, Timed(record, opts).value);
      }
    }
  }

  /** A timetable is lost exactly when one of its records is such a one; any other failure is isolated. */
  lemma TimetableLostExactly(records: seq<Record>, c: Corridor, opts: Options)
    ensures Timetable(records, c, opts).Err? <==> exists i :: 0 <= i < |records| && LosesBatch(records[i], c, opts)
  {
    var entries := Entries(records, c, opts);
    BatchAbortsExactly(entries);
    forall i: nat | i < |records| ensures Aborts(entries, i) <==> LosesBatch(records[i], c, opts) {
      EscapesExactly(records[i], c, opts);
      EntriesAt(records, c, opts, i, Converted(records[i], c, opts), RejectionOf(records[i], c));
    }
  }

  /** A bare track, a readable delay and readable days. */
  predicate Legible(record: Record) {
    && !Compound(record.trackId) && !record.delay.Unreadable?
    && forall i :: 0 <= i < |record.stops| ==> DaysReadable(record.stops[i])
  }

  /**
   So one malformed train never costs the batch, as long as every record is
   legible and, if the timetable is anchored, none runs past the calendar:
   whatever else is missing, unreadable, contradictory or off the corridor.
   */
  lemma LegibleNeverAborts(records: seq<Record>, c: Corridor, opts: Options)
    requires opts.maxDays >= 0 && forall i :: 0 <= i < |records| ==> Legible(records[i])
    requires forall i :: 0 <= i < |records| && Coherent(records[i], opts) && Dateable(records[i], opts.horizon) ==> Anchorable(records[i], opts)
    ensures Timetable(records, c, opts).Ok?
  {
    TimetableLostExactly(records, c, opts);
  }
}
