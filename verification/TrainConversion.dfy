/**
 One timetable record becomes the sections a train occupies and when.
 */
module TrainConversion {
  import opened Wrappers
  import opened ClockLift
  import opened ClockText
  import opened HorizonAnchor
  import opened Topology

  /** A field that should hold an integer: not stated, one, or something that does not read as one. */
  datatype Number = NotStated | Whole(n: int) | Unreadable

  /** A stop as published; an empty text is a time that is not stated. */
  datatype Stop = Stop(
    stationId: string,
    actualArrival: string, scheduledArrival: string,
    actualDeparture: string, scheduledDeparture: string,
    arrivalDay: Number, departureDay: Number)

  datatype ServiceDate = NoDate | MalformedDate | Date(day: CalendarDay)
  datatype Horizon = MalformedHorizon | HorizonAt(start: int)

  datatype Record = Record(
    trainNumber: string, trackId: string, stops: seq<Stop>, route: seq<string>, serviceDate: ServiceDate, delay: Number)

  datatype Options = Options(preferActual: bool, maxDays: int, maxLeg: int, horizon: Option<Horizon>)

  datatype Basis = Scheduled | Observed | ScheduledPlusDelay
  datatype Derivation = DirectStopPair | ExpandedLegSpan

  datatype Traversal = Traversal(section: string, track: string, enter: int, exit: int, basis: Basis, derivation: Derivation)
  datatype Train = Train(number: string, track: string, traversals: seq<Traversal>)

  datatype ConversionError =
    | MissingTrainNumber
    | MissingTrack
    | TooFewStops
    | MissingStation
    | OffCorridor
    | RepeatedStation
    | BadClock
    | NoTimes
    | UnreadableDay
    | Chronology(clock: ClockError)
    | DayConflict(position: nat)
    | MissingServiceDate
    | BadAnchor
    | PastCalendar
    | UnreadableDelay
    | NonPositiveLeg(leg: nat)
    | CompoundTrack

  // ------------------------------------------------------------------
  // Stops
  // ------------------------------------------------------------------

  datatype StopTimes = StopTimes(arrival: int, departure: int, observed: bool)

  /** The text a side of a stop is read from: the actual one if preferred and stated, else the scheduled one. */
  function SideText(actual: string, scheduled: string, preferActual: bool): string {
    if preferActual && actual != "" then actual else scheduled
  }

  function ReadTimes(stop: Stop, preferActual: bool): (r: Result<StopTimes, ConversionError>)
    ensures r.Ok? ==> IsClock(r.value.arrival) && IsClock(r.value.departure)
  {
    var arrival := SideText(stop.actualArrival, stop.scheduledArrival, preferActual);
    var departure := SideText(stop.actualDeparture, stop.scheduledDeparture, preferActual);
    if arrival != "" && ParseClock(arrival).Err? then Err(BadClock)
    else if departure != "" && ParseClock(departure).Err? then Err(BadClock)
    else if arrival == "" && departure == "" then Err(NoTimes)
    else
      Ok(StopTimes(
        ParseClock(if arrival == "" then departure else arrival).value,
        ParseClock(if departure == "" then arrival else departure).value,
        preferActual && (stop.actualArrival != "" || stop.actualDeparture != "")))
  }

  predicate DaysReadable(stop: Stop) { !stop.arrivalDay.Unreadable? && !stop.departureDay.Unreadable? }

  /** A stop's clocks first, then the days it states itself. */
  function ReadStop(stop: Stop, preferActual: bool): (r: Result<StopTimes, ConversionError>)
    ensures r.Ok? ==> IsClock(r.value.arrival) && IsClock(r.value.departure)
  {
    var times := ReadTimes(stop, preferActual);
    if times.Ok? && !DaysReadable(stop) then Err(UnreadableDay) else times
  }

  /** Arrivals and departures in running order, and whether any of them was observed. */
  datatype Running = Running(clocks: seq<int>, observed: bool)

  type StopResult = Result<StopTimes, ConversionError>

  function Reader(preferActual: bool): Stop -> StopResult { stop => ReadStop(stop, preferActual) }

  function Read(reader: Stop -> StopResult, stops: seq<Stop>): (r: seq<StopResult>)
    ensures |r| == |stops|
  {
    seq(|stops|, i requires 0 <= i < |stops| => reader(stops[i]))
  }

  function StopList(stops: seq<Stop>, preferActual: bool): (r: seq<StopResult>)
    ensures |r| == |stops|
  {
    Read(Reader(preferActual), stops)
  }

  /** The first error, or all the readings. */
  function Collect(times: seq<StopResult>): (r: Result<Running, ConversionError>)
    ensures r.Ok? ==> |r.value.clocks| == 2 * |times|
  {
    if times == [] then Ok(Running([], false))
    else
      var rest, last := Collect(times[..|times| - 1]), times[|times| - 1];
      if rest.Err? then rest
      else if last.Err? then Err(last.error)
      else
        Ok(Running(rest.value.clocks + [last.value.arrival, last.value.departure],
                   rest.value.observed || last.value.observed))
  }

  function ReadStops(stops: seq<Stop>, preferActual: bool): (r: Result<Running, ConversionError>)
    ensures r.Ok? ==> |r.value.clocks| == 2 * |stops| && AreClocks(r.value.clocks)
  {
    CollectClocks(StopList(stops, preferActual));
    Collect(StopList(stops, preferActual))
  }

  predicate StopClocks(t: StopResult) { t.Ok? ==> IsClock(t.value.arrival) && IsClock(t.value.departure) }

  lemma {:induction false} CollectClocks(times: seq<StopResult>)
    requires forall i :: 0 <= i < |times| ==> StopClocks(times[i])
    ensures Collect(times).Ok? ==> AreClocks(Collect(times).value.clocks)
  {
    if times != [] { CollectClocks(times[..|times| - 1]); }
  }

  lemma {:induction false} ReadErrorStays(times: seq<StopResult>, n: nat)
    requires n <= |times| && Collect(times[..n]).Err?
    ensures Collect(times) == Collect(times[..n])
    decreases |times| - n
  {
    if n == |times| {
      assert times[..n] == times;
    } else {
      assert times[..n + 1][..n] == times[..n];
      ReadErrorStays(times, n + 1);
    }
  }

  function StationIds(stops: seq<Stop>): seq<string> {
    seq(|stops|, i requires 0 <= i < |stops| => stops[i].stationId)
  }

  /** The day a source states for an event, if it states one. */
  function DeclaredDay(stops: seq<Stop>, position: nat): Option<int>
    requires position < 2 * |stops|
  {
    Stated(if position % 2 == 0 then stops[position / 2].arrivalDay else stops[position / 2].departureDay)
  }

  function Stated(n: Number): Option<int> { if n.Whole? then Some(n.n) else None }

  function InferredDay(resolved: seq<int>, clocks: seq<int>, position: nat): int
    requires position < |resolved| && position < |clocks|
  {
    (resolved[position] - clocks[position]) / DAY
  }

  predicate DayDisagrees(stops: seq<Stop>, resolved: seq<int>, clocks: seq<int>, position: nat)
    requires position < 2 * |stops| && position < |resolved| && position < |clocks|
  {
    DeclaredDay(stops, position).Some? && DeclaredDay(stops, position).value != InferredDay(resolved, clocks, position)
  }

  /** The first of n positions whose stated day disagrees with the inferred one. */
  function FirstDisagreement(stops: seq<Stop>, resolved: seq<int>, clocks: seq<int>, n: nat): (r: Option<nat>)
    requires n <= 2 * |stops| && n <= |resolved| && n <= |clocks|
    ensures r.None? <==> forall i :: 0 <= i < n ==> !DayDisagrees(stops, resolved, clocks, i)
  {
    if n == 0 then None
    else
      var front := FirstDisagreement(stops, resolved, clocks, n - 1);
      if front.Some? then front
      else if DayDisagrees(stops, resolved, clocks, n - 1) then Some(n - 1)
      else None
  }

  // ------------------------------------------------------------------
  // Anchoring
  // ------------------------------------------------------------------

  type MomentResult = Result<int, AnchorError>

  function MomentList(clocks: seq<int>, resolved: seq<int>, day: CalendarDay, start: int): (r: seq<MomentResult>)
    requires |resolved| == |clocks|
    ensures |r| == |clocks|
  {
    seq(|clocks|, i requires 0 <= i < |clocks| => HorizonRelative(day, clocks[i], InferredDay(resolved, clocks, i), start))
  }

  /** The first error, or all the minutes. */
  function AllMoments(list: seq<MomentResult>): (r: Result<seq<int>, AnchorError>)
    ensures r.Ok? ==> |r.value| == |list|
  {
    if list == [] then Ok([])
    else
      var rest, last := AllMoments(list[..|list| - 1]), list[|list| - 1];
      if rest.Err? then rest else if last.Err? then Err(last.error) else Ok(rest.value + [last.value])
  }

  /** Each event at its date and time. A date past the calendar is not an anchoring error but an overflow. */
  function Anchored(clocks: seq<int>, resolved: seq<int>, day: CalendarDay, start: int): (r: Result<seq<int>, ConversionError>)
    requires |resolved| == |clocks|
    ensures r.Ok? ==> |r.value| == |clocks|
  {
    var all := AllMoments(MomentList(clocks, resolved, day, start));
    if all.Ok? then Ok(all.value) else Err(if all.error.OffCalendar? then PastCalendar else BadAnchor)
  }

  function Placed(record: Record, clocks: seq<int>, resolved: seq<int>, horizon: Option<Horizon>)
    : (r: Result<seq<int>, ConversionError>)
    requires |resolved| == |clocks|
    ensures r.Ok? ==> |r.value| == |clocks|
  {
    if horizon.None? then Ok(resolved)
    else
      match record.serviceDate
      case NoDate => Err(MissingServiceDate)
      case MalformedDate => Err(BadAnchor)
      case Date(day) =>
        if horizon.value.MalformedHorizon? then Err(BadAnchor) else Anchored(clocks, resolved, day, horizon.value.start)
  }

  // ------------------------------------------------------------------
  // Legs
  // ------------------------------------------------------------------

  function BasisOf(observed: bool, delay: int): Basis {
    if observed then Observed else if delay != 0 then ScheduledPlusDelay else Scheduled
  }

  function ShiftOf(observed: bool, delay: int): int { if observed then 0 else delay }

  /** No delay stated is a delay of zero. */
  function DelayOf(delay: Number): int { if delay.Whole? then delay.n else 0 }

  predicate Compound(track: string) { ':' in track }

  /** A leg's traversals: every section of it, for the whole of it. */
  function LegTraversals(sections: seq<string>, track: string, start: int, end: int, basis: Basis): seq<Traversal> {
    seq(|sections|, i requires 0 <= i < |sections| =>
      Traversal(sections[i], track, start, end, basis, if |sections| == 1 then DirectStopPair else ExpandedLegSpan))
  }

  function Leg(c: Corridor, from: string, to: string, track: string, start: int, end: int, basis: Basis, leg: nat)
    : LegResult
  {
    if end <= start then Err(NonPositiveLeg(leg))
    else
      var sections := SectionsBetween(c, from, to);
      if sections.Err? then Err(OffCorridor)
      else if Compound(track) then Err(CompoundTrack)
      else Ok(LegTraversals(sections.value, track, start, end, basis))
  }

  type LegResult = Result<seq<Traversal>, ConversionError>

  /** Each leg of a train whose i-th station has arrival times[2i] and departure times[2i + 1]. */
  function LegList(c: Corridor, stations: seq<string>, times: seq<int>, track: string, basis: Basis): (r: seq<LegResult>)
    requires |times| == 2 * |stations| && stations != []
    ensures |r| == |stations| - 1
  {
    seq(|stations| - 1, i requires 0 <= i < |stations| - 1 =>
      Leg(c, stations[i], stations[i + 1], track, times[2 * i + 1], times[2 * i + 2], basis, i))
  }

  /** The first error, or all the traversals. */
  function Gather(legs: seq<LegResult>): LegResult {
    if legs == [] then Ok([]) else Append(Gather(legs[..|legs| - 1]), legs[|legs| - 1])
  }

  function Append(rest: LegResult, leg: LegResult): LegResult {
    if rest.Err? then rest else if leg.Err? then leg else Ok(rest.value + leg.value)
  }

  function Shifted(times: seq<int>, shift: int): seq<int> {
    seq(|times|, i requires 0 <= i < |times| => times[i] + shift)
  }

  // ------------------------------------------------------------------
  // The whole record
  // ------------------------------------------------------------------

  function RecordProblem(record: Record, c: Corridor): Option<ConversionError> {
    if record.trainNumber == "" then Some(MissingTrainNumber)
    else if record.trackId == "" then Some(MissingTrack)
    else if |record.stops| < 2 then Some(TooFewStops)
    else if exists i :: 0 <= i < |record.stops| && record.stops[i].stationId == "" then Some(MissingStation)
    else if exists i :: 0 <= i < |record.stops| && record.stops[i].stationId !in c then Some(OffCorridor)
    else if !Distinct(StationIds(record.stops)) then Some(RepeatedStation)
    else None
  }

  datatype Timing = Timing(times: seq<int>, basis: Basis)

  /** When the train is where, every check on its times included. */
  function Timed(record: Record, opts: Options): (r: Result<Timing, ConversionError>)
    ensures r.Ok? ==> |r.value.times| == 2 * |record.stops|
  {
    var running := ReadStops(record.stops, opts.preferActual);
    if running.Err? then Err(running.error) else TimedFrom(record, opts, running.value)
  }

  function TimedFrom(record: Record, opts: Options, running: Running): (r: Result<Timing, ConversionError>)
    requires |running.clocks| == 2 * |record.stops|
    ensures r.Ok? ==> |r.value.times| == 2 * |record.stops|
  {
    var clocks := running.clocks;
    var resolved := Resolved(clocks, opts.maxDays, opts.maxLeg);
    if resolved.Err? then Err(Chronology(resolved.error))
    else
      ResolvedLength(clocks, opts.maxDays, opts.maxLeg);
      var conflict := FirstDisagreement(record.stops, resolved.value, clocks, |clocks|);
      if conflict.Some? then Err(DayConflict(conflict.value))
      else
        var placed := Placed(record, clocks, resolved.value, opts.horizon);
        if placed.Err? then Err(placed.error)
        else if record.delay.Unreadable? then Err(UnreadableDelay)
        else
          Ok(Timing(Shifted(placed.value, ShiftOf(running.observed, DelayOf(record.delay))),
                    BasisOf(running.observed, DelayOf(record.delay))))
  }

  lemma {:induction false} LiftsLength(cs: seq<int>, maxDays: int, maxStep: int)
    requires Lifts(cs, maxDays, maxStep).Ok?
    ensures |Lifts(cs, maxDays, maxStep).value.out| == |cs|
  {
    if cs != [] { LiftsLength(cs[..|cs| - 1], maxDays, maxStep); }
  }

  lemma ResolvedLength(cs: seq<int>, maxDays: int, maxStep: int)
    requires Resolved(cs, maxDays, maxStep).Ok?
    ensures |Resolved(cs, maxDays, maxStep).value| == |cs|
  {
    LiftsLength(cs, maxDays, maxStep);
  }

  function Converted(record: Record, c: Corridor, opts: Options): Result<Train, ConversionError> {
    var problem := RecordProblem(record, c);
    if problem.Some? then Err(problem.value)
    else
      var timed := Timed(record, opts);
      if timed.Err? then Err(timed.error)
      else
        var legs := Gather(LegList(c, StationIds(record.stops), timed.value.times, record.trackId, timed.value.basis));
        if legs.Err? then Err(legs.error) else Ok(Train(record.trainNumber, record.trackId, legs.value))
  }

  // ------------------------------------------------------------------
  // The conversion as it runs
  // ------------------------------------------------------------------

  lemma {:induction false} LegErrorStays(legs: seq<LegResult>, n: nat)
    requires n <= |legs| && Gather(legs[..n]).Err?
    ensures Gather(legs) == Gather(legs[..n])
    decreases |legs| - n
  {
    if n == |legs| {
      assert legs[..n] == legs;
    } else {
      assert legs[..n + 1][..n] == legs[..n];
      LegErrorStays(legs, n + 1);
    }
  }

  /** One leg, section by section. */
  method ExpandLeg(c: Corridor, from: string, to: string, track: string, start: int, end: int, basis: Basis, leg: nat)
    returns (r: Result<seq<Traversal>, ConversionError>)
    ensures r == Leg(c, from, to, track, start, end, basis, leg)
  {
    if end <= start {
      return Err(NonPositiveLeg(leg));
    }
    var sections := SectionsBetween(c, from, to);
    if sections.Err? {
      return Err(OffCorridor);
    }
    SpanExactly(c, from, to);
    var derivation := if |sections.value| == 1 then DirectStopPair else ExpandedLegSpan;
    var traversals: seq<Traversal> := [];
    for i := 0 to |sections.value|
      invariant i > 0 ==> !Compound(track)
      invariant traversals == LegTraversals(sections.value, track, start, end, basis)[..i]
    {
      if Compound(track) {
        return Err(CompoundTrack);
      }
      traversals := traversals + [Traversal(sections.value[i], track, start, end, basis, derivation)];
    }
    assert traversals == LegTraversals(sections.value, track, start, end, basis);
    return Ok(traversals);
  }

  lemma StopListAt(stops: seq<Stop>, preferActual: bool, i: nat)
    requires i < |stops|
    ensures StopList(stops, preferActual)[i] == ReadStop(stops[i], preferActual)
  {
  }

  lemma CollectNext(times: seq<StopResult>, i: nat, before: Running)
    requires i < |times| && Collect(times[..i]) == Ok(before)
    ensures times[i].Err? ==> Collect(times) == Err(times[i].error)
    ensures times[i].Ok? ==>
              Collect(times[..i + 1]) == Ok(Running(before.clocks + [times[i].value.arrival, times[i].value.departure],
                                                    before.observed || times[i].value.observed))
  {
    assert times[..i + 1][..i] == times[..i];
    if times[i].Err? {
      ReadErrorStays(times, i + 1);
    }
  }

  method ReadRunning(stops: seq<Stop>, preferActual: bool) returns (r: Result<Running, ConversionError>)
    ensures r == ReadStops(stops, preferActual)
  {
    ghost var list := StopList(stops, preferActual);
    var clocks: seq<int> := [];
    var observed := false;
    for i := 0 to |stops|
      invariant Collect(list[..i]) == Ok(Running(clocks, observed))
    {
      var times := ReadStop(stops[i], preferActual);
      StopListAt(stops, preferActual, i);
      CollectNext(list, i, Running(clocks, observed));
      if times.Err? {
        return Err(times.error);
      }
      clocks := clocks + [times.value.arrival, times.value.departure];
      observed := observed || times.value.observed;
    }
    assert list[..|stops|] == list;
    return Ok(Running(clocks, observed));
  }

  method CheckDays(stops: seq<Stop>, resolved: seq<int>, clocks: seq<int>) returns (r: Option<nat>)
    requires |clocks| == 2 * |stops| && |resolved| == |clocks|
    ensures r == FirstDisagreement(stops, resolved, clocks, |clocks|)
  {
    for i := 0 to |clocks|
      invariant FirstDisagreement(stops, resolved, clocks, i).None?
    {
      if DayDisagrees(stops, resolved, clocks, i) {
        DisagreementStays(stops, resolved, clocks, i + 1, |clocks|);
        return Some(i);
      }
    }
    return None;
  }

  lemma LegListAt(c: Corridor, stations: seq<string>, times: seq<int>, track: string, basis: Basis, i: nat)
    requires |times| == 2 * |stations| && i + 1 < |stations|
    ensures LegList(c, stations, times, track, basis)[i] ==
            Leg(c, stations[i], stations[i + 1], track, times[2 * i + 1], times[2 * i + 2], basis, i)
  {
  }

  lemma GatherNext(legs: seq<LegResult>, i: nat, before: seq<Traversal>)
    requires i < |legs| && Gather(legs[..i]) == Ok(before)
    ensures legs[i].Ok? ==> Gather(legs[..i + 1]) == Ok(before + legs[i].value)
    ensures legs[i].Err? ==> Gather(legs) == legs[i]
  {
    assert legs[..i + 1][..i] == legs[..i];
    if legs[i].Err? {
      LegErrorStays(legs, i + 1);
    }
  }

  method ExpandLegs(c: Corridor, stations: seq<string>, times: seq<int>, track: string, basis: Basis) returns (r: LegResult)
    requires |times| == 2 * |stations| && stations != []
    ensures r == Gather(LegList(c, stations, times, track, basis))
  {
    ghost var legs := LegList(c, stations, times, track, basis);
    var traversals: seq<Traversal> := [];
    for i := 0 to |stations| - 1
      invariant Gather(legs[..i]) == Ok(traversals)
    {
      var leg := ExpandLeg(c, stations[i], stations[i + 1], track, times[2 * i + 1], times[2 * i + 2], basis, i);
      LegListAt(c, stations, times, track, basis, i);
      GatherNext(legs, i, traversals);
      if leg.Err? {
        return leg;
      }
      traversals := traversals + leg.value;
    }
    assert legs[..|legs|] == legs;
    return Ok(traversals);
  }

  method ConvertTrain(record: Record, c: Corridor, opts: Options) returns (r: Result<Train, ConversionError>)
    ensures r == Converted(record, c, opts)
  {
    var problem := RecordProblem(record, c);
    if problem.Some? {
      return Err(problem.value);
    }
    var running := ReadRunning(record.stops, opts.preferActual);
    if running.Err? {
      return Err(running.error);
    }
    var clocks := running.value.clocks;
    var resolved := ResolveAbsoluteMinutes(clocks, opts.maxDays, opts.maxLeg);
    if resolved.Err? {
      return Err(Chronology(resolved.error));
    }
    ResolvedLength(clocks, opts.maxDays, opts.maxLeg);
    var conflict := CheckDays(record.stops, resolved.value, clocks);
    if conflict.Some? {
      return Err(DayConflict(conflict.value));
    }
    var placed := Placed(record, clocks, resolved.value, opts.horizon);
    if placed.Err? {
      return Err(placed.error);
    }
    if record.delay.Unreadable? {
      return Err(UnreadableDelay);
    }
    var delay := DelayOf(record.delay);
    var times := Shifted(placed.value, ShiftOf(running.value.observed, delay));
    var basis := BasisOf(running.value.observed, delay);
    var legs := ExpandLegs(c, StationIds(record.stops), times, record.trackId, basis);
    return if legs.Err? then Err(legs.error) else Ok(Train(record.trainNumber, record.trackId, legs.value));
  }

  lemma {:induction false} DisagreementStays(stops: seq<Stop>, resolved: seq<int>, clocks: seq<int>, k: nat, n: nat)
    requires k <= n <= 2 * |stops| && n <= |resolved| && n <= |clocks|
    requires FirstDisagreement(stops, resolved, clocks, k).Some?
    ensures FirstDisagreement(stops, resolved, clocks, n) == FirstDisagreement(stops, resolved, clocks, k)
  {
    if k < n { DisagreementStays(stops, resolved, clocks, k, n - 1); }
  }
}
