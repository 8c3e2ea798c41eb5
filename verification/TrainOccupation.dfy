/**
 When a record can be timed and at which minutes, and why anchoring to a horizon
 moves the whole train by one constant.
 */
module TrainOccupation {
  import opened Wrappers
  import opened ClockLift
  import opened HorizonAnchor
  import opened Topology
  import opened TrainConversion

  // ------------------------------------------------------------------
  // The times of a converted train
  // ------------------------------------------------------------------

  /** Where the minutes of a record are counted from: the horizon if it is anchored, its own first day if not. */
  function Base(record: Record, horizon: Option<Horizon>): int {
    if horizon.Some? && horizon.value.HorizonAt? && record.serviceDate.Date?
    then Origin(record.serviceDate.day, horizon.value.start) else 0
  }

  /** How far a train's times lie from its first-occurrence minutes: the anchoring and the delay. */
  function Offset(record: Record, opts: Options, observed: bool): int {
    Base(record, opts.horizon) + ShiftOf(observed, DelayOf(record.delay))
  }

  lemma InferredIsDayOf(clocks: seq<int>, i: nat)
    requires i < |clocks|
    ensures InferredDay(Unwound(clocks), clocks, i) == DayOf(clocks, i)
  {
    assert Unwound(clocks)[i] - clocks[i] == DayOf(clocks, i) * DAY;
  }

  predicate WholeMinute(start: int) { start % MINUTE == 0 }

  /** What one event's anchoring yields, with its minute named. */
  lemma RelativeIs(day: CalendarDay, clock: int, offset: nat, start: int, minute: int)
    requires IsClock(clock) && minute == clock + offset * DAY + Origin(day, start)
    ensures HorizonRelative(day, clock, offset, start) ==
            if day + offset > LAST_DAY then Err(OffCalendar)
            else if !WholeMinute(start) then Err(FractionalMinute)
            else Ok(minute)
  {
    AnchoringTranslates(day, clock, offset, start);
  }

  lemma EventAnchored(clocks: seq<int>, i: nat, day: CalendarDay, start: int, offset: nat, minute: int)
    requires i < |clocks| && AreClocks(clocks) && offset == DayOf(clocks, i)
    requires minute == clocks[i] + offset * DAY + Origin(day, start)
    ensures MomentList(clocks, Unwound(clocks), day, start)[i] ==
            if day + offset > LAST_DAY then Err(OffCalendar)
            else if !WholeMinute(start) then Err(FractionalMinute)
            else Ok(minute)
  {
    InferredIsDayOf(clocks, i);
    RelativeIs(day, clocks[i], offset, start, minute);
    MomentAt(clocks, Unwound(clocks), day, start, i, offset);
  }

  lemma MomentAt(clocks: seq<int>, resolved: seq<int>, day: CalendarDay, start: int, i: nat, offset: int)
    requires |resolved| == |clocks| && i < |clocks| && offset == InferredDay(resolved, clocks, i)
    ensures MomentList(clocks, resolved, day, start)[i] == HorizonRelative(day, clocks[i], offset, start)
  {
  }

  lemma {:induction false} FirstMomentFails(list: seq<MomentResult>)
    requires list != [] && list[0].Err?
    ensures AllMoments(list) == Err(list[0].error)
  {
    if |list| > 1 {
      FirstMomentFails(list[..|list| - 1]);
    } else {
      assert list[..0] == [];
    }
  }

  lemma {:induction false} OnlyOneError(list: seq<MomentResult>, e: AnchorError)
    requires forall i :: 0 <= i < |list| && list[i].Err? ==> list[i].error == e
    ensures AllMoments(list).Err? <==> exists i :: 0 <= i < |list| && list[i].Err?
    ensures AllMoments(list).Err? ==> AllMoments(list).error == e
    ensures AllMoments(list).Ok? ==> forall i :: 0 <= i < |list| ==> list[i].Ok? && AllMoments(list).value[i] == list[i].value
  {
    if list != [] {
      var front := list[..|list| - 1];
      OnlyOneError(front, e);
      assert forall i :: 0 <= i < |front| ==> front[i] == list[i];
    }
  }

  /** The train's last event falls within the calendar. */
  predicate EndsOnCalendar(clocks: seq<int>, day: CalendarDay)
    requires clocks != []
  {
    day + DayOf(clocks, |clocks| - 1) <= LAST_DAY
  }

  lemma UnwoundMinute(clocks: seq<int>, i: nat, offset: nat, origin: int, moved: seq<int>)
    requires i < |clocks| && offset == DayOf(clocks, i) && moved == Shifted(Unwound(clocks), origin)
    ensures moved[i] == clocks[i] + offset * DAY + origin
  {
    assert Unwound(clocks)[i] == clocks[i] + offset * DAY;
  }

  /** If any event falls past the calendar, the last one does. */
  lemma LastIsLatest(clocks: seq<int>, i: nat, day: CalendarDay)
    requires i < |clocks| && EndsOnCalendar(clocks, day)
    ensures day + DayOf(clocks, i) <= LAST_DAY
  {
    DayGrows(clocks, i, |clocks| - 1);
  }

  /** On a whole minute an event is a shifted minute, or past the calendar. */
  predicate OnMinute(clocks: seq<int>, i: nat, day: CalendarDay, list: seq<MomentResult>, moved: seq<int>)
    requires i < |clocks| == |list| == |moved|
  {
    && (list[i].Ok? <==> day + DayOf(clocks, i) <= LAST_DAY)
    && list[i] == if list[i].Ok? then Ok(moved[i]) else Err(OffCalendar)
  }

  lemma MomentOnMinute(clocks: seq<int>, i: nat, day: CalendarDay, start: int, list: seq<MomentResult>, moved: seq<int>)
    requires i < |clocks| == |list| && AreClocks(clocks) && WholeMinute(start)
    requires list == MomentList(clocks, Unwound(clocks), day, start) && moved == Shifted(Unwound(clocks), Origin(day, start))
    ensures OnMinute(clocks, i, day, list, moved)
  {
    UnwoundMinute(clocks, i, DayOf(clocks, i), Origin(day, start), moved);
    EventAnchored(clocks, i, day, start, DayOf(clocks, i), moved[i]);
  }

  lemma MomentsOnMinute(clocks: seq<int>, day: CalendarDay, list: seq<MomentResult>, moved: seq<int>)
    requires clocks != [] && |list| == |clocks| == |moved|
    requires forall i :: 0 <= i < |clocks| ==> OnMinute(clocks, i, day, list, moved)
    ensures AllMoments(list) == if EndsOnCalendar(clocks, day) then Ok(moved) else Err(OffCalendar)
  {
    var last := |clocks| - 1;
    assert OnMinute(clocks, last, day, list, moved);
    forall i | 0 <= i < |list| && list[i].Err? ensures list[i].error == OffCalendar {
      assert OnMinute(clocks, i, day, list, moved);
    }
    OnlyOneError(list, OffCalendar);
    if EndsOnCalendar(clocks, day) {
      forall i | 0 <= i < |list| ensures list[i] == Ok(moved[i]) {
        LastIsLatest(clocks, i, day);
        assert OnMinute(clocks, i, day, list, moved);
      }
      assert AllMoments(list).value == moved;
    }
  }

  /** Anchoring resolved minutes adds one constant to all of them, or refuses a horizon off the minute, or leaves the calendar. */
  lemma AnchoredIsShift(clocks: seq<int>, day: CalendarDay, start: int)
    requires clocks != [] && AreClocks(clocks)
    ensures Anchored(clocks, Unwound(clocks), day, start) ==
            if !WholeMinute(start) then Err(BadAnchor)
            else if EndsOnCalendar(clocks, day) then Ok(Shifted(Unwound(clocks), Origin(day, start)))
            else Err(PastCalendar)
  {
    var list := MomentList(clocks, Unwound(clocks), day, start);
    if WholeMinute(start) {
      var moved := Shifted(Unwound(clocks), Origin(day, start));
      forall i | 0 <= i < |clocks| ensures OnMinute(clocks, i, day, list, moved) {
        MomentOnMinute(clocks, i, day, start, list, moved);
      }
      MomentsOnMinute(clocks, day, list, moved);
    } else {
      EventAnchored(clocks, 0, day, start, 0, clocks[0] + Origin(day, start));
      FirstMomentFails(list);
    }
  }

  /** The record has a date and the horizon starts on a whole minute, if it is to be anchored. */
  predicate Dateable(record: Record, horizon: Option<Horizon>) {
    horizon.None? || (record.serviceDate.Date? && horizon.value.HorizonAt? && WholeMinute(horizon.value.start))
  }

  /** An anchored train does not run past the end of the calendar. */
  predicate StaysOnCalendar(record: Record, horizon: Option<Horizon>, clocks: seq<int>)
    requires clocks != []
  {
    horizon.Some? && record.serviceDate.Date? ==> EndsOnCalendar(clocks, record.serviceDate.day)
  }

  lemma ShiftedTwice(times: seq<int>, a: int, b: int, sum: int)
    requires sum == a + b
    ensures Shifted(Shifted(times, a), b) == Shifted(times, sum)
  {
  }

  lemma Unshifted(times: seq<int>)
    ensures Shifted(times, 0) == times
  {
  }

  lemma PlacedIsShift(record: Record, clocks: seq<int>, horizon: Option<Horizon>)
    requires clocks != [] && AreClocks(clocks)
    ensures var r := Placed(record, clocks, Unwound(clocks), horizon);
            && (r.Ok? <==> Dateable(record, horizon) && StaysOnCalendar(record, horizon, clocks))
            && (r.Ok? ==> r.value == Shifted(Unwound(clocks), Base(record, horizon)))
            && (r == Err(PastCalendar) <==> Dateable(record, horizon) && !StaysOnCalendar(record, horizon, clocks))
  {
    Unshifted(Unwound(clocks));
    if horizon.Some? && record.serviceDate.Date? && horizon.value.HorizonAt? {
      AnchoredIsShift(clocks, record.serviceDate.day, horizon.value.start);
    }
  }

  /** The clocks resolve and agree with every stated day. */
  predicate Consistent(stops: seq<Stop>, opts: Options, clocks: seq<int>)
    requires |clocks| == 2 * |stops|
  {
    && Resolved(clocks, opts.maxDays, opts.maxLeg).Ok?
    && (forall i :: 0 <= i < |clocks| ==> !DayDisagrees(stops, Unwound(clocks), clocks, i))
  }

  lemma ResolvedIsUnwound(clocks: seq<int>, maxDays: int, maxStep: int)
    requires AreClocks(clocks) && Resolved(clocks, maxDays, maxStep).Ok?
    ensures Resolved(clocks, maxDays, maxStep).value == Unwound(clocks)
    ensures Fits(clocks, maxDays, maxStep)
  {
    LiftsUnwound(clocks, maxDays, maxStep);
  }

  lemma TimedFromPlaced(record: Record, opts: Options, running: Running, resolved: seq<int>, placed: Result<seq<int>, ConversionError>)
    requires |running.clocks| == 2 * |record.stops| == |resolved|
    requires Resolved(running.clocks, opts.maxDays, opts.maxLeg) == Ok(resolved)
    requires placed == Placed(record, running.clocks, resolved, opts.horizon)
    ensures var agrees := FirstDisagreement(record.stops, resolved, running.clocks, |running.clocks|).None?;
            && (TimedFrom(record, opts, running).Ok? <==> agrees && placed.Ok? && !record.delay.Unreadable?)
            && (agrees && placed.Err? ==> TimedFrom(record, opts, running) == Err(placed.error))
            && (agrees && placed.Ok? && record.delay.Unreadable? ==> TimedFrom(record, opts, running) == Err(UnreadableDelay))
    ensures TimedFrom(record, opts, running).Ok? ==>
              TimedFrom(record, opts, running).value ==
              Timing(Shifted(placed.value, ShiftOf(running.observed, DelayOf(record.delay))), BasisOf(running.observed, DelayOf(record.delay)))
  {
  }

  /** Clocks that resolve and agree with every stated day, at a date that can be anchored. */
  predicate Standing(record: Record, opts: Options, clocks: seq<int>)
    requires clocks != [] && |clocks| == 2 * |record.stops|
  {
    && Consistent(record.stops, opts, clocks)
    && Dateable(record, opts.horizon)
    && StaysOnCalendar(record, opts.horizon, clocks)
  }

  lemma TimedFromIsShift(record: Record, opts: Options, running: Running)
    requires running.clocks != [] && AreClocks(running.clocks) && |running.clocks| == 2 * |record.stops|
    ensures TimedFrom(record, opts, running).Ok? <==> Standing(record, opts, running.clocks) && !record.delay.Unreadable?
    ensures TimedFrom(record, opts, running).Ok? ==>
              && TimedFrom(record, opts, running).value.times == Shifted(Unwound(running.clocks), Offset(record, opts, running.observed))
              && TimedFrom(record, opts, running).value.basis == BasisOf(running.observed, DelayOf(record.delay))
  {
    var clocks := running.clocks;
    if Resolved(clocks, opts.maxDays, opts.maxLeg).Ok? {
      ResolvedIsUnwound(clocks, opts.maxDays, opts.maxLeg);
      TimedFromPlaced(record, opts, running, Unwound(clocks), Placed(record, clocks, Unwound(clocks), opts.horizon));
      PlacedIsShift(record, clocks, opts.horizon);
      ShiftedTwice(Unwound(clocks), Base(record, opts.horizon), ShiftOf(running.observed, DelayOf(record.delay)),
                   Offset(record, opts, running.observed));
    }
  }

  /** The record's clocks read, resolve and agree with every stated day. */
  predicate Coherent(record: Record, opts: Options) {
    var running := ReadStops(record.stops, opts.preferActual);
    running.Ok? && Consistent(record.stops, opts, running.value.clocks)
  }

  /** What anchoring asks of the record, if it is to be anchored: a date, a horizon on the minute, and to end on the calendar. */
  predicate Anchorable(record: Record, opts: Options) {
    var running := ReadStops(record.stops, opts.preferActual);
    && Dateable(record, opts.horizon)
    && (record.stops != [] && running.Ok? ==> StaysOnCalendar(record, opts.horizon, running.value.clocks))
  }

  /** A train is timed exactly when its record is coherent, can be anchored and has a readable delay, and then at its first occurrences moved by one offset. */
  lemma TimedIsShift(record: Record, opts: Options)
    requires record.stops != []
    ensures Timed(record, opts).Ok? <==> Coherent(record, opts) && Anchorable(record, opts) && !record.delay.Unreadable?
    ensures Timed(record, opts).Ok? ==>
              var running := ReadStops(record.stops, opts.preferActual).value;
              && Timed(record, opts).value.times == Shifted(Unwound(running.clocks), Offset(record, opts, running.observed))
              && Timed(record, opts).value.basis == BasisOf(running.observed, DelayOf(record.delay))
  {
    var running := ReadStops(record.stops, opts.preferActual);
    if running.Ok? {
      TimedFromIsShift(record, opts, running.value);
    }
  }

  // ------------------------------------------------------------------
  // Anchoring moves the whole train
  // ------------------------------------------------------------------

  type Rewriting = Traversal -> Traversal

  function Mapped(ts: seq<Traversal>, f: Rewriting): seq<Traversal> { seq(|ts|, i requires 0 <= i < |ts| => f(ts[i])) }

  function LegMapped(leg: LegResult, f: Rewriting): LegResult { if leg.Err? then leg else Ok(Mapped(leg.value, f)) }

  function TrainMapped(train: Result<Train, ConversionError>, f: Rewriting): Result<Train, ConversionError> {
    if train.Err? then train else Ok(train.value.(traversals := Mapped(train.value.traversals, f)))
  }

  function LegListMapped(legs: seq<LegResult>, f: Rewriting): seq<LegResult> {
    seq(|legs|, i requires 0 <= i < |legs| => LegMapped(legs[i], f))
  }

  lemma AppendMapped(rest: LegResult, leg: LegResult, f: Rewriting)
    ensures Append(LegMapped(rest, f), LegMapped(leg, f)) == LegMapped(Append(rest, leg), f)
  {
    if rest.Ok? && leg.Ok? {
      assert Mapped(rest.value + leg.value, f) == Mapped(rest.value, f) + Mapped(leg.value, f);
    }
  }

  lemma {:induction false} GatherMapped(legs: seq<LegResult>, f: Rewriting)
    ensures Gather(LegListMapped(legs, f)) == LegMapped(Gather(legs), f)
  {
    var mapped := LegListMapped(legs, f);
    if legs == [] {
      assert Mapped([], f) == [];
    } else {
      var n := |legs| - 1;
      GatherMapped(legs[..n], f);
      assert mapped[..n] == LegListMapped(legs[..n], f);
      AppendMapped(Gather(legs[..n]), legs[n], f);
    }
  }

  lemma EachLegMapped(legs: seq<LegResult>, mapped: seq<LegResult>, f: Rewriting)
    requires |mapped| == |legs| && forall i :: 0 <= i < |legs| ==> mapped[i] == LegMapped(legs[i], f)
    ensures Gather(mapped) == LegMapped(Gather(legs), f)
  {
    assert mapped == LegListMapped(legs, f);
    GatherMapped(legs, f);
  }

  function Moved(t: Traversal, delta: int): Traversal { t.(enter := t.enter + delta, exit := t.exit + delta) }

  function Mover(delta: int): Rewriting { t => Moved(t, delta) }

  function TrainMoved(train: Result<Train, ConversionError>, delta: int): Result<Train, ConversionError> {
    TrainMapped(train, Mover(delta))
  }

  lemma LegMoved(c: Corridor, from: string, to: string, track: string, start: int, end: int, basis: Basis, leg: nat, delta: int,
                 newStart: int, newEnd: int)
    requires newStart == start + delta && newEnd == end + delta
    ensures Leg(c, from, to, track, newStart, newEnd, basis, leg) == LegMapped(Leg(c, from, to, track, start, end, basis, leg), Mover(delta))
  {
    var sections := SectionsBetween(c, from, to);
    if sections.Ok? {
      assert LegTraversals(sections.value, track, newStart, newEnd, basis)
             == Mapped(LegTraversals(sections.value, track, start, end, basis), Mover(delta));
    }
  }

  lemma OneLegMoved(c: Corridor, stations: seq<string>, times: seq<int>, track: string, basis: Basis, delta: int, i: nat)
    requires |times| == 2 * |stations| && i + 1 < |stations|
    ensures LegList(c, stations, Shifted(times, delta), track, basis)[i] == LegMapped(LegList(c, stations, times, track, basis)[i], Mover(delta))
  {
    LegListAt(c, stations, times, track, basis, i);
    LegListAt(c, stations, Shifted(times, delta), track, basis, i);
    LegMoved(c, stations[i], stations[i + 1], track, times[2 * i + 1], times[2 * i + 2], basis, i, delta,
             Shifted(times, delta)[2 * i + 1], Shifted(times, delta)[2 * i + 2]);
  }

  lemma LegsMovedTogether(c: Corridor, stations: seq<string>, times: seq<int>, track: string, basis: Basis, delta: int)
    requires |times| == 2 * |stations| && stations != []
    ensures Gather(LegList(c, stations, Shifted(times, delta), track, basis)) ==
            LegMapped(Gather(LegList(c, stations, times, track, basis)), Mover(delta))
  {
    var legs := LegList(c, stations, times, track, basis);
    var moved := LegList(c, stations, Shifted(times, delta), track, basis);
    forall i | 0 <= i < |legs| ensures moved[i] == LegMapped(legs[i], Mover(delta)) {
      OneLegMoved(c, stations, times, track, basis, delta, i);
    }
    EachLegMapped(legs, moved, Mover(delta));
  }

  /** An anchored record that can be placed fails later exactly as it does unanchored. */
  lemma PlacedErrorUnmoved(record: Record, opts: Options, running: Running)
    requires running.clocks != [] && AreClocks(running.clocks) && |running.clocks| == 2 * |record.stops|
    requires Dateable(record, opts.horizon) && StaysOnCalendar(record, opts.horizon, running.clocks)
    requires TimedFrom(record, opts.(horizon := None), running).Err?
    ensures TimedFrom(record, opts, running) == TimedFrom(record, opts.(horizon := None), running)
  {
    var clocks := running.clocks;
    if Resolved(clocks, opts.maxDays, opts.maxLeg).Ok? {
      ResolvedIsUnwound(clocks, opts.maxDays, opts.maxLeg);
      PlacedIsShift(record, clocks, opts.horizon);
    }
  }

  lemma TimedFromMoved(record: Record, opts: Options, running: Running, day: CalendarDay, start: int)
    requires record.serviceDate == Date(day) && opts.horizon == Some(HorizonAt(start)) && WholeMinute(start)
    requires running.clocks != [] && AreClocks(running.clocks) && |running.clocks| == 2 * |record.stops|
    requires EndsOnCalendar(running.clocks, day)
    ensures TimedFrom(record, opts, running) == TimingMoved(TimedFrom(record, opts.(horizon := None), running), Origin(day, start))
  {
    var plain := opts.(horizon := None);
    if TimedFrom(record, plain, running).Err? {
      PlacedErrorUnmoved(record, opts, running);
    } else {
      TimedFromIsShift(record, opts, running);
      TimedFromIsShift(record, plain, running);
      ShiftedTwice(Unwound(running.clocks), Offset(record, plain, running.observed), Origin(day, start),
                   Offset(record, opts, running.observed));
    }
  }

  function TimingMoved(timing: Result<Timing, ConversionError>, delta: int): Result<Timing, ConversionError> {
    if timing.Err? then timing else Ok(timing.value.(times := Shifted(timing.value.times, delta)))
  }

  /**
   On a dated record that stays on the calendar and a horizon on a whole minute,
   anchored conversion is unanchored conversion moved by one constant: the same
   legs, or the same error.
   */
  lemma AnchoredConversionIsMoved(record: Record, c: Corridor, opts: Options, day: CalendarDay, start: int)
    requires record.serviceDate == Date(day) && opts.horizon == Some(HorizonAt(start)) && WholeMinute(start)
    requires Anchorable(record, opts)
    ensures Converted(record, c, opts) == TrainMoved(Converted(record, c, opts.(horizon := None)), Origin(day, start))
  {
    if RecordProblem(record, c).None? {
      var timed := Timed(record, opts.(horizon := None));
      var running := ReadStops(record.stops, opts.preferActual);
      if running.Ok? {
        TimedFromMoved(record, opts, running.value, day, start);
      }
      if timed.Ok? {
        LegsMovedTogether(c, StationIds(record.stops), timed.value.times, record.trackId, timed.value.basis, Origin(day, start));
      }
    }
  }

  /** Anchored and unanchored conversion accept the same records, except those that cannot be anchored at all. */
  lemma AnchoredAcceptsTheSame(record: Record, c: Corridor, opts: Options)
    ensures Converted(record, c, opts).Ok? <==> Converted(record, c, opts.(horizon := None)).Ok? && Anchorable(record, opts)
  {
    if RecordProblem(record, c).None? {
      TimedIsShift(record, opts);
      if opts.horizon.Some? && Anchorable(record, opts) {
        AnchoredConversionIsMoved(record, c, opts, record.serviceDate.day, opts.horizon.value.start);
      }
      assert opts.horizon.None? ==> opts.(horizon := None) == opts;
    }
  }
}
