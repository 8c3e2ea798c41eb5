/**
 When a rejection can only take maintenance opportunity away: what it withholds
 against what its train would have crossed. And a train that costs the timetable.
 */
module FailClosed {
  import opened Wrappers
  import opened ClockLift
  import opened ClockText
  import SnapshotClocks
  import opened Topology
  import opened TrainConversion
  import opened PossessionWindows
  import opened SkippedStops
  import opened SnapshotWindows
  import opened Rejections

  // ------------------------------------------------------------------
  // More rejections withhold more
  // ------------------------------------------------------------------

  predicate AllEstablished(rs: seq<Rejection>) { forall i :: 0 <= i < |rs| ==> RouteEstablished(rs[i]) }

  /** Every affected section is a section of the corridor. */
  predicate OnCorridor(rs: seq<Rejection>, c: Corridor) {
    forall i, s :: 0 <= i < |rs| && s in rs[i].affected ==> s in AllSectionIds(c)
  }

  lemma WithheldSection(rs: seq<Rejection>, c: Corridor, s: string)
    ensures s in Withheld(rs, c) <==>
            if AllEstablished(rs) then exists i :: 0 <= i < |rs| && s in rs[i].affected else s in AllSectionIds(c)
  {
  }

  lemma WithheldGrows(rs: seq<Rejection>, more: seq<Rejection>, c: Corridor)
    requires OnCorridor(rs, c) && forall r :: r in rs ==> r in more
    ensures Withheld(rs, c) <= Withheld(more, c)
  {
    forall s | s in Withheld(rs, c) ensures s in Withheld(more, c) {
      WithheldSection(rs, c, s);
      WithheldSection(more, c, s);
      if AllEstablished(rs) {
        var i :| 0 <= i < |rs| && s in rs[i].affected;
        assert rs[i] in more;
      } else {
        var i :| 0 <= i < |rs| && !RouteEstablished(rs[i]);
        assert rs[i] in more;
      }
    }
  }

  /** One more rejection keeps everything withheld, unless its unknown route replaces sections from outside the corridor. */
  predicate KeepsWithheld(rs: seq<Rejection>, r: Rejection, c: Corridor) {
    RouteEstablished(r) || !AllEstablished(rs) || OnCorridor(rs, c)
  }

  lemma AddedRejectionWithholds(rs: seq<Rejection>, r: Rejection, c: Corridor)
    ensures Withheld(rs, c) <= Withheld(rs + [r], c) <==> KeepsWithheld(rs, r, c)
  {
    var more := rs + [r];
    assert more[|rs|] == r && forall i :: 0 <= i < |rs| ==> more[i] == rs[i];
    assert AllEstablished(more) <==> AllEstablished(rs) && RouteEstablished(r);
    if KeepsWithheld(rs, r, c) {
      forall s | s in Withheld(rs, c) ensures s in Withheld(more, c) {
        WithheldSection(rs, c, s);
        WithheldSection(more, c, s);
        if AllEstablished(rs) {
          var i :| 0 <= i < |rs| && s in rs[i].affected;
          assert s in more[i].affected;
        }
      }
    } else {
      var i, s :| 0 <= i < |rs| && s in rs[i].affected && s !in AllSectionIds(c);
      WithheldSection(rs, c, s);
      WithheldSection(more, c, s);
    }
  }

  /** Every window of the one snapshot is a window of the other. */
  ghost predicate OnlyRemoves(fewer: Snapshot, snapshot: Snapshot, c: Corridor) {
    forall horizon, buffer, minimum, w ::
      IsWindow(fewer, c, horizon, buffer, minimum, w) ==> IsWindow(snapshot, c, horizon, buffer, minimum, w)
  }

  const SHORT := Interval(1, 2)

  /** One train on one section leaves a window there, if the section is not withheld. */
  function LoneTrain(section: string): Train { Train("1", "UP-1", [Traversal(section, "UP-1", 0, 1, Scheduled, DirectStopPair)]) }

  lemma LoneTrainWindow(section: string, rs: seq<Rejection>, c: Corridor)
    ensures Forward(Traversals([LoneTrain(section)]))
    ensures IsWindow(Snapshot([LoneTrain(section)], rs), c, 2, 0, 1, Window(Key("UP-1", section), SHORT)) <==>
            section !in Withheld(rs, c)
  {
    var trains := [LoneTrain(section)];
    TraversalsOneMore([], LoneTrain(section));
    assert [] + trains == trains;
    var ts := Traversals(trains);
    assert ts == LoneTrain(section).traversals;
    assert Reaches(ts[0], 0, Key("UP-1", section));
    assert Blocks(ts[0], 0, Key("UP-1", section), 0);
    assert TrainFree(ts, 0, Key("UP-1", section), 2, 1, SHORT);
  }

  /**
   Adding a rejection never adds a window, whatever the trains, exactly when it
   keeps everything withheld: it fails only for an unknown route added to
   known ones that name a section outside the corridor.
   */
  lemma AddingRejectionOnlyRemoves(rs: seq<Rejection>, r: Rejection, c: Corridor)
    ensures (forall trains :: Forward(Traversals(trains)) ==> OnlyRemoves(Snapshot(trains, rs + [r]), Snapshot(trains, rs), c))
            <==> KeepsWithheld(rs, r, c)
  {
    AddedRejectionWithholds(rs, r, c);
    if !KeepsWithheld(rs, r, c) {
      var s :| s in Withheld(rs, c) && s !in Withheld(rs + [r], c);
      LoneTrainWindow(s, rs, c);
      LoneTrainWindow(s, rs + [r], c);
      assert !OnlyRemoves(Snapshot([LoneTrain(s)], rs + [r]), Snapshot([LoneTrain(s)], rs), c);
    }
  }

  // ------------------------------------------------------------------
  // A rejection covers what its train would have crossed
  // ------------------------------------------------------------------

  predicate InLeg(legs: seq<RouteResult>, k: nat, s: string) { k < |legs| && legs[k].Ok? && s in legs[k].value }

  lemma {:induction false} JoinedMembers(legs: seq<RouteResult>, s: string)
    ensures Joined(legs).Ok? <==> forall k :: 0 <= k < |legs| ==> legs[k].Ok?
    ensures Joined(legs).Ok? ==> (s in Joined(legs).value <==> exists k: nat :: InLeg(legs, k, s))
  {
    if legs != [] {
      var n := |legs| - 1;
      JoinedMembers(legs[..n], s);
      if k: nat :| InLeg(legs[..n], k, s) { assert InLeg(legs, k, s); }
      if k: nat :| InLeg(legs, k, s) { assert k < n ==> InLeg(legs[..n], k, s); }
      assert InLeg(legs, n, s) <==> legs[n].Ok? && s in legs[n].value;
    }
  }

  predicate RouteLeg(c: Corridor, route: seq<string>, k: nat, s: string) {
    GoodLeg(c, route, k) && s in SectionsBetween(c, route[k], route[k + 1]).value
  }

  predicate GoodLeg(c: Corridor, route: seq<string>, k: nat) {
    k + 1 < |route| && SectionsBetween(c, route[k], route[k + 1]).Ok?
  }

  lemma LegOfRoute(c: Corridor, route: seq<string>, k: nat, s: string)
    requires k + 1 < |route|
    ensures RouteLegs(c, route)[k].Ok? <==> GoodLeg(c, route, k)
    ensures InLeg(RouteLegs(c, route), k, s) <==> RouteLeg(c, route, k, s)
  {
  }

  /** A route has sections exactly if each leg has, and they are the sections of its legs. */
  lemma RouteMembers(c: Corridor, route: seq<string>, s: string)
    requires route != []
    ensures RouteSectionIds(c, route).Ok? <==> forall k :: 0 <= k < |route| - 1 ==> GoodLeg(c, route, k)
    ensures RouteSectionIds(c, route).Ok? ==>
              (s in RouteSectionIds(c, route).value <==> exists k: nat :: RouteLeg(c, route, k, s))
  {
    var legs := RouteLegs(c, route);
    JoinedMembers(legs, s);
    forall k: nat | k + 1 < |route|
      ensures (legs[k].Ok? <==> GoodLeg(c, route, k)) && (InLeg(legs, k, s) <==> RouteLeg(c, route, k, s))
    {
      LegOfRoute(c, route, k, s);
    }
  }

  lemma LegSections(c: Corridor, stations: seq<string>, times: seq<int>, track: string, basis: Basis, k: nat, t: Traversal)
    requires |times| == 2 * |stations| && k + 1 < |stations| && LegList(c, stations, times, track, basis)[k].Ok?
    ensures GoodLeg(c, stations, k)
    ensures t in LegList(c, stations, times, track, basis)[k].value ==> RouteLeg(c, stations, k, t.section)
  {
  }

  lemma LegReaches(c: Corridor, stations: seq<string>, times: seq<int>, track: string, basis: Basis, k: nat, s: string) returns (t: Traversal)
    requires |times| == 2 * |stations| && RouteLeg(c, stations, k, s) && LegList(c, stations, times, track, basis)[k].Ok?
    ensures t in LegList(c, stations, times, track, basis)[k].value && t.section == s
  {
    LegListAt(c, stations, times, track, basis, k);
    var sections := SectionsBetween(c, stations[k], stations[k + 1]).value;
    var i :| 0 <= i < |sections| && sections[i] == s;
    t := LegTraversals(sections, track, times[2 * k + 1], times[2 * k + 2], basis)[i];
  }

  predicate Crosses(ts: seq<Traversal>, s: string) { exists i :: 0 <= i < |ts| && ts[i].section == s }

  /** The sections of a train's legs are exactly the sections of its route. */
  lemma LegsCoverRoute(c: Corridor, stations: seq<string>, times: seq<int>, track: string, basis: Basis, s: string)
    requires |times| == 2 * |stations| && stations != [] && Gather(LegList(c, stations, times, track, basis)).Ok?
    ensures RouteSectionIds(c, stations).Ok?
    ensures s in RouteSectionIds(c, stations).value <==> Crosses(Gather(LegList(c, stations, times, track, basis)).value, s)
  {
    var legs := LegList(c, stations, times, track, basis);
    var ts := Gather(legs).value;
    RouteMembers(c, stations, s);
    forall k | 0 <= k < |stations| - 1 ensures GoodLeg(c, stations, k) {
      GatherMembers(legs, Traversal(s, track, 0, 0, basis, DirectStopPair));
      LegSections(c, stations, times, track, basis, k, Traversal(s, track, 0, 0, basis, DirectStopPair));
    }
    if i :| 0 <= i < |ts| && ts[i].section == s {
      GatherMembers(legs, ts[i]);
      var k :| 0 <= k < |legs| && legs[k].Ok? && ts[i] in legs[k].value;
      LegSections(c, stations, times, track, basis, k, ts[i]);
    }
    if k: nat :| RouteLeg(c, stations, k, s) {
      GatherMembers(legs, Traversal(s, track, 0, 0, basis, DirectStopPair));
      var t := LegReaches(c, stations, times, track, basis, k, s);
      GatherMembers(legs, t);
      assert InSomeLeg(legs, t);
    }
  }

  /**
   A record that cannot be converted withholds exactly the sections that any
   convertible record of the same stations crosses.
   */
  lemma RejectionCoversTrain(record: Record, good: Record, c: Corridor, opts: Options, s: string)
    requires StationIds(record.stops) == StationIds(good.stops) && Converted(good, c, opts).Ok?
    ensures RouteEstablished(RejectionOf(record, c))
    ensures s in RejectionOf(record, c).affected <==> Crosses(Converted(good, c, opts).value.traversals, s)
  {
    SameStations(record, good, c, opts);
    var timed := Timed(good, opts).value;
    LegsCoverRoute(c, StationIds(good.stops), timed.times, good.trackId, timed.basis, s);
    SomeSection(c, StationIds(good.stops));
  }

  lemma SameStations(record: Record, good: Record, c: Corridor, opts: Options)
    requires StationIds(record.stops) == StationIds(good.stops) && Converted(good, c, opts).Ok?
    ensures DeclaredRoute(record) == Some(StationIds(good.stops)) && |good.stops| >= 2
  {
    forall i | 0 <= i < |record.stops| ensures record.stops[i].stationId != "" {
      assert StationIds(record.stops)[i] == StationIds(good.stops)[i] == good.stops[i].stationId;
    }
  }

  lemma SomeSection(c: Corridor, route: seq<string>)
    requires |route| >= 2 && RouteSectionIds(c, route).Ok?
    ensures RouteSectionIds(c, route).value != []
  {
    RouteMembers(c, route, "");
    assert GoodLeg(c, route, 0);
    SpanExactly(c, route[0], route[1]);
    var s := SectionsBetween(c, route[0], route[1]).value[0];
    RouteMembers(c, route, s);
    assert RouteLeg(c, route, 0, s);
  }

  lemma RouteStaysOnCorridor(c: Corridor, route: seq<string>, s: string)
    requires route != [] && RouteSectionIds(c, route).Ok? && s in RouteSectionIds(c, route).value
    ensures s in AllSectionIds(c)
  {
    RouteMembers(c, route, s);
    var k: nat :| RouteLeg(c, route, k, s);
    LegsStayOnCorridor(c, route[k], route[k + 1], s);
  }

  lemma RejectionStaysOnCorridor(record: Record, c: Corridor, s: string)
    requires s in RejectionOf(record, c).affected
    ensures s in AllSectionIds(c)
  {
    RouteStaysOnCorridor(c, DeclaredRoute(record).value, s);
  }

  lemma TrainStaysOnCorridor(record: Record, c: Corridor, opts: Options, s: string)
    requires Converted(record, c, opts).Ok? && Crosses(Converted(record, c, opts).value.traversals, s)
    ensures s in AllSectionIds(c)
  {
    RejectionCoversTrain(record, record, c, opts, s);
    RejectionStaysOnCorridor(record, c, s);
  }

  // ------------------------------------------------------------------
  // A train that becomes unreadable
  // ------------------------------------------------------------------

  /** Fewer traversals, and every missing one on a withheld section. */
  predicate MissingAreWithheld(fewer: Snapshot, snapshot: Snapshot, c: Corridor) {
    && (forall t :: t in Traversals(fewer.trains) ==> t in Traversals(snapshot.trains))
    && (forall t :: t in Traversals(snapshot.trains) ==>
          t in Traversals(fewer.trains) || t.section in Withheld(fewer.rejections, c))
    && Withheld(snapshot.rejections, c) <= Withheld(fewer.rejections, c)
  }

  lemma SameOccupation(fewer: seq<Traversal>, ts: seq<Traversal>, withheld: set<string>, buffer: int, key: Key, minute: int)
    requires forall t :: t in fewer ==> t in ts
    requires forall t :: t in ts ==> t in fewer || t.section in withheld
    requires key.section !in withheld
    ensures Occupied(fewer, buffer, key, minute) <==> Occupied(ts, buffer, key, minute)
    ensures Used(fewer, buffer, key) <==> Used(ts, buffer, key)
  {
    if i :| 0 <= i < |fewer| && Blocks(fewer[i], buffer, key, minute) {
      var j :| 0 <= j < |ts| && ts[j] == fewer[i];
    }
    if i :| 0 <= i < |ts| && Blocks(ts[i], buffer, key, minute) {
      var j :| 0 <= j < |fewer| && fewer[j] == ts[i];
    }
    if i :| 0 <= i < |fewer| && Reaches(fewer[i], buffer, key) {
      var j :| 0 <= j < |ts| && ts[j] == fewer[i];
    }
    if i :| 0 <= i < |ts| && Reaches(ts[i], buffer, key) {
      var j :| 0 <= j < |fewer| && fewer[j] == ts[i];
    }
  }

  lemma MissingOnlyRemoves(fewer: Snapshot, snapshot: Snapshot, c: Corridor)
    requires MissingAreWithheld(fewer, snapshot, c)
    ensures OnlyRemoves(fewer, snapshot, c)
  {
    forall horizon, buffer, minimum, w | IsWindow(fewer, c, horizon, buffer, minimum, w)
      ensures IsWindow(snapshot, c, horizon, buffer, minimum, w)
    {
      forall minute
        ensures Occupied(Traversals(fewer.trains), buffer, w.key, minute) <==> Occupied(Traversals(snapshot.trains), buffer, w.key, minute)
        ensures Used(Traversals(fewer.trains), buffer, w.key) <==> Used(Traversals(snapshot.trains), buffer, w.key)
      {
        SameOccupation(Traversals(fewer.trains), Traversals(snapshot.trains), Withheld(fewer.rejections, c), buffer, w.key, minute);
      }
      assert Used(Traversals(snapshot.trains), buffer, w.key) by {
        SameOccupation(Traversals(fewer.trains), Traversals(snapshot.trains), Withheld(fewer.rejections, c), buffer, w.key, 0);
      }
    }
  }

  predicate EntryOnCorridor(e: Entry, c: Corridor) {
    && (forall s :: s in e.rejection.affected ==> s in AllSectionIds(c))
    && (e.outcome.Ok? ==> forall t :: t in e.outcome.value.traversals ==> t.section in AllSectionIds(c))
  }

  /** The rejection withholds everything the train would have crossed. */
  predicate Replaces(e: Entry, good: Entry) {
    && good.outcome.Ok? && e.outcome.Err?
    && (RouteEstablished(e.rejection) ==> forall t :: t in good.outcome.value.traversals ==> t.section in e.rejection.affected)
  }

  lemma SwapTraversals(entries: seq<Entry>, i: nat, e: Entry, t: Traversal)
    requires i < |entries| && Replaces(e, entries[i]) && Sifted(entries).Ok? && Sifted(entries[i := e]).Ok?
    ensures var fewer, all := Traversals(Sifted(entries[i := e]).value.trains), Traversals(Sifted(entries).value.trains);
            (t in fewer ==> t in all) && (t in all ==> t in fewer || t in entries[i].outcome.value.traversals)
  {
    var swapped := entries[i := e];
    SnapshotTraversals(entries, t);
    SnapshotTraversals(swapped, t);
    if k: nat :| TrainEntry(swapped, k, t) {
      assert TrainEntry(entries, k, t);
    }
    if k: nat :| TrainEntry(entries, k, t) {
      assert k != i ==> TrainEntry(swapped, k, t);
    }
  }

  lemma SwapRejections(entries: seq<Entry>, i: nat, e: Entry, r: Rejection)
    requires i < |entries| && Replaces(e, entries[i]) && Sifted(entries).Ok? && Sifted(entries[i := e]).Ok?
    ensures r in Sifted(entries).value.rejections ==> r in Sifted(entries[i := e]).value.rejections
    ensures e.rejection in Sifted(entries[i := e]).value.rejections
  {
    var swapped := entries[i := e];
    SnapshotRejections(entries, r);
    SnapshotRejections(swapped, r);
    SnapshotRejections(swapped, e.rejection);
    assert RejectedEntry(swapped, i, e.rejection);
    if k: nat :| RejectedEntry(entries, k, r) {
      assert RejectedEntry(swapped, k, r);
    }
  }

  lemma SiftedOnCorridor(entries: seq<Entry>, c: Corridor)
    requires Sifted(entries).Ok? && forall k :: 0 <= k < |entries| ==> EntryOnCorridor(entries[k], c)
    ensures OnCorridor(Sifted(entries).value.rejections, c)
  {
    var rs := Sifted(entries).value.rejections;
    forall i, s | 0 <= i < |rs| && s in rs[i].affected ensures s in AllSectionIds(c) {
      SnapshotRejections(entries, rs[i]);
      var k: nat :| RejectedEntry(entries, k, rs[i]);
      assert EntryOnCorridor(entries[k], c);
    }
  }

  lemma SwapIsWithheld(entries: seq<Entry>, i: nat, e: Entry, c: Corridor)
    requires i < |entries| && Replaces(e, entries[i]) && Sifted(entries).Ok? && Sifted(entries[i := e]).Ok?
    requires EntryOnCorridor(e, c) && forall k :: 0 <= k < |entries| ==> EntryOnCorridor(entries[k], c)
    ensures MissingAreWithheld(Sifted(entries[i := e]).value, Sifted(entries).value, c)
  {
    var swapped := entries[i := e];
    var rs, more := Sifted(entries).value.rejections, Sifted(swapped).value.rejections;
    forall r | r in rs ensures r in more { SwapRejections(entries, i, e, r); }
    SiftedOnCorridor(entries, c);
    SiftedOnCorridor(swapped, c);
    WithheldGrows(rs, more, c);
    SwapRejections(entries, i, e, e.rejection);
    forall t ensures (t in Traversals(Sifted(swapped).value.trains) ==> t in Traversals(Sifted(entries).value.trains))
    {
      SwapTraversals(entries, i, e, t);
    }
    forall t | t in Traversals(Sifted(entries).value.trains)
      ensures t in Traversals(Sifted(swapped).value.trains) || t.section in Withheld(more, c)
    {
      SwapTraversals(entries, i, e, t);
      assert EntryOnCorridor(entries[i], c);
      WithheldSection(more, c, t.section);
      var k :| 0 <= k < |more| && more[k] == e.rejection;
    }
  }

  lemma EntriesOnCorridor(record: Record, c: Corridor, opts: Options)
    ensures EntryOnCorridor(EntryOf(record, c, opts), c)
  {
    var e := EntryOf(record, c, opts);
    forall s | s in e.rejection.affected ensures s in AllSectionIds(c) {
      RejectionStaysOnCorridor(record, c, s);
    }
    if e.outcome.Ok? {
      forall t | t in e.outcome.value.traversals ensures t.section in AllSectionIds(c) {
        var i :| 0 <= i < |e.outcome.value.traversals| && e.outcome.value.traversals[i] == t;
        TrainStaysOnCorridor(record, c, opts, t.section);
      }
    }
  }

  lemma ReplacesGood(bad: Record, good: Record, c: Corridor, opts: Options)
    requires Converted(good, c, opts).Ok? && Converted(bad, c, opts).Err?
    requires RejectionOf(bad, c).routeKnown ==> StationIds(bad.stops) == StationIds(good.stops)
    ensures Replaces(EntryOf(bad, c, opts), EntryOf(good, c, opts))
  {
    if RouteEstablished(RejectionOf(bad, c)) {
      var ts := Converted(good, c, opts).value.traversals;
      forall t | t in ts ensures t.section in RejectionOf(bad, c).affected {
        var i :| 0 <= i < |ts| && ts[i] == t;
        RejectionCoversTrain(bad, good, c, opts, t.section);
      }
    }
  }

  /**
   Whenever a convertible record of a timetable is replaced by one that cannot
   be converted, of the same stations or of no readable route, every window
   that is still derived was a window before.
   */
  lemma UnreadableTrainOnlyRemoves(records: seq<Record>, i: nat, bad: Record, c: Corridor, opts: Options)
    requires i < |records| && Converted(records[i], c, opts).Ok? && Converted(bad, c, opts).Err?
    requires RejectionOf(bad, c).routeKnown ==> StationIds(bad.stops) == StationIds(records[i].stops)
    requires Timetable(records, c, opts).Ok? && Timetable(records[i := bad], c, opts).Ok?
    ensures OnlyRemoves(Timetable(records[i := bad], c, opts).value, Timetable(records, c, opts).value, c)
  {
    var entries := Entries(records, c, opts);
    var e := EntryOf(bad, c, opts);
    assert Entries(records[i := bad], c, opts) == entries[i := e];
    ReplacesGood(bad, records[i], c, opts);
    EntriesOnCorridor(bad, c, opts);
    forall k | 0 <= k < |entries| ensures EntryOnCorridor(entries[k], c) {
      EntriesOnCorridor(records[k], c, opts);
    }
    SwapIsWithheld(entries, i, e, c);
    MissingOnlyRemoves(Sifted(entries[i := e]).value, Sifted(entries).value, c);
  }

  /** A converted train's traversals are all entered before they are left. */
  lemma ConvertedForward(record: Record, c: Corridor, opts: Options, t: Traversal)
    requires Converted(record, c, opts).Ok? && t in Converted(record, c, opts).value.traversals
    ensures t.enter < t.exit
  {
    var timed, stations := Timed(record, opts).value, StationIds(record.stops);
    var legs := LegList(c, stations, timed.times, record.trackId, timed.basis);
    GatherMembers(legs, t);
    var k :| 0 <= k < |legs| && legs[k].Ok? && t in legs[k].value;
    LegForward(c, stations, timed.times, record.trackId, timed.basis, k, t);
  }

  lemma LegForward(c: Corridor, stations: seq<string>, times: seq<int>, track: string, basis: Basis, k: nat, t: Traversal)
    requires |times| == 2 * |stations| && k + 1 < |stations|
    requires LegList(c, stations, times, track, basis)[k].Ok? && t in LegList(c, stations, times, track, basis)[k].value
    ensures t.enter < t.exit
  {
  }

  /** So the windows of any converted timetable can be derived. */
  lemma TimetableForward(records: seq<Record>, c: Corridor, opts: Options)
    requires Timetable(records, c, opts).Ok?
    ensures Forward(Traversals(Timetable(records, c, opts).value.trains))
  {
    var entries := Entries(records, c, opts);
    var ts := Traversals(Sifted(entries).value.trains);
    forall i | 0 <= i < |ts| ensures ts[i].enter < ts[i].exit {
      SnapshotTraversals(entries, ts[i]);
      var k: nat :| TrainEntry(entries, k, ts[i]);
      ConvertedForward(records[k], c, opts, ts[i]);
    }
  }

  /** A converted timetable's rejections name sections of its own corridor, so adding any rejection to it only removes windows. */
  lemma AddingToTimetableOnlyRemoves(records: seq<Record>, c: Corridor, opts: Options, r: Rejection)
    requires Timetable(records, c, opts).Ok?
    ensures var snapshot := Timetable(records, c, opts).value;
            && OnCorridor(snapshot.rejections, c) && KeepsWithheld(snapshot.rejections, r, c)
            && OnlyRemoves(snapshot.(rejections := snapshot.rejections + [r]), snapshot, c)
  {
    var entries, snapshot := Entries(records, c, opts), Timetable(records, c, opts).value;
    forall k | 0 <= k < |entries| ensures EntryOnCorridor(entries[k], c) {
      EntriesOnCorridor(records[k], c, opts);
    }
    SiftedOnCorridor(entries, c);
    AddedRejectionWithholds(snapshot.rejections, r, c);
  }

  // ------------------------------------------------------------------
  // A train that costs the whole timetable
  // ------------------------------------------------------------------

  function PlainStop(station: string, text: string, day: Number): Stop { Stop(station, "", text, "", text, day, NotStated) }

  /** Two stops with one time each, the first with a stated day. */
  function TwoStops(a: string, b: string, early: string, late: string, track: string, day: Number, delay: Number): Record {
    Record("1", track, [PlainStop(a, early, day), PlainStop(b, late, NotStated)], [], NoDate, delay)
  }

  lemma PlainStopReads(station: string, text: string, day: Number, clock: int)
    requires text != "" && ParseClock(text) == Ok(clock)
    ensures ReadTimes(PlainStop(station, text, day), true) == Ok(StopTimes(clock, clock, false))
  {
  }

  lemma TwoStopsCollect(list: seq<StopResult>, a: int, b: int)
    requires list == [Ok(StopTimes(a, a, false)), Ok(StopTimes(b, b, false))]
    ensures Collect(list) == Ok(Running([a, a, b, b], false))
  {
    var one := list[..1];
    assert one[..0] == [] && one[0] == list[0];
    assert [] + [a, a] == [a, a] && [a, a] + [b, b] == [a, a, b, b];
    assert Collect(one) == Ok(Running([a, a], false));
  }

  /** A stop is read as standing at one minute of the day. */
  predicate ReadsAs(stop: Stop, clock: int) { ReadStop(stop, true) == Ok(StopTimes(clock, clock, false)) }

  lemma TwoStopsRead(stops: seq<Stop>, a: int, b: int)
    requires |stops| == 2 && ReadsAs(stops[0], a) && ReadsAs(stops[1], b)
    ensures ReadStops(stops, true) == Ok(Running([a, a, b, b], false))
  {
    StopListAt(stops, true, 0);
    StopListAt(stops, true, 1);
    var list := StopList(stops, true);
    assert list == [list[0], list[1]];
    TwoStopsCollect(list, a, b);
  }

  lemma HalfHourResolves(clocks: seq<int>)
    requires clocks == [600, 600, 630, 630]
    ensures Resolved(clocks, DEFAULT_MAX_DAYS, DEFAULT_MAX_STEP) == Ok(clocks)
  {
    assert SnapshotClocks.Readings(clocks) == clocks;
    assert Steps(clocks, DEFAULT_MAX_STEP);
    SnapshotClocks.RoundTrip(clocks, DEFAULT_MAX_DAYS, DEFAULT_MAX_STEP);
  }

  /** The stops state no days of their own. */
  predicate Undeclared(stops: seq<Stop>) { forall i :: 0 <= i < |stops| ==> stops[i].arrivalDay.NotStated? && stops[i].departureDay.NotStated? }

  lemma HalfHourLoses(record: Record, c: Corridor, opts: Options, running: Running)
    requires running == Running([600, 600, 630, 630], false) && opts == Options(true, DEFAULT_MAX_DAYS, DEFAULT_MAX_STEP, None)
    requires |record.stops| == 2 && Undeclared(record.stops)
    requires RecordProblem(record, c).None? && (Compound(record.trackId) || record.delay.Unreadable?)
    requires ReadStops(record.stops, true) == Ok(running)
    ensures LosesBatch(record, c, opts)
  {
    HalfHourResolves(running.clocks);
  }

  lemma TwoStopsAcceptable(c: Corridor, record: Record, early: string, late: string, track: string, day: Number, delay: Number)
    requires record == TwoStops(c[0], c[1], early, late, track, day, delay) && track != "" && c[0] != "" && c[1] != ""
    ensures RecordProblem(record, c).None?
  {
    var ids := StationIds(record.stops);
    assert ids == [c[0], c[1]];
  }

  lemma TwoStopsLose(c: Corridor, opts: Options, record: Record, early: string, late: string, track: string, delay: Number)
    requires record == TwoStops(c[0], c[1], early, late, track, NotStated, delay) && track != "" && c[0] != "" && c[1] != ""
    requires ReadsAs(record.stops[0], 600) && ReadsAs(record.stops[1], 630)
    requires opts == Options(true, DEFAULT_MAX_DAYS, DEFAULT_MAX_STEP, None) && (Compound(track) || delay.Unreadable?)
    ensures LosesBatch(record, c, opts)
  {
    TwoStopsAcceptable(c, record, early, late, track, NotStated, delay);
    TwoStopsRead(record.stops, 600, 630);
    HalfHourLoses(record, c, opts, Running([600, 600, 630, 630], false));
  }

  lemma ReadableIsStated(text: string, clock: int)
    requires ParseClock(text) == Ok(clock)
    ensures text != ""
  {
  }

  lemma FormattedClock(text: string, clock: int, wrapped: int)
    requires wrapped == clock % DAY && text == FormatClock(clock)
    ensures text != "" && ParseClock(text) == Ok(wrapped)
  {
    FormattedReadsBack(clock);
    ReadableIsStated(text, wrapped);
  }

  lemma FormattedStopReads(station: string, text: string, clock: int)
    requires IsClock(clock) && text == FormatClock(clock)
    ensures ReadsAs(PlainStop(station, text, NotStated), clock)
  {
    FormattedClock(text, clock, clock);
    PlainStopReads(station, text, NotStated, clock);
  }

  /** For instance, on any corridor: a train from its first station at 10:00 to its second at 10:30, on a track written as "UP:1". */
  lemma CompoundTrackLosesBatch(c: Corridor, opts: Options, record: Record, early: string, late: string)
    requires early == FormatClock(600) && late == FormatClock(630)
    requires opts == Options(true, DEFAULT_MAX_DAYS, DEFAULT_MAX_STEP, None) && c[0] != "" && c[1] != ""
    requires record == TwoStops(c[0], c[1], early, late, "UP:1", NotStated, NotStated)
    ensures LosesBatch(record, c, opts) && Timetable([record], c, opts).Err?
  {
    assert record.trackId[2] == ':';
    FormattedStopReads(c[0], early, 600);
    FormattedStopReads(c[1], late, 630);
    TwoStopsLose(c, opts, record, early, late, "UP:1", NotStated);
    OneLost([record], 0, c, opts);
  }

  /** Or the same train on the bare track "UP", whose delay is not a number. */
  lemma UnreadableDelayLosesBatch(c: Corridor, opts: Options, record: Record, early: string, late: string)
    requires early == FormatClock(600) && late == FormatClock(630)
    requires opts == Options(true, DEFAULT_MAX_DAYS, DEFAULT_MAX_STEP, None) && c[0] != "" && c[1] != ""
    requires record == TwoStops(c[0], c[1], early, late, "UP", NotStated, Unreadable)
    ensures LosesBatch(record, c, opts) && Timetable([record], c, opts).Err?
  {
    FormattedStopReads(c[0], early, 600);
    FormattedStopReads(c[1], late, 630);
    TwoStopsLose(c, opts, record, early, late, "UP", Unreadable);
    OneLost([record], 0, c, opts);
  }

  /** Or one whose first stop states a day that is not a number, wherever it goes next and whatever its other clocks. */
  lemma UnreadableDayLosesBatch(c: Corridor, opts: Options, record: Record, early: string, late: string, delay: Number)
    requires opts.preferActual && early == FormatClock(600) && c[0] != "" && c[1] != ""
    requires record == TwoStops(c[0], c[1], early, late, "UP", Unreadable, delay)
    ensures LosesBatch(record, c, opts) && Timetable([record], c, opts).Err?
  {
    FormattedReadsBack(600);
    TwoStopsAcceptable(c, record, early, late, "UP", Unreadable, delay);
    PlainStopReads(c[0], early, Unreadable, 600);
    assert DayUnreadAt(record.stops, true, 0);
    OneLost([record], 0, c, opts);
  }

  lemma OneLost(records: seq<Record>, i: nat, c: Corridor, opts: Options)
    requires i < |records| && LosesBatch(records[i], c, opts)
    ensures Timetable(records, c, opts).Err?
  {
    TimetableLostExactly(records, c, opts);
  }
}
