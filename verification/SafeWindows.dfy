/**
 From timetable records to possession windows: which windows are derived, said
 of the records themselves.
 */
module SafeWindows {
  import opened Topology
  import opened TrainConversion
  import opened PossessionWindows
  import opened SnapshotWindows
  import opened Rejections
  import opened FailClosed

  // ------------------------------------------------------------------
  // Records that convert
  // ------------------------------------------------------------------

  /** The record converts to a train that blocks the key at the minute, buffer included. */
  predicate Passes(record: Record, c: Corridor, opts: Options, buffer: int, key: Key, minute: int) {
    Converted(record, c, opts).Ok? && Occupied(Converted(record, c, opts).value.traversals, buffer, key, minute)
  }

  /** The record converts to a train that uses the key from the horizon's start on. */
  predicate Comes(record: Record, c: Corridor, opts: Options, buffer: int, key: Key) {
    Converted(record, c, opts).Ok? && Used(Converted(record, c, opts).value.traversals, buffer, key)
  }

  predicate SomePasses(records: seq<Record>, c: Corridor, opts: Options, buffer: int, key: Key, minute: int) {
    exists k :: 0 <= k < |records| && Passes(records[k], c, opts, buffer, key, minute)
  }

  lemma OccupiedByRecord(records: seq<Record>, c: Corridor, opts: Options, buffer: int, key: Key, minute: int)
    requires Timetable(records, c, opts).Ok?
    ensures Occupied(Traversals(Timetable(records, c, opts).value.trains), buffer, key, minute) <==>
            SomePasses(records, c, opts, buffer, key, minute)
  {
    var entries := Entries(records, c, opts);
    var ts := Traversals(Sifted(entries).value.trains);
    if i :| 0 <= i < |ts| && Blocks(ts[i], buffer, key, minute) {
      SnapshotTraversals(entries, ts[i]);
      var k: nat :| TrainEntry(entries, k, ts[i]);
      var own := entries[k].outcome.value.traversals;
      var j :| 0 <= j < |own| && own[j] == ts[i];
      assert Occupied(own, buffer, key, minute);
      assert Passes(records[k], c, opts, buffer, key, minute);
    }
    if k :| 0 <= k < |records| && Passes(records[k], c, opts, buffer, key, minute) {
      var own := entries[k].outcome.value.traversals;
      var j :| 0 <= j < |own| && Blocks(own[j], buffer, key, minute);
      assert TrainEntry(entries, k, own[j]);
      SnapshotTraversals(entries, own[j]);
      var i :| 0 <= i < |ts| && ts[i] == own[j];
    }
  }

  lemma UsedByRecord(records: seq<Record>, c: Corridor, opts: Options, buffer: int, key: Key)
    requires Timetable(records, c, opts).Ok?
    ensures Used(Traversals(Timetable(records, c, opts).value.trains), buffer, key) <==>
            exists k :: 0 <= k < |records| && Comes(records[k], c, opts, buffer, key)
  {
    var entries := Entries(records, c, opts);
    var ts := Traversals(Sifted(entries).value.trains);
    if i :| 0 <= i < |ts| && Reaches(ts[i], buffer, key) {
      SnapshotTraversals(entries, ts[i]);
      var k: nat :| TrainEntry(entries, k, ts[i]);
      var own := entries[k].outcome.value.traversals;
      var j :| 0 <= j < |own| && own[j] == ts[i];
      assert Used(own, buffer, key);
      assert Comes(records[k], c, opts, buffer, key);
    }
    if k :| 0 <= k < |records| && Comes(records[k], c, opts, buffer, key) {
      var own := entries[k].outcome.value.traversals;
      var j :| 0 <= j < |own| && Reaches(own[j], buffer, key);
      assert TrainEntry(entries, k, own[j]);
      SnapshotTraversals(entries, own[j]);
      var i :| 0 <= i < |ts| && ts[i] == own[j];
    }
  }

  // ------------------------------------------------------------------
  // Records that do not
  // ------------------------------------------------------------------

  /** A route of at least two stations, each leg of which has sections. */
  predicate RoutePlain(record: Record, c: Corridor) {
    var route := DeclaredRoute(record);
    route.Some? && |route.value| >= 2 && forall k :: 0 <= k < |route.value| - 1 ==> GoodLeg(c, route.value, k)
  }

  /** Where the train may be: on the sections of its route's legs if the route is plain, else anywhere on the corridor. */
  predicate MayCross(record: Record, c: Corridor, s: string) {
    if RoutePlain(record, c)
    then exists k :: 0 <= k < |DeclaredRoute(record).value| - 1 && RouteLeg(c, DeclaredRoute(record).value, k, s)
    else s in AllSectionIds(c)
  }

  lemma RejectionIsRoute(record: Record, c: Corridor, s: string)
    ensures RouteEstablished(RejectionOf(record, c)) <==> RoutePlain(record, c)
    ensures RoutePlain(record, c) ==> (s in RejectionOf(record, c).affected <==> MayCross(record, c, s))
    ensures MayCross(record, c, s) ==> s in AllSectionIds(c)
  {
    var route := DeclaredRoute(record);
    if route.Some? && |route.value| >= 2 {
      RouteMembers(c, route.value, s);
      if RouteSectionIds(c, route.value).Ok? {
        SomeSection(c, route.value);
        if s in RouteSectionIds(c, route.value).value { RouteStaysOnCorridor(c, route.value, s); }
      }
    }
  }

  predicate Fails(record: Record, c: Corridor, opts: Options) { Converted(record, c, opts).Err? }

  predicate SomeMayCross(records: seq<Record>, c: Corridor, opts: Options, s: string) {
    exists k :: 0 <= k < |records| && Fails(records[k], c, opts) && MayCross(records[k], c, s)
  }

  /** What is withheld is where the records that fail may be. */
  lemma WithheldByRecord(records: seq<Record>, c: Corridor, opts: Options, s: string)
    requires Timetable(records, c, opts).Ok?
    ensures s in Withheld(Timetable(records, c, opts).value.rejections, c) <==> SomeMayCross(records, c, opts, s)
  {
    var entries := Entries(records, c, opts);
    var rs := Sifted(entries).value.rejections;
    WithheldSection(rs, c, s);
    forall k: nat, r | RejectedEntry(entries, k, r)
      ensures Fails(records[k], c, opts) && r == RejectionOf(records[k], c)
    {
    }
    if s in Withheld(rs, c) {
      var i :| 0 <= i < |rs| && if AllEstablished(rs) then s in rs[i].affected else !RouteEstablished(rs[i]);
      SnapshotRejections(entries, rs[i]);
      var k: nat :| RejectedEntry(entries, k, rs[i]);
      RejectionIsRoute(records[k], c, s);
      assert MayCross(records[k], c, s);
    }
    if k :| 0 <= k < |records| && Fails(records[k], c, opts) && MayCross(records[k], c, s) {
      RejectionIsRoute(records[k], c, s);
      assert RejectedEntry(entries, k, RejectionOf(records[k], c));
      SnapshotRejections(entries, RejectionOf(records[k], c));
      var i :| 0 <= i < |rs| && rs[i] == RejectionOf(records[k], c);
    }
  }

  // ------------------------------------------------------------------
  // Windows
  // ------------------------------------------------------------------

  /** A run of the horizon in which no record's train blocks the key, which cannot be extended, and which is long enough. */
  predicate FreeRun(records: seq<Record>, c: Corridor, opts: Options, buffer: int, key: Key, horizon: int, minimum: int, w: Interval) {
    && 0 <= w.start < w.end <= horizon
    && w.end - w.start >= minimum
    && (forall minute :: w.start <= minute < w.end ==> !SomePasses(records, c, opts, buffer, key, minute))
    && (w.start == 0 || SomePasses(records, c, opts, buffer, key, w.start - 1))
    && (w.end == horizon || SomePasses(records, c, opts, buffer, key, w.end))
  }

  lemma FreeRunIsTrainFree(records: seq<Record>, c: Corridor, opts: Options, buffer: int, key: Key, horizon: int, minimum: int, w: Interval)
    requires Timetable(records, c, opts).Ok?
    ensures TrainFree(Traversals(Timetable(records, c, opts).value.trains), buffer, key, horizon, minimum, w) <==>
            FreeRun(records, c, opts, buffer, key, horizon, minimum, w)
  {
    var ts := Traversals(Timetable(records, c, opts).value.trains);
    forall minute ensures Occupied(ts, buffer, key, minute) <==> SomePasses(records, c, opts, buffer, key, minute) {
      OccupiedByRecord(records, c, opts, buffer, key, minute);
    }
  }

  /**
   The windows derived from a converted timetable, said of its records: on a
   track and section that some convertible train uses and where no train that
   failed may be, exactly the maximal runs that are long enough and during which
   no convertible train is there, buffer included.
   */
  lemma WindowsFromRecords(records: seq<Record>, c: Corridor, opts: Options, horizon: int, buffer: int, minimum: int,
                           ws: seq<Window>, w: Window)
    requires Timetable(records, c, opts).Ok? && AllWindows(Timetable(records, c, opts).value, c, horizon, buffer, minimum, ws)
    ensures w in ws <==>
            && (exists k :: 0 <= k < |records| && Comes(records[k], c, opts, buffer, w.key))
            && !SomeMayCross(records, c, opts, w.key.section)
            && FreeRun(records, c, opts, buffer, w.key, horizon, minimum, w.span)
  {
    UsedByRecord(records, c, opts, buffer, w.key);
    WithheldByRecord(records, c, opts, w.key.section);
    FreeRunIsTrainFree(records, c, opts, buffer, w.key, horizon, minimum, w.span);
  }

  /** So no window holds a minute of any train: neither one that converts and blocks it, nor one that does not and may be there. */
  lemma NoWindowMeetsATrain(records: seq<Record>, c: Corridor, opts: Options, horizon: int, buffer: int, minimum: int,
                            ws: seq<Window>, w: Window, k: nat, minute: int)
    requires Timetable(records, c, opts).Ok? && AllWindows(Timetable(records, c, opts).value, c, horizon, buffer, minimum, ws)
    requires w in ws && w.span.start <= minute < w.span.end && k < |records|
    ensures match Converted(records[k], c, opts)
            case Ok(train) => forall t :: t in train.traversals ==> !Blocks(t, buffer, w.key, minute)
            case Err(_) => !MayCross(records[k], c, w.key.section)
  {
    WindowsFromRecords(records, c, opts, horizon, buffer, minimum, ws, w);
    assert !SomePasses(records, c, opts, buffer, w.key, minute);
    assert !Passes(records[k], c, opts, buffer, w.key, minute);
    if Fails(records[k], c, opts) {
      assert !MayCross(records[k], c, w.key.section);
    }
  }
}
