/**
 The registry of a corridor's sections: derived from its stations, looked up by
 station pair or by chainage. Chainages are whole millimetres.
 */
module SectionRegistry {
  import opened Wrappers
  import opened Topology

  datatype Station = Station(id: string, at: int)

  datatype Section = Section(id: string, startStation: string, endStation: string, startAt: int, endAt: int, tracks: seq<string>)

  datatype RegistryError =
    | TooFewStations
    | DuplicateStation
    | MissingSectionId
    | MissingEndpoint
    | SameEndpoints
    | EmptySpan
    | DuplicateSection

  /** Sections in the order they were registered, and by the pair of stations they join. */
  datatype Registry = Registry(sections: seq<Section>, byPair: map<set<string>, seq<Section>>)

  datatype LookupError = UnknownSection | ParallelSections

  datatype ChainageError = NoSections | OutsideCorridor | NoSectionThere | TrackNotServed | Ambiguous

  // ------------------------------------------------------------------
  // Registration
  // ------------------------------------------------------------------

  function SectionProblem(s: Section): Option<RegistryError> {
    if s.id == "" then Some(MissingSectionId)
    else if s.startStation == "" || s.endStation == "" then Some(MissingEndpoint)
    else if s.startStation == s.endStation then Some(SameEndpoints)
    else if s.startAt >= s.endAt then Some(EmptySpan)
    else None
  }

  function PairOf(s: Section): set<string> { {s.startStation, s.endStation} }

  function Filtered(ss: seq<Section>, p: Section -> bool): seq<Section> {
    if ss == [] then [] else Filtered(ss[..|ss| - 1], p) + (if p(ss[|ss| - 1]) then [ss[|ss| - 1]] else [])
  }

  predicate Joins(pair: set<string>, s: Section) { PairOf(s) == pair }

  /** What may be registered together: every section in itself, and no identifier twice. */
  predicate Registrable(ss: seq<Section>) {
    && (forall i :: 0 <= i < |ss| ==> SectionProblem(ss[i]).None?)
    && (forall i, j :: 0 <= i < j < |ss| ==> ss[i].id != ss[j].id)
  }

  /** A section is valid exactly if it is named, joins two different named stations, and has a length. */
  lemma ValidExactly(s: Section)
    ensures SectionProblem(s).None? <==>
            s.id != "" && s.startStation != "" && s.endStation != "" && s.startStation != s.endStation && s.startAt < s.endAt
  {
  }

  /** All sections, and each pair's sections in registration order. */
  ghost predicate Indexes(r: Registry, ss: seq<Section>) {
    && r.sections == ss
    && (forall p :: p in r.byPair ==> r.byPair[p] == Filtered(ss, s => Joins(p, s)) && r.byPair[p] != [])
    && (forall p :: p !in r.byPair ==> Filtered(ss, s => Joins(p, s)) == [])
  }

  lemma IndexOne(r: Registry, ss: seq<Section>, s: Section)
    requires Indexes(r, ss)
    ensures var pair := PairOf(s);
            Indexes(Registry(r.sections + [s], r.byPair[pair := (if pair in r.byPair then r.byPair[pair] else []) + [s]]), ss + [s])
  {
    assert (ss + [s])[..|ss|] == ss;
  }

  method Register(ss: seq<Section>) returns (r: Result<Registry, RegistryError>)
    ensures r.Ok? <==> Registrable(ss)
    ensures r.Ok? ==> Indexes(r.value, ss)
  {
    var registry := Registry([], map[]);
    for i := 0 to |ss|
      invariant Registrable(ss[..i]) && Indexes(registry, ss[..i])
    {
      var section := ss[i];
      var problem := SectionProblem(section);
      if problem.Some? {
        return Err(problem.value);
      }
      if exists k :: 0 <= k < |registry.sections| && registry.sections[k].id == section.id {
        return Err(DuplicateSection);
      }
      assert ss[..i + 1] == ss[..i] + [section];
      IndexOne(registry, ss[..i], section);
      var pair := PairOf(section);
      registry := Registry(registry.sections + [section],
                           registry.byPair[pair := (if pair in registry.byPair then registry.byPair[pair] else []) + [section]]);
    }
    assert ss[..|ss|] == ss;
    return Ok(registry);
  }

  // ------------------------------------------------------------------
  // From stations
  // ------------------------------------------------------------------

  predicate ByChainage(ss: seq<Station>) { forall i, j :: 0 <= i <= j < |ss| ==> ss[i].at <= ss[j].at }

  /** Behind every station that is not farther: equal chainages keep their order. */
  function Placed(ss: seq<Station>, x: Station): (r: seq<Station>)
    requires ByChainage(ss)
    ensures ByChainage(r) && multiset(r) == multiset(ss) + multiset{x}
  {
    if ss == [] || ss[|ss| - 1].at <= x.at then ss + [x]
    else
      assert ss == ss[..|ss| - 1] + [ss[|ss| - 1]];
      var front := Placed(ss[..|ss| - 1], x);
      NotFarther(ss, x, front);
      front + [ss[|ss| - 1]]
  }

  lemma NotFarther(ss: seq<Station>, x: Station, front: seq<Station>)
    requires ss != [] && ByChainage(ss) && x.at < ss[|ss| - 1].at && multiset(front) == multiset(ss[..|ss| - 1]) + multiset{x}
    ensures forall k :: 0 <= k < |front| ==> front[k].at <= ss[|ss| - 1].at
  {
    forall k | 0 <= k < |front| ensures front[k].at <= ss[|ss| - 1].at {
      assert front[k] in multiset(front);
      if front[k] != x {
        assert front[k] in ss[..|ss| - 1];
      }
    }
  }

  function Ordered(ss: seq<Station>): (r: seq<Station>)
    ensures ByChainage(r) && multiset(r) == multiset(ss)
  {
    if ss == [] then []
    else
      assert ss == ss[..|ss| - 1] + [ss[|ss| - 1]];
      Placed(Ordered(ss[..|ss| - 1]), ss[|ss| - 1])
  }

  function Between(a: Station, b: Station, tracks: seq<string>): Section {
    Section(FormatSectionId(a.id, b.id), a.id, b.id, a.at, b.at, tracks)
  }

  /** One section per pair of neighbours. */
  function Adjacent(ordered: seq<Station>, tracks: seq<string>): (r: seq<Section>)
    requires ordered != []
    ensures |r| == |ordered| - 1
  {
    seq(|ordered| - 1, i requires 0 <= i < |ordered| - 1 => Between(ordered[i], ordered[i + 1], tracks))
  }

  /** The section of two neighbours: named by both, from the lower chainage to the higher, on all the tracks. */
  lemma SectionOfNeighbours(ordered: seq<Station>, tracks: seq<string>, i: nat)
    requires i + 1 < |ordered|
    ensures Adjacent(ordered, tracks)[i] ==
            Section(ordered[i].id + "-" + ordered[i + 1].id, ordered[i].id, ordered[i + 1].id, ordered[i].at, ordered[i + 1].at, tracks)
  {
  }

  predicate DistinctIds(ss: seq<Station>) { forall i, j :: 0 <= i < j < |ss| ==> ss[i].id != ss[j].id }

  method FromStations(stations: seq<Station>, tracks: seq<string>) returns (r: Result<Registry, RegistryError>)
    ensures r.Ok? <==>
            && |stations| >= 2
            && DistinctIds(Ordered(stations))
            && Ordered(stations) != []
            && Registrable(Adjacent(Ordered(stations), tracks))
    ensures r.Ok? ==> Indexes(r.value, Adjacent(Ordered(stations), tracks))
  {
    if |stations| < 2 {
      return Err(TooFewStations);
    }
    var ordered := Ordered(stations);
    assert |multiset(ordered)| == |multiset(stations)|;
    if !DistinctIds(ordered) {
      return Err(DuplicateStation);
    }
    r := Register(Adjacent(ordered, tracks));
  }

  // ------------------------------------------------------------------
  // Lookup
  // ------------------------------------------------------------------

  /** The one section joining two stations, in either order. */
  function ResolveBetween(r: Registry, first: string, second: string): Result<Section, LookupError> {
    var matches := if {first, second} in r.byPair then r.byPair[{first, second}] else [];
    if matches == [] then Err(UnknownSection)
    else if |matches| > 1 then Err(ParallelSections)
    else Ok(matches[0])
  }

  function MinStart(ss: seq<Section>): int
    requires ss != []
  {
    var last := ss[|ss| - 1].startAt;
    if |ss| == 1 then last
    else
      var rest := MinStart(ss[..|ss| - 1]);
      if last < rest then last else rest
  }

  function MaxEnd(ss: seq<Section>): int
    requires ss != []
  {
    var last := ss[|ss| - 1].endAt;
    if |ss| == 1 then last
    else
      var rest := MaxEnd(ss[..|ss| - 1]);
      if last > rest then last else rest
  }

  predicate Holds(at: int, s: Section) { s.startAt <= at < s.endAt }
  predicate EndsThere(at: int, s: Section) { s.endAt == at }
  predicate Serves(track: string, s: Section) { track in s.tracks }

  function Geographic(ss: seq<Section>, at: int): seq<Section>
    requires ss != []
  {
    var inside := Filtered(ss, s => Holds(at, s));
    if inside == [] && at == MaxEnd(ss) then Filtered(ss, s => EndsThere(at, s)) else inside
  }

  /** A half-open section per chainage; the far end of the corridor belongs to whatever ends there. */
  function ResolveByChainage(r: Registry, at: int, track: Option<string>): Result<Section, ChainageError> {
    if r.sections == [] then Err(NoSections)
    else if at < MinStart(r.sections) || at > MaxEnd(r.sections) then Err(OutsideCorridor)
    else
      var geographic := Geographic(r.sections, at);
      if geographic == [] then Err(NoSectionThere)
      else
        var candidates := if track.None? then geographic else Filtered(geographic, s => Serves(track.value, s));
        if candidates == [] then Err(TrackNotServed)
        else if |candidates| > 1 then Err(Ambiguous)
        else Ok(candidates[0])
  }

  // ------------------------------------------------------------------
  // A registry derived from stations
  // ------------------------------------------------------------------

  predicate Touching(ss: seq<Section>, i: nat)
    requires i + 1 < |ss|
  {
    ss[i].endAt == ss[i + 1].startAt
  }

  /** Non-empty sections end to end, every station on at most two of them. */
  predicate Line(ss: seq<Section>) {
    && ss != []
    && Registrable(ss)
    && EndToEnd(ss)
    && NoPairTwice(ss)
  }

  predicate EndToEnd(ss: seq<Section>) { forall i :: 0 <= i < |ss| - 1 ==> Touching(ss, i) }

  predicate NoPairTwice(ss: seq<Section>) { forall i, j :: 0 <= i < j < |ss| ==> PairOf(ss[i]) != PairOf(ss[j]) }

  lemma NeighboursTouch(ordered: seq<Station>, tracks: seq<string>)
    requires ordered != []
    ensures EndToEnd(Adjacent(ordered, tracks))
  {
  }

  lemma NoParallels(ordered: seq<Station>, tracks: seq<string>)
    requires ordered != [] && DistinctIds(ordered)
    ensures NoPairTwice(Adjacent(ordered, tracks))
  {
    var ss := Adjacent(ordered, tracks);
    forall i, j | 0 <= i < j < |ss| ensures PairOf(ss[i]) != PairOf(ss[j]) {
      OrderedPairsDiffer(ordered, tracks, i, j);
    }
  }

  lemma OrderedPairsDiffer(ordered: seq<Station>, tracks: seq<string>, i: nat, j: nat)
    requires DistinctIds(ordered) && i < j < |ordered| - 1
    ensures PairOf(Adjacent(ordered, tracks)[i]) != PairOf(Adjacent(ordered, tracks)[j])
  {
    var s, t := Adjacent(ordered, tracks)[i], Adjacent(ordered, tracks)[j];
    assert s.startStation == ordered[i].id && t.startStation == ordered[j].id && t.endStation == ordered[j + 1].id;
    PairsDiffer(s, t);
  }

  /** What derivation from stations produces is a line. */
  lemma StationsMakeALine(ordered: seq<Station>, tracks: seq<string>)
    requires |ordered| >= 2 && DistinctIds(ordered) && Registrable(Adjacent(ordered, tracks))
    ensures Line(Adjacent(ordered, tracks))
  {
    NeighboursTouch(ordered, tracks);
    NoParallels(ordered, tracks);
  }

  lemma PairsDiffer(s: Section, t: Section)
    requires s.startStation != t.startStation && s.startStation != t.endStation
    ensures PairOf(s) != PairOf(t)
  {
    assert s.startStation in PairOf(s) && s.startStation !in PairOf(t);
  }

  lemma {:induction false} LineOrder(ss: seq<Section>, i: nat, j: nat)
    requires Line(ss) && i < j < |ss|
    ensures ss[i].endAt <= ss[j].startAt
  {
    assert Touching(ss, j - 1);
    if i < j - 1 { LineOrder(ss, i, j - 1); }
  }

  lemma LinePrefix(ss: seq<Section>)
    requires Line(ss) && |ss| > 1
    ensures Line(ss[..|ss| - 1])
  {
    var front := ss[..|ss| - 1];
    forall i | 0 <= i < |front| - 1 ensures Touching(front, i) { assert Touching(ss, i); }
  }

  lemma {:induction false} LineSpan(ss: seq<Section>)
    requires Line(ss)
    ensures MinStart(ss) == ss[0].startAt && MaxEnd(ss) == ss[|ss| - 1].endAt && MinStart(ss) < MaxEnd(ss)
  {
    if |ss| > 1 {
      LinePrefix(ss);
      LineSpan(ss[..|ss| - 1]);
      assert Touching(ss, |ss| - 2);
    }
  }

  lemma {:induction false} FilteredNone(ss: seq<Section>, p: Section -> bool)
    requires forall i :: 0 <= i < |ss| ==> !p(ss[i])
    ensures Filtered(ss, p) == []
  {
    if ss != [] { FilteredNone(ss[..|ss| - 1], p); }
  }

  lemma {:induction false} FilteredOne(ss: seq<Section>, p: Section -> bool, i: nat)
    requires i < |ss| && p(ss[i]) && forall k :: 0 <= k < |ss| && k != i ==> !p(ss[k])
    ensures Filtered(ss, p) == [ss[i]]
  {
    if i == |ss| - 1 {
      FilteredNone(ss[..|ss| - 1], p);
    } else {
      FilteredOne(ss[..|ss| - 1], p, i);
    }
  }

  /** The section of a line that a chainage of its span belongs to. */
  function SectionIndex(ss: seq<Section>, at: int): (i: nat)
    requires Line(ss) && ss[0].startAt <= at <= ss[|ss| - 1].endAt
    ensures i < |ss| && ss[i].startAt <= at && (at < ss[i].endAt || (i == |ss| - 1 && at == ss[i].endAt))
  {
    if at >= ss[|ss| - 1].startAt then |ss| - 1
    else
      LinePrefix(ss);
      assert Touching(ss, |ss| - 2);
      SectionIndex(ss[..|ss| - 1], at)
  }

  lemma OnlyHolder(ss: seq<Section>, at: int, i: nat)
    requires Line(ss) && i < |ss| && Holds(at, ss[i])
    ensures forall k :: 0 <= k < |ss| && k != i ==> !Holds(at, ss[k])
  {
    forall k | 0 <= k < |ss| && k != i ensures !Holds(at, ss[k]) {
      if k < i { LineOrder(ss, k, i); } else { LineOrder(ss, i, k); }
    }
  }

  lemma FarEnd(ss: seq<Section>)
    requires Line(ss)
    ensures Filtered(ss, s => Holds(ss[|ss| - 1].endAt, s)) == []
    ensures Filtered(ss, s => EndsThere(ss[|ss| - 1].endAt, s)) == [ss[|ss| - 1]]
  {
    var n := |ss| - 1;
    forall k | 0 <= k < n ensures ss[k].endAt < ss[n].endAt { EndsEarlier(ss, k); }
    EndsLast(ss, ss[n].endAt);
  }

  lemma EndsEarlier(ss: seq<Section>, k: nat)
    requires Line(ss) && k < |ss| - 1
    ensures ss[k].endAt < ss[|ss| - 1].endAt
  {
    LineOrder(ss, k, |ss| - 1);
    assert SectionProblem(ss[|ss| - 1]).None?;
  }

  lemma EndsLast(ss: seq<Section>, at: int)
    requires ss != [] && at == ss[|ss| - 1].endAt && forall k :: 0 <= k < |ss| - 1 ==> ss[k].endAt < at
    ensures Filtered(ss, s => Holds(at, s)) == []
    ensures Filtered(ss, s => EndsThere(at, s)) == [ss[|ss| - 1]]
  {
    FilteredNone(ss, s => Holds(at, s));
    FilteredOne(ss, s => EndsThere(at, s), |ss| - 1);
  }

  lemma GeographicIs(ss: seq<Section>, at: int)
    requires Line(ss) && ss[0].startAt <= at <= ss[|ss| - 1].endAt
    ensures Geographic(ss, at) == [ss[SectionIndex(ss, at)]]
  {
    LineSpan(ss);
    var i := SectionIndex(ss, at);
    if Holds(at, ss[i]) {
      OnlyHolder(ss, at, i);
      FilteredOne(ss, s => Holds(at, s), i);
    } else {
      FarEnd(ss);
    }
  }

  /** On a line, every chainage of the span has exactly one section, and no other chainage has any. */
  lemma ChainageIsTotalAndUnique(r: Registry, at: int, track: Option<string>)
    requires Line(r.sections)
    ensures var ss := r.sections;
            if at < ss[0].startAt || at > ss[|ss| - 1].endAt then ResolveByChainage(r, at, track) == Err(OutsideCorridor)
            else
              var s := ss[SectionIndex(ss, at)];
              ResolveByChainage(r, at, track) ==
              if track.None? || track.value in s.tracks then Ok(s) else Err(TrackNotServed)
  {
    var ss := r.sections;
    LineSpan(ss);
    if ss[0].startAt <= at <= ss[|ss| - 1].endAt {
      GeographicIs(ss, at);
      var s := ss[SectionIndex(ss, at)];
      if track.Some? {
        if Serves(track.value, s) {
          FilteredOne([s], x => Serves(track.value, x), 0);
        } else {
          FilteredNone([s], x => Serves(track.value, x));
        }
      }
    }
  }

  /** On a line, two stations name a section exactly when they are the two ends of one. */
  lemma PairNamesSection(r: Registry, ss: seq<Section>, first: string, second: string)
    requires Indexes(r, ss) && Line(ss)
    ensures ResolveBetween(r, first, second).Ok? <==> exists i :: 0 <= i < |ss| && Joins({first, second}, ss[i])
    ensures forall i :: 0 <= i < |ss| && Joins({first, second}, ss[i]) ==> ResolveBetween(r, first, second) == Ok(ss[i])
  {
    var p := {first, second};
    if i :| 0 <= i < |ss| && Joins(p, ss[i]) {
      FilteredOne(ss, s => Joins(p, s), i);
      assert p in r.byPair && r.byPair[p] == [ss[i]];
    } else {
      FilteredNone(ss, s => Joins(p, s));
    }
  }
}
