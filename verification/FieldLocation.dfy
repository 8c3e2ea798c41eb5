/**
 Field locations, given as offsets from one station toward another, and the
 section a job's declared stretch resolves to: two independent readings of the
 same corridor.
 */
module FieldLocation {
  import opened Wrappers
  import opened SectionRegistry

  datatype LocationError =
    | MissingStation
    | SameStation
    | NegativeOffset
    | EmptyStretch
    | NoSectionJoins
    | ParallelSectionsJoin
    | BeyondSection

  datatype Location = Location(
    sectionId: string, fromStation: string, towardStation: string, offsetStart: int, offsetEnd: int,
    sectionLength: int, distanceStart: int, distanceEnd: int)

  /** Offsets count from the first station toward the second, along the one section joining them. */
  function ConvertFieldLocation(r: Registry, from: string, toward: string, offsetStart: int, offsetEnd: int)
    : Result<Location, LocationError>
  {
    if from == "" || toward == "" then Err(MissingStation)
    else if from == toward then Err(SameStation)
    else if offsetStart < 0 then Err(NegativeOffset)
    else if offsetEnd <= offsetStart then Err(EmptyStretch)
    else
      var section := ResolveBetween(r, from, toward);
      if section.Err? then Err(if section.error.UnknownSection? then NoSectionJoins else ParallelSectionsJoin)
      else
        var s := section.value;
        var length := s.endAt - s.startAt;
        if offsetEnd > length then Err(BeyondSection)
        else if from == s.startStation then
          Ok(Location(s.id, from, toward, offsetStart, offsetEnd, length, s.startAt + offsetStart, s.startAt + offsetEnd))
        else
          Ok(Location(s.id, from, toward, offsetStart, offsetEnd, length, s.endAt - offsetEnd, s.endAt - offsetStart))
  }

  datatype ResourceError = StartUnresolved(start: ChainageError) | EndUnresolved(end: ChainageError) | CrossesBoundary

  datatype JobResource = JobResource(track: string, sectionId: string)

  /** Both ends of the stretch must lie in one section that the track serves. */
  function ResolveJobResource(r: Registry, track: string, distanceStart: int, distanceEnd: int): Result<JobResource, ResourceError> {
    var start := ResolveByChainage(r, distanceStart, Some(track));
    if start.Err? then Err(StartUnresolved(start.error))
    else
      var end := ResolveByChainage(r, distanceEnd, Some(track));
      if end.Err? then Err(EndUnresolved(end.error))
      else if start.value.id != end.value.id then Err(CrossesBoundary)
      else Ok(JobResource(track, start.value.id))
  }

  /** The offsets lie in the section and count from its first station, or back from its last. */
  predicate MeasuredFrom(s: Section, from: string, toward: string, offsetStart: int, offsetEnd: int, loc: Location) {
    || (from == s.startStation && toward == s.endStation
        && loc.distanceStart == s.startAt + offsetStart && loc.distanceEnd == s.startAt + offsetEnd)
    || (from == s.endStation && toward == s.startStation
        && loc.distanceStart == s.endAt - offsetEnd && loc.distanceEnd == s.endAt - offsetStart)
  }

  /**
   A converted stretch lies in its own section, is as long as its offsets say,
   starts before it ends, and is measured from the station it is said to be.
   */
  lemma ConvertedStretch(r: Registry, ss: seq<Section>, from: string, toward: string, offsetStart: int, offsetEnd: int) returns (i: nat)
    requires Indexes(r, ss) && Line(ss) && ConvertFieldLocation(r, from, toward, offsetStart, offsetEnd).Ok?
    ensures i < |ss|
    ensures var loc := ConvertFieldLocation(r, from, toward, offsetStart, offsetEnd).value;
            && loc.sectionId == ss[i].id
            && {from, toward} == PairOf(ss[i])
            && ss[i].startAt <= loc.distanceStart < loc.distanceEnd <= ss[i].endAt
            && loc.distanceEnd - loc.distanceStart == offsetEnd - offsetStart
            && MeasuredFrom(ss[i], from, toward, offsetStart, offsetEnd, loc)
  {
    PairNamesSection(r, ss, from, toward);
    i :| 0 <= i < |ss| && Joins({from, toward}, ss[i]);
    PairEnds(ss[i], from, toward);
  }

  lemma PairEnds(s: Section, from: string, toward: string)
    requires Joins({from, toward}, s) && from != toward && s.startStation != s.endStation
    ensures (from == s.startStation && toward == s.endStation) || (from == s.endStation && toward == s.startStation)
  {
    assert from in PairOf(s) && toward in PairOf(s) && s.startStation in {from, toward};
  }

  /** On a line a location is converted exactly when two different stations end one section and the offsets fit into it. */
  lemma ConvertsExactly(r: Registry, ss: seq<Section>, from: string, toward: string, offsetStart: int, offsetEnd: int)
    requires Indexes(r, ss) && Line(ss)
    ensures ConvertFieldLocation(r, from, toward, offsetStart, offsetEnd).Ok? <==>
            && from != toward
            && 0 <= offsetStart < offsetEnd
            && exists i :: 0 <= i < |ss| && Joins({from, toward}, ss[i]) && offsetEnd <= ss[i].endAt - ss[i].startAt
  {
    PairNamesSection(r, ss, from, toward);
    if from != toward {
      forall i | 0 <= i < |ss| && Joins({from, toward}, ss[i]) ensures from != "" && toward != "" {
        assert SectionProblem(ss[i]).None?;
        PairEnds(ss[i], from, toward);
      }
    }
  }

  /**
   On a corridor derived from stations, the two stations are neighbours and the
   stretch lies its offsets away from the first one, on the side of the second.
   */
  lemma MeasuredFromStation(r: Registry, stations: seq<Station>, tracks: seq<string>, from: string, toward: string,
                            offsetStart: int, offsetEnd: int) returns (k: nat, n: nat)
    requires |stations| >= 2 && DistinctIds(stations) && Registrable(Adjacent(stations, tracks))
    requires Indexes(r, Adjacent(stations, tracks)) && ConvertFieldLocation(r, from, toward, offsetStart, offsetEnd).Ok?
    ensures k < |stations| && n < |stations| && (n == k + 1 || k == n + 1)
    ensures stations[k].id == from && stations[n].id == toward
    ensures var loc := ConvertFieldLocation(r, from, toward, offsetStart, offsetEnd).value;
            if k < n then
              && loc.distanceStart == stations[k].at + offsetStart && loc.distanceEnd == stations[k].at + offsetEnd
              && loc.distanceEnd <= stations[n].at
            else
              && loc.distanceStart == stations[k].at - offsetEnd && loc.distanceEnd == stations[k].at - offsetStart
              && stations[n].at <= loc.distanceStart
  {
    var ss := Adjacent(stations, tracks);
    StationsMakeALine(stations, tracks);
    var i := ConvertedStretch(r, ss, from, toward, offsetStart, offsetEnd);
    k, n := NeighbourEnds(stations, tracks, ss, i, from, toward, offsetStart, offsetEnd,
                          ConvertFieldLocation(r, from, toward, offsetStart, offsetEnd).value);
  }

  lemma NeighbourEnds(stations: seq<Station>, tracks: seq<string>, ss: seq<Section>, i: nat, from: string, toward: string,
                      offsetStart: int, offsetEnd: int, loc: Location) returns (k: nat, n: nat)
    requires stations != [] && ss == Adjacent(stations, tracks) && i < |ss|
    requires MeasuredFrom(ss[i], from, toward, offsetStart, offsetEnd, loc)
    requires ss[i].startAt <= loc.distanceStart && loc.distanceEnd <= ss[i].endAt
    ensures k < |stations| && n < |stations| && (n == k + 1 || k == n + 1)
    ensures stations[k].id == from && stations[n].id == toward
    ensures if k < n then
              && loc.distanceStart == stations[k].at + offsetStart && loc.distanceEnd == stations[k].at + offsetEnd
              && loc.distanceEnd <= stations[n].at
            else
              && loc.distanceStart == stations[k].at - offsetEnd && loc.distanceEnd == stations[k].at - offsetStart
              && stations[n].at <= loc.distanceStart
  {
    var forward := from == ss[i].startStation && toward == ss[i].endStation && loc.distanceStart == ss[i].startAt + offsetStart
                   && loc.distanceEnd == ss[i].startAt + offsetEnd;
    k, n := if forward then i else i + 1, if forward then i + 1 else i;
  }

  /** The same stretch measured from the other station: each offset is the length less the other one. */
  lemma OppositeDirectionsAgree(r: Registry, ss: seq<Section>, from: string, toward: string, offsetStart: int, offsetEnd: int,
                                loc: Location, backStart: int, backEnd: int)
    requires Indexes(r, ss) && Line(ss) && ConvertFieldLocation(r, from, toward, offsetStart, offsetEnd) == Ok(loc)
    requires backStart == loc.sectionLength - offsetEnd && backEnd == loc.sectionLength - offsetStart
    ensures var back := ConvertFieldLocation(r, toward, from, backStart, backEnd);
            && back.Ok?
            && back.value.sectionId == loc.sectionId
            && back.value.distanceStart == loc.distanceStart
            && back.value.distanceEnd == loc.distanceEnd
  {
    PairNamesSection(r, ss, from, toward);
    assert {from, toward} == {toward, from};
    var i :| 0 <= i < |ss| && Joins({from, toward}, ss[i]);
    assert SectionProblem(ss[i]).None?;
    assert from in PairOf(ss[i]) && toward in PairOf(ss[i]);
  }

  /** The section a chainage inside a given section resolves to: itself, or the next one at its far station. */
  lemma IndexWithin(ss: seq<Section>, i: nat, at: int)
    requires Line(ss) && i < |ss| && ss[i].startAt <= at <= ss[i].endAt
    ensures ss[0].startAt <= at <= ss[|ss| - 1].endAt
    ensures SectionIndex(ss, at) == if at < ss[i].endAt || i == |ss| - 1 then i else i + 1
  {
    if i > 0 { LineOrder(ss, 0, i); }
    if i < |ss| - 1 { LineOrder(ss, i, |ss| - 1); }
    assert SectionProblem(ss[0]).None? && SectionProblem(ss[|ss| - 1]).None?;
    var j := SectionIndex(ss, at);
    assert SectionProblem(ss[i]).None? && SectionProblem(ss[j]).None?;
    if j < i {
      LineOrder(ss, j, i);
    } else if i < j {
      assert SectionProblem(ss[i + 1]).None? && Touching(ss, i);
      if i + 1 < j {
        LineOrder(ss, i + 1, j);
      }
    }
  }

  /**
   The two readings agree exactly when the stretch ends before the far station,
   or the section is the corridor's last: on a track the section's stretch is
   served by, resolution returns the converter's own section then and refuses
   the stretch otherwise.
   */
  lemma ConverterAndResolverAgree(r: Registry, ss: seq<Section>, track: string, from: string, toward: string,
                                  offsetStart: int, offsetEnd: int) returns (i: nat)
    requires Indexes(r, ss) && Line(ss) && ConvertFieldLocation(r, from, toward, offsetStart, offsetEnd).Ok?
    requires forall k :: 0 <= k < |ss| ==> track in ss[k].tracks
    ensures i < |ss| && ConvertFieldLocation(r, from, toward, offsetStart, offsetEnd).value.sectionId == ss[i].id
    ensures var loc := ConvertFieldLocation(r, from, toward, offsetStart, offsetEnd).value;
            ResolveJobResource(r, track, loc.distanceStart, loc.distanceEnd) ==
            if loc.distanceEnd < ss[i].endAt || i == |ss| - 1 then Ok(JobResource(track, loc.sectionId)) else Err(CrossesBoundary)
  {
    var loc := ConvertFieldLocation(r, from, toward, offsetStart, offsetEnd).value;
    i := ConvertedStretch(r, ss, from, toward, offsetStart, offsetEnd);
    StretchResolves(r, ss, track, i, loc.distanceStart, loc.distanceEnd);
  }

  lemma StretchResolves(r: Registry, ss: seq<Section>, track: string, i: nat, start: int, end: int)
    requires r.sections == ss && Line(ss) && i < |ss| && ss[i].startAt <= start < end <= ss[i].endAt
    requires forall k :: 0 <= k < |ss| ==> track in ss[k].tracks
    ensures ResolveJobResource(r, track, start, end) ==
            if end < ss[i].endAt || i == |ss| - 1 then Ok(JobResource(track, ss[i].id)) else Err(CrossesBoundary)
  {
    IndexWithin(ss, i, start);
    IndexWithin(ss, i, end);
    ChainageIsTotalAndUnique(r, start, Some(track));
    ChainageIsTotalAndUnique(r, end, Some(track));
  }

  /** A stretch on a track that does not serve its section is refused, wherever it lies in the section. */
  lemma UnservedTrackRefused(r: Registry, ss: seq<Section>, track: string, i: nat, start: int, end: int)
    requires r.sections == ss && Line(ss) && i < |ss| && ss[i].startAt <= start < end <= ss[i].endAt
    requires track !in ss[i].tracks
    ensures ResolveJobResource(r, track, start, end) == Err(StartUnresolved(TrackNotServed))
  {
    IndexWithin(ss, i, start);
    ChainageIsTotalAndUnique(r, start, Some(track));
  }
}
