/**
 A corridor's stations in order of chainage and the sections between them.
 */
module Topology {
  import opened Wrappers

  /** A corridor has at least two stations and no two alike. */
  type Corridor = c: seq<string> | |c| >= 2 && Distinct(c) witness ["A", "B"]

  predicate Distinct(c: seq<string>) { forall i, j :: 0 <= i < j < |c| ==> c[i] != c[j] }

  datatype TopologyError = UnknownStation | NotASpan

  /** The spelling of a section: its two stations, lower chainage first. */
  function FormatSectionId(low: string, high: string): string { low + "-" + high }

  function IndexOf(c: Corridor, station: string): (r: Result<nat, TopologyError>)
    ensures r.Ok? ==> r.value < |c| && c[r.value] == station
    ensures r.Err? <==> station !in c
  {
    if station in c then
      var i :| 0 <= i < |c| && c[i] == station;
      Ok(i)
    else Err(UnknownStation)
  }

  lemma IndexOfStation(c: Corridor, i: nat)
    requires i < |c|
    ensures IndexOf(c, c[i]) == Ok(i)
  {
  }

  function SectionIdBetweenAdjacent(c: Corridor, first: string, second: string): Result<string, TopologyError> {
    var a, b := IndexOf(c, first), IndexOf(c, second);
    if a.Err? then Err(a.error)
    else if b.Err? then Err(b.error)
    else if a.value + 1 != b.value && b.value + 1 != a.value then Err(NotASpan)
    else if a.value < b.value then Ok(FormatSectionId(c[a.value], c[b.value]))
    else Ok(FormatSectionId(c[b.value], c[a.value]))
  }

  /** Neighbours name their section by the two of them, the lower chainage first, in either direction. */
  lemma NeighboursNameSection(c: Corridor, i: nat)
    requires i + 1 < |c|
    ensures SectionIdBetweenAdjacent(c, c[i], c[i + 1]) == Ok(c[i] + "-" + c[i + 1])
    ensures SectionIdBetweenAdjacent(c, c[i + 1], c[i]) == Ok(c[i] + "-" + c[i + 1])
    ensures AllSectionIds(c)[i] == c[i] + "-" + c[i + 1]
  {
    AdjacentSection(c, i);
  }

  function SectionAt(c: Corridor, i: nat): string
    requires i + 1 < |c|
  {
    FormatSectionId(c[i], c[i + 1])
  }

  /** Neighbours bound one section, the same one in either direction. */
  lemma AdjacentSection(c: Corridor, i: nat)
    requires i + 1 < |c|
    ensures SectionIdBetweenAdjacent(c, c[i], c[i + 1]) == Ok(SectionAt(c, i))
    ensures SectionIdBetweenAdjacent(c, c[i + 1], c[i]) == Ok(SectionAt(c, i))
  {
    IndexOfStation(c, i);
    IndexOfStation(c, i + 1);
  }

  /** The lower end of the k-th section crossed on the way from one index to another. */
  function Position(start: int, end: int, k: int): int { if start < end then start + k else start - 1 - k }

  /** The sections crossed from one index to another, in the order they are crossed. */
  function Crossed(c: Corridor, start: nat, end: nat): (r: seq<string>)
    requires start < |c| && end < |c|
    ensures |r| == if start <= end then end - start else start - end
  {
    seq(if start <= end then end - start else start - end,
        k requires 0 <= k < (if start <= end then end - start else start - end) => SectionAt(c, Position(start, end, k)))
  }

  /** Each of them is the section between the station passed and its next neighbour. */
  lemma CrossedByNeighbours(c: Corridor, start: nat, end: nat, k: nat)
    requires start < |c| && end < |c| && k < |Crossed(c, start, end)|
    ensures var at := if start < end then start + k else start - k;
            var next := if start < end then at + 1 else at - 1;
            Ok(Crossed(c, start, end)[k]) == SectionIdBetweenAdjacent(c, c[at], c[next])
  {
    AdjacentSection(c, Position(start, end, k));
  }

  function SectionsBetween(c: Corridor, from: string, to: string): Result<seq<string>, TopologyError> {
    var a, b := IndexOf(c, from), IndexOf(c, to);
    if a.Err? then Err(a.error)
    else if b.Err? then Err(b.error)
    else if a.value == b.value then Err(NotASpan)
    else Ok(Crossed(c, a.value, b.value))
  }

  function AllSectionIds(c: Corridor): (r: seq<string>)
    ensures |r| == |c| - 1
  {
    seq(|c| - 1, i requires 0 <= i < |c| - 1 => SectionAt(c, i))
  }

  /** Two stations bound a span exactly when both are on the corridor and they differ. */
  lemma SpanExactly(c: Corridor, from: string, to: string)
    ensures SectionsBetween(c, from, to).Ok? <==> from in c && to in c && from != to
    ensures SectionsBetween(c, from, to).Ok? ==> SectionsBetween(c, from, to).value != []
  {
  }

  lemma ThroughStation(c: Corridor, a: nat, b: nat, e: nat)
    requires a < |c| && e < |c| && (a <= b <= e || e <= b <= a)
    ensures Crossed(c, a, e) == Crossed(c, a, b) + Crossed(c, b, e)
  {
  }

  /** Passing through any station between, the sections to it and from it are the sections of the whole. */
  lemma SectionsThroughStation(c: Corridor, from: string, via: string, to: string)
    requires SectionsBetween(c, from, via).Ok? && SectionsBetween(c, via, to).Ok?
    requires var a, b, e := IndexOf(c, from).value, IndexOf(c, via).value, IndexOf(c, to).value; a < b < e || e < b < a
    ensures SectionsBetween(c, from, to).Ok?
    ensures SectionsBetween(c, from, to).value == SectionsBetween(c, from, via).value + SectionsBetween(c, via, to).value
  {
    ThroughStation(c, IndexOf(c, from).value, IndexOf(c, via).value, IndexOf(c, to).value);
  }

  function Reversed(s: seq<string>): seq<string> { seq(|s|, i requires 0 <= i < |s| => s[|s| - 1 - i]) }

  /** The opposite leg crosses the same sections in the opposite order. */
  lemma OppositeLeg(c: Corridor, from: string, to: string)
    ensures SectionsBetween(c, to, from).Ok? <==> SectionsBetween(c, from, to).Ok?
    ensures SectionsBetween(c, from, to).Ok? ==> SectionsBetween(c, to, from).value == Reversed(SectionsBetween(c, from, to).value)
  {
    if SectionsBetween(c, from, to).Ok? {
      OppositeCrossing(c, IndexOf(c, from).value, IndexOf(c, to).value);
    }
  }

  lemma OppositeCrossing(c: Corridor, a: nat, b: nat)
    requires a < |c| && b < |c|
    ensures Crossed(c, b, a) == Reversed(Crossed(c, a, b))
  {
  }

  /** The corridor's sections are those crossed from its first station to its last. */
  lemma WholeCorridor(c: Corridor)
    ensures SectionsBetween(c, c[0], c[|c| - 1]) == Ok(AllSectionIds(c))
  {
    IndexOfStation(c, 0);
    IndexOfStation(c, |c| - 1);
    WholeCrossing(c);
  }

  lemma WholeCrossing(c: Corridor)
    ensures Crossed(c, 0, |c| - 1) == AllSectionIds(c)
  {
  }

  /** No leg leaves the corridor. */
  lemma LegsStayOnCorridor(c: Corridor, from: string, to: string, section: string)
    requires SectionsBetween(c, from, to).Ok? && section in SectionsBetween(c, from, to).value
    ensures section in AllSectionIds(c)
  {
    CrossingStaysOnCorridor(c, IndexOf(c, from).value, IndexOf(c, to).value, section);
  }

  lemma CrossingStaysOnCorridor(c: Corridor, a: nat, b: nat, section: string)
    requires a < |c| && b < |c| && section in Crossed(c, a, b)
    ensures section in AllSectionIds(c)
  {
    var k :| 0 <= k < |Crossed(c, a, b)| && Crossed(c, a, b)[k] == section;
    assert section == AllSectionIds(c)[Position(a, b, k)];
  }
}
