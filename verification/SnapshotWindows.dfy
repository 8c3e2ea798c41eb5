/**
 Possession windows for a whole snapshot: who occupies which section when, which
 sections rejected trains withhold, and the windows that remain.
 */
module SnapshotWindows {
  import opened Wrappers
  import opened Topology
  import opened TrainConversion
  import opened PossessionWindows

  /** A track on a section: the resource that is occupied. */
  datatype Key = Key(track: string, section: string)

  datatype Rejection = Rejection(number: string, affected: seq<string>, routeKnown: bool)

  datatype Snapshot = Snapshot(trains: seq<Train>, rejections: seq<Rejection>)

  datatype Window = Window(key: Key, span: Interval)

  datatype WindowError = NonPositiveHorizon | NonPositiveMinimum | NegativeBuffer

  // ------------------------------------------------------------------
  // Alphabetical order
  // ------------------------------------------------------------------

  predicate TextLeq(a: string, b: string)
    decreases |a|
  {
    a == [] || (b != [] && (a[0] < b[0] || (a[0] == b[0] && TextLeq(a[1..], b[1..]))))
  }

  lemma {:induction false} TextTotal(a: string, b: string)
    ensures TextLeq(a, b) || TextLeq(b, a)
    ensures TextLeq(a, b) && TextLeq(b, a) ==> a == b
    decreases |a|
  {
    if a != [] && b != [] {
      TextTotal(a[1..], b[1..]);
      assert a == [a[0]] + a[1..] && b == [b[0]] + b[1..];
    }
  }

  lemma {:induction false} TextTransitive(a: string, b: string, c: string)
    requires TextLeq(a, b) && TextLeq(b, c)
    ensures TextLeq(a, c)
    decreases |a|
  {
    if a != [] && a[0] == b[0] && b[0] == c[0] {
      TextTransitive(a[1..], b[1..], c[1..]);
    }
  }

  /** The two texts agree up to a character in which the first is smaller. */
  predicate SmallerAt(a: string, b: string, k: nat) { k < |a| && k < |b| && a[..k] == b[..k] && a[k] < b[k] }

  /** This is the order of a dictionary: a prefix comes first, and otherwise the first difference decides. */
  lemma {:induction false} TextOrderExactly(a: string, b: string)
    ensures TextLeq(a, b) <==> a <= b || exists k: nat :: SmallerAt(a, b, k)
    decreases |a|
  {
    if a != [] && b != [] && a[0] == b[0] {
      TextOrderExactly(a[1..], b[1..]);
      assert a == [a[0]] + a[1..] && b == [b[0]] + b[1..];
      if k: nat :| SmallerAt(a[1..], b[1..], k) {
        assert a[..k + 1] == [a[0]] + a[1..][..k] && b[..k + 1] == [b[0]] + b[1..][..k];
        assert SmallerAt(a, b, k + 1);
      }
      if k: nat :| SmallerAt(a, b, k) {
        assert a[1..][..k - 1] == a[..k][1..] && b[1..][..k - 1] == b[..k][1..];
        assert SmallerAt(a[1..], b[1..], k - 1);
      }
    } else if a != [] && b != [] {
      if a[0] < b[0] { assert SmallerAt(a, b, 0); }
      if k: nat :| SmallerAt(a, b, k) { assert k > 0 ==> a[..k][0] == b[..k][0]; }
    }
  }

  predicate KeyLeq(a: Key, b: Key) {
    if a.track == b.track then TextLeq(a.section, b.section) else TextLeq(a.track, b.track)
  }

  /** Track first, then section. */
  lemma KeyOrderExactly(a: Key, b: Key)
    ensures KeyLess(a, b) <==>
            || (a.track != b.track && TextLeq(a.track, b.track))
            || (a.track == b.track && a.section != b.section && TextLeq(a.section, b.section))
  {
  }

  lemma KeyOrder(a: Key, b: Key, c: Key)
    ensures KeyLeq(a, b) || KeyLeq(b, a)
    ensures KeyLeq(a, b) && KeyLeq(b, a) ==> a == b
    ensures KeyLeq(a, b) && KeyLeq(b, c) ==> KeyLeq(a, c)
  {
    TextTotal(a.track, b.track);
    TextTotal(b.track, c.track);
    TextTotal(a.section, b.section);
    if TextLeq(a.track, b.track) && TextLeq(b.track, c.track) {
      TextTransitive(a.track, b.track, c.track);
    }
    if TextLeq(a.section, b.section) && TextLeq(b.section, c.section) {
      TextTransitive(a.section, b.section, c.section);
    }
  }

  predicate KeyLess(a: Key, b: Key) { KeyLeq(a, b) && a != b }

  lemma {:induction false} LeastKey(keys: set<Key>) returns (least: Key)
    requires keys != {}
    ensures least in keys && forall k :: k in keys ==> KeyLeq(least, k)
    decreases |keys|
  {
    least :| least in keys;
    var first, others := least, keys - {least};
    KeyOrder(first, first, first);
    if others != {} {
      var other := LeastKey(others);
      KeyOrder(first, other, other);
      if !KeyLeq(first, other) {
        least := other;
      }
      forall k | k in keys ensures KeyLeq(least, k) {
        KeyOrder(least, other, k);
        assert k == first || k in others;
      }
    } else {
      assert keys == {first} + others;
    }
  }

  method SortKeys(keys: set<Key>) returns (r: seq<Key>)
    ensures forall k :: k in r <==> k in keys
    ensures forall i, j :: 0 <= i < j < |r| ==> KeyLess(r[i], r[j])
  {
    r := [];
    var rest := keys;
    while rest != {}
      invariant forall k :: k in keys <==> k in r || k in rest
      invariant rest <= keys
      invariant forall i, j :: 0 <= i < j < |r| ==> KeyLess(r[i], r[j])
      invariant forall i, k :: 0 <= i < |r| && k in rest ==> KeyLess(r[i], k)
      decreases |rest|
    {
      ghost var witnessed := LeastKey(rest);
      var least :| least in rest && forall k :: k in rest ==> KeyLeq(least, k);
      r := r + [least];
      rest := rest - {least};
    }
  }

  // ------------------------------------------------------------------
  // Occupation
  // ------------------------------------------------------------------

  function KeyOf(t: Traversal): Key { Key(t.track, t.section) }

  /** Every traversal of every train, in order. */
  function Traversals(trains: seq<Train>): seq<Traversal> {
    if trains == [] then [] else Traversals(trains[..|trains| - 1]) + trains[|trains| - 1].traversals
  }

  /** A traversal is entered before it is left; the type of traversals refuses any other. */
  predicate Forward(ts: seq<Traversal>) { forall i :: 0 <= i < |ts| ==> ts[i].enter < ts[i].exit }

  /** The minutes a traversal blocks, its safety buffer included on both sides. */
  predicate Blocks(t: Traversal, buffer: int, key: Key, minute: int) {
    KeyOf(t) == key && t.enter - buffer <= minute < t.exit + buffer
  }

  predicate Occupied(ts: seq<Traversal>, buffer: int, key: Key, minute: int) {
    exists i :: 0 <= i < |ts| && Blocks(ts[i], buffer, key, minute)
  }

  /** The key is blocked at some point of the horizon or after it. */
  predicate Reaches(t: Traversal, buffer: int, key: Key) { KeyOf(t) == key && t.exit + buffer > 0 }

  predicate Used(ts: seq<Traversal>, buffer: int, key: Key) { exists i :: 0 <= i < |ts| && Reaches(ts[i], buffer, key) }

  function Buffered(t: Traversal, buffer: int): Interval {
    Interval(if t.enter - buffer < 0 then 0 else t.enter - buffer, t.exit + buffer)
  }

  /** The intervals recorded for a key: clipped at the horizon's start, dropped if wholly before it. */
  function Kept(ts: seq<Traversal>, buffer: int, key: Key): seq<Interval> {
    if ts == [] then []
    else
      var last := ts[|ts| - 1];
      Kept(ts[..|ts| - 1], buffer, key) + (if Reaches(last, buffer, key) then [Buffered(last, buffer)] else [])
  }

  lemma {:induction false} KeptCovers(ts: seq<Traversal>, buffer: int, key: Key, minute: int)
    requires Forward(ts) && buffer >= 0
    ensures Covered(Kept(ts, buffer, key), minute) <==> minute >= 0 && Occupied(ts, buffer, key, minute)
  {
    if ts != [] {
      var front, last := ts[..|ts| - 1], ts[|ts| - 1];
      KeptCovers(front, buffer, key, minute);
      CoveredMore(Kept(front, buffer, key), Buffered(last, buffer));
      assert Kept(front, buffer, key) + [] == Kept(front, buffer, key);
      assert forall i :: 0 <= i < |front| ==> front[i] == ts[i];
      assert Occupied(ts, buffer, key, minute) <==> Occupied(front, buffer, key, minute) || Blocks(last, buffer, key, minute);
      assert minute >= 0 ==> (Blocks(last, buffer, key, minute) <==> Reaches(last, buffer, key) && Contains(Buffered(last, buffer), minute));
    }
  }

  lemma {:induction false} KeptFacts(ts: seq<Traversal>, buffer: int, key: Key)
    requires Forward(ts) && buffer >= 0
    ensures NonEmpty(Kept(ts, buffer, key))
    ensures Kept(ts, buffer, key) != [] <==> Used(ts, buffer, key)
  {
    if ts != [] {
      var front := ts[..|ts| - 1];
      KeptFacts(front, buffer, key);
      assert forall i :: 0 <= i < |front| ==> front[i] == ts[i];
    }
  }

  /** The dictionary of recorded intervals, each list in sorted order. */
  ghost predicate Records(d: map<Key, seq<Interval>>, ts: seq<Traversal>, buffer: int, sort: bool) {
    && (forall k :: k in d <==> Kept(ts, buffer, k) != [])
    && (forall k :: k in d ==> d[k] == if sort then Sorted(Kept(ts, buffer, k)) else Kept(ts, buffer, k))
  }

  lemma RecordOne(d: map<Key, seq<Interval>>, ts: seq<Traversal>, t: Traversal, buffer: int)
    requires Records(d, ts, buffer, false)
    ensures !(t.exit + buffer > 0) ==> Records(d, ts + [t], buffer, false)
    ensures t.exit + buffer > 0 ==>
              Records(d[KeyOf(t) := (if KeyOf(t) in d then d[KeyOf(t)] else []) + [Buffered(t, buffer)]], ts + [t], buffer, false)
  {
    assert (ts + [t])[..|ts|] == ts;
  }

  method OccupiedIntervalsBySection(trains: seq<Train>, buffer: int) returns (r: Result<map<Key, seq<Interval>>, WindowError>)
    ensures r.Err? <==> buffer < 0
    ensures r.Err? ==> r.error == NegativeBuffer
    ensures r.Ok? ==> Records(r.value, Traversals(trains), buffer, true)
  {
    if buffer < 0 {
      return Err(NegativeBuffer);
    }
    var bySection: map<Key, seq<Interval>> := map[];
    for i := 0 to |trains|
      invariant Records(bySection, Traversals(trains[..i]), buffer, false)
    {
      assert trains[..i + 1][..i] == trains[..i];
      var ts := trains[i].traversals;
      ghost var before := Traversals(trains[..i]);
      assert before + ts[..0] == before;
      for j := 0 to |ts|
        invariant Records(bySection, before + ts[..j], buffer, false)
      {
        RecordOne(bySection, before + ts[..j], ts[j], buffer);
        assert before + ts[..j] + [ts[j]] == before + ts[..j + 1];
        var end := ts[j].exit + buffer;
        if end > 0 {
          var start := if ts[j].enter - buffer < 0 then 0 else ts[j].enter - buffer;
          var key := KeyOf(ts[j]);
          bySection := bySection[key := (if key in bySection then bySection[key] else []) + [Interval(start, end)]];
        }
      }
      assert ts[..|ts|] == ts;
    }
    assert trains[..|trains|] == trains;
    return Ok(map k | k in bySection :: Sorted(bySection[k]));
  }

  // ------------------------------------------------------------------
  // Withheld sections
  // ------------------------------------------------------------------

  predicate RouteEstablished(r: Rejection) { r.routeKnown && r.affected != [] }

  /** What rejected trains withhold: the sections on their routes, or the whole corridor if one route is unknown. */
  function Withheld(rs: seq<Rejection>, c: Corridor): set<string> {
    if exists i :: 0 <= i < |rs| && !RouteEstablished(rs[i]) then set s | s in AllSectionIds(c)
    else set i, s | 0 <= i < |rs| && s in rs[i].affected :: s
  }

  method WithheldSectionIds(rs: seq<Rejection>, c: Corridor) returns (withheld: set<string>)
    ensures withheld == Withheld(rs, c)
  {
    withheld := {};
    for i := 0 to |rs|
      invariant forall k :: 0 <= k < i ==> RouteEstablished(rs[k])
      invariant withheld == set k, s | 0 <= k < i && s in rs[k].affected :: s
    {
      if !RouteEstablished(rs[i]) {
        return set s | s in AllSectionIds(c);
      }
      withheld := withheld + set s | s in rs[i].affected;
    }
  }

  // ------------------------------------------------------------------
  // Possession windows
  // ------------------------------------------------------------------

  predicate FreeThroughout(ts: seq<Traversal>, buffer: int, key: Key, a: int, b: int) {
    forall minute :: a <= minute < b ==> !Occupied(ts, buffer, key, minute)
  }

  /**
   What a possession window is, minute by minute: a run of the horizon no
   buffered traversal of that track and section touches, which cannot be
   extended, and which is long enough.
   */
  predicate TrainFree(ts: seq<Traversal>, buffer: int, key: Key, horizon: int, minimum: int, w: Interval) {
    && 0 <= w.start < w.end <= horizon
    && w.end - w.start >= minimum
    && FreeThroughout(ts, buffer, key, w.start, w.end)
    && (w.start == 0 || Occupied(ts, buffer, key, w.start - 1))
    && (w.end == horizon || Occupied(ts, buffer, key, w.end))
  }

  predicate IsWindow(snapshot: Snapshot, c: Corridor, horizon: int, buffer: int, minimum: int, w: Window) {
    && Used(Traversals(snapshot.trains), buffer, w.key)
    && w.key.section !in Withheld(snapshot.rejections, c)
    && TrainFree(Traversals(snapshot.trains), buffer, w.key, horizon, minimum, w.span)
  }

  /** Windows of one key are apart, and keys come in alphabetical order. */
  predicate InOrder(ws: seq<Window>) {
    forall i, j :: 0 <= i < j < |ws| ==>
                     KeyLess(ws[i].key, ws[j].key) || (ws[i].key == ws[j].key && ws[i].span.end < ws[j].span.start)
  }

  /** Exactly the windows of the snapshot, in order. */
  ghost predicate AllWindows(snapshot: Snapshot, c: Corridor, horizon: int, buffer: int, minimum: int, ws: seq<Window>) {
    InOrder(ws) && forall w :: w in ws <==> IsWindow(snapshot, c, horizon, buffer, minimum, w)
  }

  /** A gap in the recorded intervals of a key is a train-free run of it. */
  lemma GapIsTrainFree(ts: seq<Traversal>, buffer: int, key: Key, merged: seq<Interval>, horizon: int, minimum: int, w: Interval)
    requires Forward(ts) && buffer >= 0 && SameCover(merged, Kept(ts, buffer, key))
    ensures IsGap(merged, horizon, minimum, w) <==> TrainFree(ts, buffer, key, horizon, minimum, w)
  {
    forall minute ensures Covered(merged, minute) <==> minute >= 0 && Occupied(ts, buffer, key, minute) {
      KeptCovers(ts, buffer, key, minute);
    }
  }

  function Labelled(gaps: seq<Interval>, key: Key): (r: seq<Window>)
    ensures |r| == |gaps|
  {
    seq(|gaps|, i requires 0 <= i < |gaps| => Window(key, gaps[i]))
  }

  /** One key's windows, from its recorded intervals. */
  method WindowsOfKey(ghost ts: seq<Traversal>, buffer: int, key: Key, recorded: seq<Interval>, horizon: int, minimum: int)
    returns (ws: seq<Window>)
    requires Forward(ts) && buffer >= 0 && horizon > 0 && minimum > 0 && recorded == Sorted(Kept(ts, buffer, key))
    ensures InOrder(ws)
    ensures forall w :: w in ws <==> w.key == key && TrainFree(ts, buffer, key, horizon, minimum, w.span)
  {
    KeptFacts(ts, buffer, key);
    SortedCovers(Kept(ts, buffer, key));
    var merged := MergeIntervals(recorded);
    var gaps := SweepGaps(merged, horizon, minimum);
    ws := Labelled(gaps, key);
    forall w ensures w in ws <==> w.key == key && TrainFree(ts, buffer, key, horizon, minimum, w.span) {
      GapIsTrainFree(ts, buffer, key, merged, horizon, minimum, w.span);
      if w.key == key && w.span in gaps {
        var i :| 0 <= i < |gaps| && gaps[i] == w.span;
        assert ws[i] == w;
      }
    }
  }

  lemma InOrderConcat(a: seq<Window>, b: seq<Window>, key: Key)
    requires InOrder(a) && InOrder(b)
    requires forall w :: w in a ==> KeyLess(w.key, key)
    requires forall w :: w in b ==> w.key == key
    ensures InOrder(a + b)
  {
    var s := a + b;
    forall i, j | 0 <= i < j < |s|
      ensures KeyLess(s[i].key, s[j].key) || (s[i].key == s[j].key && s[i].span.end < s[j].span.start)
    {
      if i < |a| { assert s[i] in a; }
      if j >= |a| { assert s[j] in b; }
    }
  }

  predicate KeyDone(keys: seq<Key>, n: nat, withheld: set<string>, key: Key)
    requires n <= |keys|
  {
    key in keys[..n] && key.section !in withheld
  }

  /** The windows of the first n keys. */
  ghost predicate WindowsSoFar(ts: seq<Traversal>, buffer: int, horizon: int, minimum: int, keys: seq<Key>, n: nat,
                               withheld: set<string>, ws: seq<Window>)
    requires n <= |keys|
  {
    && InOrder(ws)
    && forall w :: w in ws <==> KeyDone(keys, n, withheld, w.key) && TrainFree(ts, buffer, w.key, horizon, minimum, w.span)
  }

  lemma OneMoreKey(ts: seq<Traversal>, buffer: int, horizon: int, minimum: int, keys: seq<Key>, n: nat,
                   withheld: set<string>, ws: seq<Window>, more: seq<Window>)
    requires n < |keys| && WindowsSoFar(ts, buffer, horizon, minimum, keys, n, withheld, ws)
    requires forall i, j :: 0 <= i < j < |keys| ==> KeyLess(keys[i], keys[j])
    requires InOrder(more)
    requires keys[n].section in withheld ==> more == []
    requires keys[n].section !in withheld ==>
               forall w :: w in more <==> w.key == keys[n] && TrainFree(ts, buffer, keys[n], horizon, minimum, w.span)
    ensures WindowsSoFar(ts, buffer, horizon, minimum, keys, n + 1, withheld, ws + more)
  {
    assert keys[..n + 1] == keys[..n] + [keys[n]];
    forall w | w in ws ensures KeyLess(w.key, keys[n]) {
      assert KeyDone(keys, n, withheld, w.key);
      var i :| 0 <= i < n && keys[..n][i] == w.key;
      assert keys[i] == w.key;
    }
    InOrderConcat(ws, more, keys[n]);
  }

  method DerivePossessionWindows(snapshot: Snapshot, c: Corridor, horizon: int, buffer: int, minimum: int)
    returns (r: Result<seq<Window>, WindowError>)
    requires Forward(Traversals(snapshot.trains))
    ensures r.Err? <==> horizon <= 0 || minimum <= 0 || buffer < 0
    ensures r.Ok? ==> AllWindows(snapshot, c, horizon, buffer, minimum, r.value)
  {
    if horizon <= 0 {
      return Err(NonPositiveHorizon);
    }
    if minimum <= 0 {
      return Err(NonPositiveMinimum);
    }
    var withheld := WithheldSectionIds(snapshot.rejections, c);
    var occupied := OccupiedIntervalsBySection(snapshot.trains, buffer);
    if occupied.Err? {
      return Err(occupied.error);
    }
    ghost var ts := Traversals(snapshot.trains);
    var keys := SortKeys(occupied.value.Keys);
    var windows: seq<Window> := [];
    for n := 0 to |keys|
      invariant WindowsSoFar(ts, buffer, horizon, minimum, keys, n, withheld, windows)
    {
      assert keys[n] in occupied.value;
      var more: seq<Window> := [];
      if keys[n].section !in withheld {
        more := WindowsOfKey(ts, buffer, keys[n], occupied.value[keys[n]], horizon, minimum);
      }
      OneMoreKey(ts, buffer, horizon, minimum, keys, n, withheld, windows, more);
      windows := windows + more;
    }
    SoFarIsAll(snapshot, c, horizon, buffer, minimum, keys, windows);
    return Ok(windows);
  }

  lemma SoFarIsAll(snapshot: Snapshot, c: Corridor, horizon: int, buffer: int, minimum: int, keys: seq<Key>, ws: seq<Window>)
    requires buffer >= 0 && Forward(Traversals(snapshot.trains))
    requires forall k :: k in keys <==> Kept(Traversals(snapshot.trains), buffer, k) != []
    requires WindowsSoFar(Traversals(snapshot.trains), buffer, horizon, minimum, keys, |keys|,
                          Withheld(snapshot.rejections, c), ws)
    ensures AllWindows(snapshot, c, horizon, buffer, minimum, ws)
  {
    assert keys[..|keys|] == keys;
    forall w ensures w in ws <==> IsWindow(snapshot, c, horizon, buffer, minimum, w) {
      KeptFacts(Traversals(snapshot.trains), buffer, w.key);
    }
  }

  /** There is only one list of a snapshot's windows. */
  lemma WindowsAreUnique(snapshot: Snapshot, c: Corridor, horizon: int, buffer: int, minimum: int, a: seq<Window>, b: seq<Window>)
    requires AllWindows(snapshot, c, horizon, buffer, minimum, a) && AllWindows(snapshot, c, horizon, buffer, minimum, b)
    ensures a == b
  {
    SameOrderedElements(a, b);
  }

  predicate Precedes(v: Window, w: Window) {
    KeyLess(v.key, w.key) || (v.key == w.key && v.span.end < w.span.start)
  }

  lemma PrecedesOneWay(v: Window, w: Window)
    requires v.span.start < v.span.end && w.span.start < w.span.end && Precedes(v, w)
    ensures !Precedes(w, v) && v != w
  {
    KeyOrder(v.key, w.key, w.key);
  }

  lemma SameFirst(a: seq<Window>, b: seq<Window>)
    requires a != [] && b != [] && InOrder(a) && InOrder(b) && forall w :: w in a <==> w in b
    requires forall w :: w in a ==> w.span.start < w.span.end
    ensures a[0] == b[0]
  {
    assert a[0] in b && b[0] in a;
    var j :| 0 <= j < |b| && b[j] == a[0];
    var i :| 0 <= i < |a| && a[i] == b[0];
    if i > 0 && j > 0 {
      assert Precedes(a[0], a[i]) && Precedes(b[0], b[j]);
      PrecedesOneWay(a[0], a[i]);
    }
  }

  lemma WithoutFirst(a: seq<Window>, w: Window)
    requires a != [] && InOrder(a) && forall v :: v in a ==> v.span.start < v.span.end
    ensures w in a[1..] <==> w in a && w != a[0]
  {
    if w in a[1..] {
      var i :| 0 <= i < |a[1..]| && a[1..][i] == w;
      assert Precedes(a[0], a[i + 1]) && a[i + 1] in a;
      PrecedesOneWay(a[0], a[i + 1]);
    }
  }

  lemma {:induction false} SameOrderedElements(a: seq<Window>, b: seq<Window>)
    requires InOrder(a) && InOrder(b) && forall w :: w in a <==> w in b
    requires forall w :: w in a ==> w.span.start < w.span.end
    ensures a == b
  {
    assert a != [] ==> a[0] in b;
    assert b != [] ==> b[0] in a;
    if a != [] && b != [] {
      SameFirst(a, b);
      forall w ensures w in a[1..] <==> w in b[1..] {
        WithoutFirst(a, w);
        WithoutFirst(b, w);
      }
      SameOrderedElements(a[1..], b[1..]);
      assert a == [a[0]] + a[1..] && b == [b[0]] + b[1..];
    }
  }
}
