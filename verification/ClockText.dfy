/**
 "HH:MM" clock texts: how the adapter reads them and how the snapshot builder
 writes them.
 */
module ClockText {
  import opened Wrappers
  import opened ClockLift

  /** What stripping a text removes; reading an integer ignores fewer characters. */
  predicate Strippable(c: char) { 9 <= c as int <= 13 || 28 <= c as int <= 32 }

  predicate IntegerPadding(c: char) { 9 <= c as int <= 13 || c == ' ' }

  function Trimmed(s: string, blank: char -> bool): string
    decreases |s|
  {
    if s == [] then s
    else if blank(s[0]) then Trimmed(s[1..], blank)
    else if blank(s[|s| - 1]) then Trimmed(s[..|s| - 1], blank)
    else s
  }

  predicate AllBlank(s: string, blank: char -> bool) { forall i :: 0 <= i < |s| ==> blank(s[i]) }

  lemma OneMoreInFront(s: string, front: string, t: string, back: string)
    requires s != [] && s[1..] == front + t + back
    ensures s == ([s[0]] + front) + t + back
  {
    assert s == [s[0]] + s[1..];
  }

  lemma OneMoreBehind(s: string, front: string, t: string, back: string)
    requires s != [] && s[..|s| - 1] == front + t + back
    ensures s == front + t + (back + [s[|s| - 1]])
  {
    assert s == s[..|s| - 1] + [s[|s| - 1]];
  }

  /** Trimming takes off nothing but blanks. */
  lemma {:induction false} TrimmedOff(s: string, blank: char -> bool) returns (front: string, back: string)
    ensures s == front + Trimmed(s, blank) + back && AllBlank(front, blank) && AllBlank(back, blank)
    decreases |s|
  {
    front, back := [], [];
    if s != [] && blank(s[0]) {
      front, back := TrimmedOff(s[1..], blank);
      OneMoreInFront(s, front, Trimmed(s[1..], blank), back);
      front := [s[0]] + front;
    } else if s != [] && blank(s[|s| - 1]) {
      front, back := TrimmedOff(s[..|s| - 1], blank);
      OneMoreBehind(s, front, Trimmed(s[..|s| - 1], blank), back);
      back := back + [s[|s| - 1]];
    }
  }

  /** It leaves none at either end. */
  lemma {:induction false} NoneLeft(s: string, blank: char -> bool)
    ensures Trimmed(s, blank) != [] ==> !blank(Trimmed(s, blank)[0]) && !blank(Trimmed(s, blank)[|Trimmed(s, blank)| - 1])
    decreases |s|
  {
    if s != [] && blank(s[0]) {
      NoneLeft(s[1..], blank);
    } else if s != [] && blank(s[|s| - 1]) {
      NoneLeft(s[..|s| - 1], blank);
    }
  }

  predicate IsDigit(c: char) { '0' <= c <= '9' }

  function DigitValue(c: char): int
    requires IsDigit(c)
  {
    c as int - '0' as int
  }

  /** Decimal digits, with single underscores allowed between two of them. */
  function Digits(s: string): Option<int> {
    if s == [] || !IsDigit(s[|s| - 1]) then None
    else if |s| == 1 then Some(DigitValue(s[0]))
    else
      var high := if s[|s| - 2] == '_' then Digits(s[..|s| - 2]) else Digits(s[..|s| - 1]);
      if high.None? then None else Some(high.value * 10 + DigitValue(s[|s| - 1]))
  }

  predicate GoodAt(s: string, i: nat)
    requires i < |s|
  {
    IsDigit(s[i]) || (s[i] == '_' && 0 < i < |s| - 1 && IsDigit(s[i - 1]) && IsDigit(s[i + 1]))
  }

  /** Digits are read exactly if there are any and every underscore stands between two of them. */
  lemma {:induction false} DigitsExactly(s: string)
    ensures Digits(s).Some? <==> s != [] && forall i :: 0 <= i < |s| ==> GoodAt(s, i)
    decreases |s|
  {
    if |s| > 1 && IsDigit(s[|s| - 1]) {
      var n := if s[|s| - 2] == '_' then |s| - 2 else |s| - 1;
      DigitsExactly(s[..n]);
      assert forall i :: 0 <= i < n - 1 ==> (GoodAt(s[..n], i) <==> GoodAt(s, i));
      if n > 0 {
        assert GoodAt(s[..n], n - 1) <==> IsDigit(s[n - 1]);
        assert s[|s| - 2] == '_' ==> (GoodAt(s, n) <==> IsDigit(s[n - 1]));
      }
      assert GoodAt(s, |s| - 1);
      if Digits(s).Some? {
        forall i | 0 <= i < |s| ensures GoodAt(s, i) {
          if i < n { assert GoodAt(s[..n], i); }
        }
      }
      if forall i :: 0 <= i < |s| ==> GoodAt(s, i) {
        assert GoodAt(s, 0);
        forall i | 0 <= i < n ensures GoodAt(s[..n], i) { assert GoodAt(s, i); }
      }
    } else if s != [] {
      assert GoodAt(s, |s| - 1) <==> IsDigit(s[|s| - 1]);
    }
  }

  /** One more digit makes ten times as much and the digit. */
  lemma OneMoreDigit(s: string, d: char, t: string)
    requires Digits(s).Some? && IsDigit(d) && t == s + [d]
    ensures Digits(t) == Some(Digits(s).value * 10 + DigitValue(d))
  {
    assert t[..|s|] == s && t[|s|] == d && t[|s| - 1] == s[|s| - 1];
  }

  /** An underscore before it makes no difference. */
  lemma UnderscoreIgnored(s: string, d: char, t: string)
    requires Digits(s).Some? && IsDigit(d) && t == s + ['_', d]
    ensures Digits(t) == Some(Digits(s).value * 10 + DigitValue(d))
  {
    assert t[..|s|] == s && t[|s|] == '_' && t[|s| + 1] == d;
  }

  function IntegerOf(s: string): Option<int> {
    var t := Trimmed(s, IntegerPadding);
    if t != [] && t[0] == '+' then Digits(t[1..])
    else if t != [] && t[0] == '-' then
      var n := Digits(t[1..]);
      if n.None? then None else Some(-n.value)
    else Digits(t)
  }

  /** Where the only colon of a text is. */
  function OnlyColon(s: string): (r: Option<nat>)
    ensures r.Some? ==> r.value < |s|
    ensures forall i: nat :: r == Some(i) <==> IsOnlyColon(s, i)
  {
    if s == [] then None
    else if s[0] != ':' then
      var rest := OnlyColon(s[1..]);
      assert forall i: nat :: IsOnlyColon(s, i) <==> i > 0 && IsOnlyColon(s[1..], i - 1) by { ColonShifts(s); }
      if rest.None? then None else Some(rest.value + 1)
    else if ':' in s[1..] then
      var k :| 0 <= k < |s[1..]| && s[1..][k] == ':';
      assert s[k + 1] == ':';
      None
    else
      assert IsOnlyColon(s, 0) by {
        forall k | 0 < k < |s| ensures s[k] != ':' { assert s[1..][k - 1] == s[k]; }
      }
      Some(0)
  }

  lemma ColonShifts(s: string)
    requires s != [] && s[0] != ':'
    ensures forall i: nat :: IsOnlyColon(s, i) <==> i > 0 && IsOnlyColon(s[1..], i - 1)
  {
    forall i: nat | i > 0 && IsOnlyColon(s[1..], i - 1) ensures IsOnlyColon(s, i) {
      forall k | 0 < k < |s| && k != i ensures s[k] != ':' { assert s[1..][k - 1] == s[k]; }
    }
  }

  predicate IsOnlyColon(s: string, i: nat) {
    i < |s| && s[i] == ':' && forall k :: 0 <= k < |s| && k != i ==> s[k] != ':'
  }

  datatype TextError = BadClockText

  function ParseClock(text: string): (r: Result<int, TextError>)
    ensures r.Ok? ==> IsClock(r.value)
  {
    var s := Trimmed(text, Strippable);
    var colon := OnlyColon(s);
    if colon.None? then Err(BadClockText)
    else
      var hours, minutes := IntegerOf(s[..colon.value]), IntegerOf(s[colon.value + 1..]);
      if hours.None? || minutes.None? then Err(BadClockText)
      else if !(0 <= hours.value <= 23) || !(0 <= minutes.value <= 59) then Err(BadClockText)
      else Ok(hours.value * 60 + minutes.value)
  }

  /** The text reads as this hour and minute: at its only colon, once it is trimmed. */
  predicate ReadsAsTime(text: string, hours: int, minutes: int) {
    var s := Trimmed(text, Strippable);
    exists i :: 0 <= i < |s| && IsOnlyColon(s, i) && IntegerOf(s[..i]) == Some(hours) && IntegerOf(s[i + 1..]) == Some(minutes)
  }

  /** What is read at the only colon of a text. */
  lemma ReadAt(text: string, s: string, i: nat, hours: Option<int>, minutes: Option<int>)
    requires s == Trimmed(text, Strippable) && i < |s| && OnlyColon(s) == Some(i)
    requires hours == IntegerOf(s[..i]) && minutes == IntegerOf(s[i + 1..])
    ensures ParseClock(text) ==
            if hours.Some? && minutes.Some? && 0 <= hours.value <= 23 && 0 <= minutes.value <= 59
            then Ok(hours.value * 60 + minutes.value) else Err(BadClockText)
  {
  }

  lemma ReadAtColon(text: string, s: string) returns (i: nat)
    requires s == Trimmed(text, Strippable) && ParseClock(text).Ok?
    ensures i < |s| && IsOnlyColon(s, i) && OnlyColon(s) == Some(i)
  {
    i := OnlyColon(s).value;
  }

  lemma SameTime(h: int, m: int, hours: int, minutes: int)
    requires 0 <= m < 60 && 0 <= minutes < 60 && h * 60 + m == hours * 60 + minutes
    ensures h == hours && m == minutes
  {
  }

  lemma ReadIsTime(text: string, clock: int) returns (h: int, m: int)
    requires ParseClock(text) == Ok(clock)
    ensures 0 <= h < 24 && 0 <= m < 60 && clock == h * 60 + m && ReadsAsTime(text, h, m)
  {
    var s := Trimmed(text, Strippable);
    var i := ReadAtColon(text, s);
    var hs, ms := IntegerOf(s[..i]), IntegerOf(s[i + 1..]);
    ReadAt(text, s, i, hs, ms);
    h, m := hs.value, ms.value;
  }

  lemma TimeIsRead(text: string, h: int, m: int)
    requires 0 <= h < 24 && 0 <= m < 60 && ReadsAsTime(text, h, m)
    ensures ParseClock(text) == Ok(h * 60 + m)
  {
    var s := Trimmed(text, Strippable);
    var i :| 0 <= i < |s| && IsOnlyColon(s, i) && IntegerOf(s[..i]) == Some(h) && IntegerOf(s[i + 1..]) == Some(m);
    assert OnlyColon(s) == Some(i);
    ReadAt(text, s, i, Some(h), Some(m));
  }

  /** A clock is read exactly when the text reads as an hour of the day and a minute of the hour. */
  lemma ClockExactly(text: string, hours: int, minutes: int, clock: int)
    requires 0 <= minutes < 60 && clock == hours * 60 + minutes
    ensures ParseClock(text) == Ok(clock) <==> 0 <= hours < 24 && ReadsAsTime(text, hours, minutes)
  {
    if ParseClock(text) == Ok(clock) {
      var h, m := ReadIsTime(text, clock);
      SameTime(h, m, hours, minutes);
    } else if 0 <= hours < 24 && ReadsAsTime(text, hours, minutes) {
      TimeIsRead(text, hours, minutes);
    }
  }

  function DigitChar(n: int): (c: char)
    requires 0 <= n <= 9
    ensures IsDigit(c) && DigitValue(c) == n
  {
    ('0' as int + n) as char
  }

  function TwoDigits(n: int): string
    requires 0 <= n < 100
  {
    [DigitChar(n / 10), DigitChar(n % 10)]
  }

  /** The builder's text of an absolute minute: its time of day, the day dropped. */
  function FormatClock(minutes: int): string {
    var clock := minutes % DAY;
    TwoDigits(clock / 60) + [':'] + TwoDigits(clock % 60)
  }

  lemma NothingToTrim(s: string, blank: char -> bool)
    requires s != [] && !blank(s[0]) && !blank(s[|s| - 1])
    ensures Trimmed(s, blank) == s
  {
  }

  lemma TwoDigitsRead(n: int)
    requires 0 <= n < 100
    ensures IntegerOf(TwoDigits(n)) == Some(n)
  {
    var t := TwoDigits(n);
    NothingToTrim(t, IntegerPadding);
    assert t[..1] == [DigitChar(n / 10)];
    assert Digits(t[..1]) == Some(n / 10);
  }

  lemma JoinedReadsBack(a: string, b: string, clock: int, hours: int, minutes: int)
    requires |a| == 2 && IsDigit(a[0]) && IsDigit(a[1]) && |b| == 2 && IsDigit(b[0]) && IsDigit(b[1])
    requires IntegerOf(a) == Some(hours) && IntegerOf(b) == Some(minutes) && 0 <= hours <= 23 && 0 <= minutes <= 59
    requires clock == hours * 60 + minutes
    ensures ParseClock(a + [':'] + b) == Ok(clock)
  {
    var s := a + [':'] + b;
    NothingToTrim(s, Strippable);
    assert IsOnlyColon(s, 2);
    assert OnlyColon(s) == Some(2);
    assert s[..2] == a && s[3..] == b;
  }

  lemma ClockReadsBack(text: string, clock: int, hours: int, minutes: int)
    requires 0 <= hours <= 23 && 0 <= minutes <= 59 && text == TwoDigits(hours) + [':'] + TwoDigits(minutes)
    requires clock == hours * 60 + minutes
    ensures ParseClock(text) == Ok(clock)
  {
    TwoDigitsRead(hours);
    TwoDigitsRead(minutes);
    var a, b := TwoDigits(hours), TwoDigits(minutes);
    JoinedReadsBack(a, b, clock, hours, minutes);
  }

  lemma FormatShape(minutes: int) returns (h: int, m: int)
    ensures 0 <= h <= 23 && 0 <= m <= 59 && h * 60 + m == minutes % DAY
    ensures FormatClock(minutes) == TwoDigits(h) + [':'] + TwoDigits(m)
  {
    var clock := minutes % DAY;
    h, m := clock / 60, clock % 60;
  }

  /** Reading a formatted minute gives its time of day. */
  lemma FormattedReadsBack(minutes: int)
    ensures ParseClock(FormatClock(minutes)) == Ok(minutes % DAY)
  {
    var h, m := FormatShape(minutes);
    ClockReadsBack(FormatClock(minutes), minutes % DAY, h, m);
  }

  /** Two minutes are written alike exactly when they are the same time of day. */
  lemma SameTextSameTime(a: int, b: int)
    ensures FormatClock(a) == FormatClock(b) <==> a % DAY == b % DAY
  {
    FormattedReadsBack(a);
    FormattedReadsBack(b);
  }
}
