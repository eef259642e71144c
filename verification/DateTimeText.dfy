/**
 The text of a datetime: what `isoformat` prints, with microseconds and UTC offset only when there are any,
 and what `fromisoformat` reads back.
 */
module DateTimeText {
  import opened Prelude
  import opened DigitText

  /** A time of day, or the size of a UTC offset. */
  datatype Clock = Clock(hour: nat, minute: nat, second: nat, microsecond: nat)

  datatype Offset = Offset(behind: bool, size: Clock)

  /** `offset` is None for a naive datetime. */
  datatype DateTime = DateTime(year: nat, month: nat, day: nat, time: Clock, offset: Option<Offset>)

  predicate IsClock(c: Clock) {
    c.hour < 24 && c.minute < 60 && c.second < 60 && c.microsecond < 1000000
  }

  predicate IsLeap(year: nat) {
    year % 4 == 0 && (year % 100 != 0 || year % 400 == 0)
  }

  function DaysIn(year: nat, month: nat): nat {
    if month == 2 then (if IsLeap(year) then 29 else 28)
    else if month in {4, 6, 9, 11} then 30 else 31
  }

  predicate IsDate(year: nat, month: nat, day: nat) {
    1 <= year <= 9999 && 1 <= month <= 12 && 1 <= day <= DaysIn(year, month)
  }

  const MIDNIGHT := Clock(0, 0, 0, 0)

  /** UTC itself is +00:00. */
  predicate IsOffset(o: Offset) {
    IsClock(o.size) && (o.size == MIDNIGHT ==> !o.behind)
  }

  predicate IsDateTime(d: DateTime) {
    && IsDate(d.year, d.month, d.day) && IsClock(d.time)
    && (d.offset.Some? ==> IsOffset(d.offset.value))
  }

  const EPOCH := DateTime(1970, 1, 1, MIDNIGHT, None)

  /** What `datetime` can hold. */
  type Timestamp = d: DateTime | IsDateTime(d) witness EPOCH

  // ---------- Printing ----------

  function PrintDate(year: nat, month: nat, day: nat): string {
    Fixed(year, 4) + "-" + Fixed(month, 2) + "-" + Fixed(day, 2)
  }

  function PrintMinutes(c: Clock): string {
    Fixed(c.hour, 2) + ":" + Fixed(c.minute, 2)
  }

  function PrintFraction(microsecond: nat): string {
    if microsecond == 0 then "" else "." + Fixed(microsecond, 6)
  }

  function PrintTime(c: Clock): string {
    PrintMinutes(c) + ":" + Fixed(c.second, 2) + PrintFraction(c.microsecond)
  }

  /** Seconds of an offset are printed only when there are any. */
  function PrintOffset(o: Offset): string {
    (if o.behind then "-" else "+")
    + if o.size.second == 0 && o.size.microsecond == 0 then PrintMinutes(o.size) else PrintTime(o.size)
  }

  function Print(d: Timestamp): string {
    PrintDate(d.year, d.month, d.day) + "T" + PrintTime(d.time)
    + if d.offset.None? then "" else PrintOffset(d.offset.value)
  }

  // ---------- Reading ----------

  /** The number at positions `i` up to `j`, when those are digits. */
  function NumberAt(s: string, i: nat, j: nat): Option<nat> {
    if i <= j <= |s| && AllDigits(s[i..j]) then Some(Value(s[i..j])) else None
  }

  predicate CharAt(s: string, i: nat, c: char) { i < |s| && s[i] == c }

  function ReadMinutes(s: string): Option<Clock> {
    var hour :- NumberAt(s, 0, 2);
    var minute :- NumberAt(s, 3, 5);
    if CharAt(s, 2, ':') then Some(Clock(hour, minute, 0, 0)) else None
  }

  function ReadFraction(s: string): Option<nat> {
    if s == "" then Some(0) else if s[0] != '.' || |s| != 7 then None else NumberAt(s, 1, 7)
  }

  /** HH:MM:SS, and the fraction if there is one. */
  function ReadTime(s: string): Option<Clock> {
    var clock :- ReadMinutes(s);
    var second :- NumberAt(s, 6, 8);
    var microsecond :- ReadFraction(s[8..]);
    if CharAt(s, 5, ':') then Some(clock.(second := second, microsecond := microsecond)) else None
  }

  function ReadOffset(s: string): Option<Offset> {
    if s == "" || s[0] !in {'+', '-'} then None
    else
      var size :- if |s| == 6 then ReadMinutes(s[1..]) else ReadTime(s[1..]);
      Some(Offset(s[0] == '-' && size != MIDNIGHT, size))
  }

  /** Where the time ends: at the sign of the offset, or at the end. */
  function SignFrom(s: string, i: nat): (j: nat)
    requires i <= |s|
    ensures i <= j <= |s|
    decreases |s| - i
  {
    if i == |s| || s[i] in {'+', '-'} then i else SignFrom(s, i + 1)
  }

  /** `datetime.fromisoformat(s)` on the form above; None stands for ValueError. */
  function Read(s: string): Option<Timestamp> {
    var year :- NumberAt(s, 0, 4);
    var month :- NumberAt(s, 5, 7);
    var day :- NumberAt(s, 8, 10);
    if !CharAt(s, 4, '-') || !CharAt(s, 7, '-') || !CharAt(s, 10, 'T') then None
    else
      var end := SignFrom(s, 11);
      var time :- ReadTime(s[11..end]);
      var offset :- if end == |s| then Some(None) else Present(ReadOffset(s[end..]));
      var d := DateTime(year, month, day, time, offset);
      if IsDateTime(d) then Some(d) else None
  }

  function Present<T>(o: Option<T>): Option<Option<T>> {
    if o.Some? then Some(o) else None
  }

  // ---------- The round trip ----------

  lemma Powers()
    ensures Power10(2) == 100 && Power10(4) == 10000 && Power10(6) == 1000000
  {
    assert Power10(1) == 10 && Power10(3) == 1000 && Power10(5) == 100000;
  }

  /** A number of fixed width in the middle of a text. */
  lemma NumberInside(a: string, n: nat, width: nat, b: string)
    requires n < Power10(width)
    ensures NumberAt(a + Fixed(n, width) + b, |a|, |a| + width) == Some(n)
  {
    var s := a + Fixed(n, width) + b;
    assert s[|a|..|a| + width] == Fixed(n, width);
    FixedRoundTrip(n, width);
  }

  lemma MinutesRead(c: Clock, b: string)
    requires IsClock(c)
    ensures ReadMinutes(PrintMinutes(c) + b) == Some(Clock(c.hour, c.minute, 0, 0))
    ensures |PrintMinutes(c)| == 5
  {
    Powers();
    hide Fixed, Power10, NumberAt;
    var s := PrintMinutes(c) + b;
    NumberInside("", c.hour, 2, ":" + Fixed(c.minute, 2) + b);
    assert s == "" + Fixed(c.hour, 2) + (":" + Fixed(c.minute, 2) + b);
    NumberInside(Fixed(c.hour, 2) + ":", c.minute, 2, b);
  }

  lemma FractionRead(microsecond: nat)
    requires microsecond < 1000000
    ensures ReadFraction(PrintFraction(microsecond)) == Some(microsecond)
  {
    Powers();
    hide Fixed, Power10, NumberAt;
    if microsecond != 0 {
      NumberInside(".", microsecond, 6, "");
      assert "." + Fixed(microsecond, 6) + "" == "." + Fixed(microsecond, 6);
    }
  }

  lemma TimeRead(c: Clock)
    requires IsClock(c)
    ensures ReadTime(PrintTime(c)) == Some(c)
    ensures |PrintTime(c)| == if c.microsecond == 0 then 8 else 15
  {
    Powers();
    hide Fixed, Power10, NumberAt, ReadMinutes, PrintMinutes, ReadFraction;
    var m, f := PrintMinutes(c), PrintFraction(c.microsecond);
    var s := PrintTime(c);
    MinutesRead(c, ":" + Fixed(c.second, 2) + f);
    assert s == m + (":" + Fixed(c.second, 2) + f);
    NumberInside(m + ":", c.second, 2, f);
    FractionRead(c.microsecond);
    assert s[8..] == f;
  }

  lemma OffsetRead(o: Offset)
    requires IsOffset(o)
    ensures ReadOffset(PrintOffset(o)) == Some(o)
    ensures PrintOffset(o) != "" && PrintOffset(o)[0] in {'+', '-'}
  {
    hide ReadMinutes, PrintMinutes, ReadTime, PrintTime;
    var s := PrintOffset(o);
    MinutesRead(o.size, "");
    assert PrintMinutes(o.size) + "" == PrintMinutes(o.size);
    TimeRead(o.size);
    if o.size.second == 0 && o.size.microsecond == 0 {
      assert s[1..] == PrintMinutes(o.size);
    } else {
      assert s[1..] == PrintTime(o.size);
    }
  }

  lemma {:induction false} SignFound(a: string, i: nat, b: string)
    requires i <= |a| && forall k :: i <= k < |a| ==> a[k] !in {'+', '-'}
    requires b != "" ==> b[0] in {'+', '-'}
    ensures SignFrom(a + b, i) == |a|
    decreases |a| - i
  {
    if i < |a| {
      SignFound(a, i + 1, b);
    }
  }

  lemma NoSignInTime(c: Clock)
    ensures forall k :: 0 <= k < |PrintTime(c)| ==> PrintTime(c)[k] !in {'+', '-'}
  {
    hide Fixed;
    var h, m, s, u := Fixed(c.hour, 2), Fixed(c.minute, 2), Fixed(c.second, 2), Fixed(c.microsecond, 6);
    Unsigned(h);
    Unsigned(m);
    Unsigned(s);
    Unsigned(u);
  }

  lemma Unsigned(s: string)
    requires AllDigits(s)
    ensures forall k :: 0 <= k < |s| ==> s[k] !in {'+', '-'}
  {
  }

  lemma DateRead(year: nat, month: nat, day: nat, b: string)
    requires IsDate(year, month, day)
    ensures var s := PrintDate(year, month, day) + "T" + b;
      && NumberAt(s, 0, 4) == Some(year) && NumberAt(s, 5, 7) == Some(month) && NumberAt(s, 8, 10) == Some(day)
      && CharAt(s, 4, '-') && CharAt(s, 7, '-') && CharAt(s, 10, 'T') && |s| == 11 + |b|
  {
    Powers();
    hide Fixed, Power10, NumberAt;
    var y, m, d := Fixed(year, 4), Fixed(month, 2), Fixed(day, 2);
    var s := PrintDate(year, month, day) + "T" + b;
    NumberInside("", year, 4, "-" + m + "-" + d + "T" + b);
    assert s == "" + y + ("-" + m + "-" + d + "T" + b);
    NumberInside(y + "-", month, 2, "-" + d + "T" + b);
    assert s == y + "-" + m + ("-" + d + "T" + b);
    NumberInside(y + "-" + m + "-", day, 2, "T" + b);
    assert s == y + "-" + m + "-" + d + ("T" + b);
  }

  /** Every datetime comes back from its text: date, time to the microsecond, and offset. */
  lemma DateTimeRoundTrip(d: Timestamp)
    ensures Read(Print(d)) == Some(d)
  {
    hide PrintDate, PrintTime, PrintOffset, NumberAt, ReadTime, ReadOffset, IsDate, IsClock, IsOffset;
    var date, time := PrintDate(d.year, d.month, d.day), PrintTime(d.time);
    var offset := if d.offset.None? then "" else PrintOffset(d.offset.value);
    var front := date + "T" + time;
    var s := Print(d);
    assert s == front + offset;
    assert s == date + "T" + (time + offset);
    DateRead(d.year, d.month, d.day, time + offset);
    DateRead(d.year, d.month, d.day, time);
    TimeRead(d.time);
    NoSignInTime(d.time);
    if d.offset.Some? {
      OffsetRead(d.offset.value);
    }
    assert forall k :: 11 <= k < |front| ==> front[k] == time[k - 11];
    SignFound(front, 11, offset);
    assert s[11..|front|] == time;
    assert s[|front|..] == offset;
  }

  /** The ISO 8601 form: where each number is, most significant first, and how long the text of a naive datetime is. */
  lemma IsoShape(d: Timestamp)
    ensures var s := Print(d);
      && NumberAt(s, 0, 4) == Some(d.year) && NumberAt(s, 5, 7) == Some(d.month) && NumberAt(s, 8, 10) == Some(d.day)
      && CharAt(s, 4, '-') && CharAt(s, 7, '-') && CharAt(s, 10, 'T') && CharAt(s, 13, ':') && CharAt(s, 16, ':')
      && NumberAt(s, 11, 13) == Some(d.time.hour) && NumberAt(s, 14, 16) == Some(d.time.minute)
      && NumberAt(s, 17, 19) == Some(d.time.second)
      && (d.offset.None? ==> |s| == if d.time.microsecond == 0 then 19 else 26)
  {
    Powers();
    hide Fixed, Power10, NumberAt, PrintDate, PrintOffset, IsDate, IsOffset;
    var c, date := d.time, PrintDate(d.year, d.month, d.day) + "T";
    var h, m, sec := Fixed(c.hour, 2), Fixed(c.minute, 2), Fixed(c.second, 2);
    var rest := PrintFraction(c.microsecond) + if d.offset.None? then "" else PrintOffset(d.offset.value);
    var s := Print(d);
    DateRead(d.year, d.month, d.day, h + ":" + m + ":" + sec + rest);
    assert s == date + (h + ":" + m + ":" + sec + rest);
    DateRead(d.year, d.month, d.day, "");
    assert |date| == 11 by { assert date + "" == date; }
    NumberInside(date, c.hour, 2, ":" + m + ":" + sec + rest);
    assert s == date + h + (":" + m + ":" + sec + rest);
    NumberInside(date + h + ":", c.minute, 2, ":" + sec + rest);
    assert s == date + h + ":" + m + (":" + sec + rest);
    NumberInside(date + h + ":" + m + ":", c.second, 2, rest);
    assert s == date + h + ":" + m + ":" + sec + rest;
  }
}
