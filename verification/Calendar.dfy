/** The proleptic Gregorian calendar on day numbers, week numbering by the week's Thursday
    (section 4.1.4 of ISO 8601:2004), and the UTC text of an instant (section 5.6 of RFC 3339).
    Day 0 is 0000-01-01, a Saturday. Instants are seconds since 1970-01-01T00:00:00Z. */
module Calendar {
  import opened Common

  const EPOCH_DAY := 719528
  const DAY := 86400
  const IST := 19800

  predicate IsLeap(y: int) { y % 4 == 0 && (y % 100 != 0 || y % 400 == 0) }

  /** The day number of the first of January of year `y`. */
  function YearStart(y: int): int {
    365 * y + (y + 3) / 4 - (y + 99) / 100 + (y + 399) / 400
  }

  lemma FourYears(y: int)
    ensures (y + 4) / 4 - (y + 3) / 4 == if y % 4 == 0 then 1 else 0
  {
    assert y == 4 * (y / 4) + y % 4;
  }

  lemma HundredYears(y: int)
    ensures (y + 100) / 100 - (y + 99) / 100 == if y % 100 == 0 then 1 else 0
  {
    assert y == 100 * (y / 100) + y % 100;
  }

  lemma FourHundredYears(y: int)
    ensures (y + 400) / 400 - (y + 399) / 400 == if y % 400 == 0 then 1 else 0
  {
    assert y == 400 * (y / 400) + y % 400;
  }

  lemma HundredTimes(k: int)
    ensures 100 * k % 100 == 0
  {
  }

  lemma FourTimes(k: int)
    ensures 4 * k % 4 == 0
  {
  }

  lemma LeapCases(y: int)
    ensures y % 400 == 0 ==> y % 100 == 0
    ensures y % 100 == 0 ==> y % 4 == 0
  {
    if y % 400 == 0 {
      assert y == 400 * (y / 400);
      HundredTimes(4 * (y / 400));
    }
    if y % 100 == 0 {
      assert y == 100 * (y / 100);
      FourTimes(25 * (y / 100));
    }
  }

  lemma YearLength(y: int)
    ensures YearStart(y + 1) == YearStart(y) + (if IsLeap(y) then 366 else 365)
  {
    FourYears(y);
    HundredYears(y);
    FourHundredYears(y);
    LeapCases(y);
  }

  function Distance(n: int, y: int): nat {
    if n < YearStart(y) then YearStart(y) - n
    else if n >= YearStart(y + 1) then n - YearStart(y + 1) + 1
    else 0
  }

  /** The year a day lies in, walking from `y`. */
  function YearFrom(n: int, y: int): (r: int)
    ensures YearStart(r) <= n < YearStart(r + 1)
    decreases Distance(n, y)
  {
    YearLength(y);
    YearLength(y - 1);
    YearLength(y + 1);
    if n < YearStart(y) then YearFrom(n, y - 1)
    else if n >= YearStart(y + 1) then YearFrom(n, y + 1)
    else y
  }

  function YearOf(n: int): (r: int)
    ensures YearStart(r) <= n < YearStart(r + 1)
  {
    YearFrom(n, 0)
  }

  lemma {:induction false} YearsAscend(y: int, z: int)
    requires y <= z
    ensures YearStart(y) + 365 * (z - y) <= YearStart(z)
    decreases z - y
  {
    if y < z {
      YearLength(z - 1);
      YearsAscend(y, z - 1);
    }
  }

  /** A day lies in exactly one year. */
  lemma YearUnique(n: int, y: int)
    requires YearStart(y) <= n < YearStart(y + 1)
    ensures YearOf(n) == y
  {
    var r := YearOf(n);
    if r < y { YearsAscend(r + 1, y); }
    if y < r { YearsAscend(y + 1, r); }
  }

  // ---------------------------------------------------------------- weeks

  /** Days since Monday. */
  function Weekday(n: int): int { (n + 5) % 7 }

  /** The Monday-to-Sunday week a day lies in, counted from an arbitrary one. */
  function WeekIndex(n: int): int { (n + 5) / 7 }

  /** The week's Thursday decides which year the week belongs to. */
  function Thursday(n: int): int { n - Weekday(n) + 3 }

  function IsoYear(n: int): int { YearOf(Thursday(n)) }

  function IsoWeek(n: int): (w: int)
    ensures 1 <= w <= 53
  {
    YearLength(IsoYear(n));
    (Thursday(n) - YearStart(IsoYear(n))) / 7 + 1
  }

  /** Two days carry the same ISO year and week number exactly when they lie in the same
      Monday-to-Sunday week, across year ends and in years of 52 or 53 weeks alike. */
  lemma IsoWeekIdentifiesWeek(m: int, n: int)
    ensures IsoYear(m) == IsoYear(n) && IsoWeek(m) == IsoWeek(n) <==> WeekIndex(m) == WeekIndex(n)
  {
    assert Thursday(m) == 7 * WeekIndex(m) - 2 && Thursday(n) == 7 * WeekIndex(n) - 2;
    if IsoYear(m) == IsoYear(n) && IsoWeek(m) == IsoWeek(n) {
      var a, b := Thursday(m) - YearStart(IsoYear(m)), Thursday(n) - YearStart(IsoYear(n));
      assert a / 7 == b / 7;
      assert -7 < a - b < 7;
    }
  }

  /** Week numbers are the usual ones: week 1 is the week holding the fourth of January. */
  lemma FirstWeekHoldsFourth(y: int)
    ensures IsoYear(YearStart(y) + 3) == y && IsoWeek(YearStart(y) + 3) == 1
  {
    var n := YearStart(y) + 3;
    YearLength(y);
    YearUnique(Thursday(n), y);
  }

  // ---------------------------------------------------------------- local days

  /** The day an instant falls on in Indian Standard Time. */
  function IstDay(t: int): int { (t + IST) / DAY + EPOCH_DAY }

  function IstHour(t: int): int { (t + IST) % DAY / 3600 }

  // ---------------------------------------------------------------- months

  function MonthStart(m: int, leap: bool): int
    requires 1 <= m <= 13
  {
    var days := [0, 31, 59, 90, 120, 151, 181, 212, 243, 273, 304, 334, 365];
    days[m - 1] + (if leap && m > 2 then 1 else 0)
  }

  /** The month of the `d`th day (from 0) of a year. */
  function MonthOf(d: int, leap: bool): (m: int)
    requires 0 <= d < (if leap then 366 else 365)
    ensures 1 <= m <= 12 && MonthStart(m, leap) <= d < MonthStart(m + 1, leap)
  {
    if d < MonthStart(2, leap) then 1
    else if d < MonthStart(3, leap) then 2
    else if d < MonthStart(4, leap) then 3
    else if d < MonthStart(5, leap) then 4
    else if d < MonthStart(6, leap) then 5
    else if d < MonthStart(7, leap) then 6
    else if d < MonthStart(8, leap) then 7
    else if d < MonthStart(9, leap) then 8
    else if d < MonthStart(10, leap) then 9
    else if d < MonthStart(11, leap) then 10
    else if d < MonthStart(12, leap) then 11
    else 12
  }

  /** The calendar fields of a UTC second. */
  datatype Civil = Civil(year: int, month: int, day: int, hour: int, minute: int, second: int)

  function CivilOf(t: int): (c: Civil)
    ensures 1 <= c.month <= 12 && 1 <= c.day <= 31 && 0 <= c.hour < 24 && 0 <= c.minute < 60 && 0 <= c.second < 60
  {
    var n, s := t / DAY + EPOCH_DAY, t % DAY;
    var y := YearOf(n);
    YearLength(y);
    var d := n - YearStart(y);
    var m := MonthOf(d, IsLeap(y));
    Civil(y, m, d - MonthStart(m, IsLeap(y)) + 1, s / 3600, s % 3600 / 60, s % 60)
  }

  /** The second a set of calendar fields denotes. */
  function SecondOf(c: Civil): int
    requires 1 <= c.month <= 12
  {
    (YearStart(c.year) + MonthStart(c.month, IsLeap(c.year)) + c.day - 1 - EPOCH_DAY) * DAY
    + c.hour * 3600 + c.minute * 60 + c.second
  }

  /** The fields denote the second they came from, so they are distinct for distinct seconds. */
  lemma CivilRoundTrip(t: int)
    ensures SecondOf(CivilOf(t)) == t
  {
    var s := t % DAY;
    assert s == s / 3600 * 3600 + s % 3600;
    assert s % 3600 == s % 3600 / 60 * 60 + s % 3600 % 60;
    assert s % 3600 % 60 == s % 60;
  }

  predicate InRange(c: Civil) {
    && 1 <= c.month <= 12 && 1 <= c.day <= 31
    && 0 <= c.hour < 24 && 0 <= c.minute < 60 && 0 <= c.second < 60
  }

  function DateText(c: Civil): string
    requires InRange(c)
  {
    Signed(c.year, 4) + "-" + PadDec(c.month, 2) + "-" + PadDec(c.day, 2)
  }

  function TimeText(h: nat, m: nat, s: nat): string { "T" + PadDec(h, 2) + ":" + PadDec(m, 2) + ":" + PadDec(s, 2) }

  function TextOf(c: Civil): string
    requires InRange(c)
  {
    DateText(c) + TimeText(c.hour, c.minute, c.second) + "Z"
  }

  /** time.RFC3339 of a UTC instant. */
  function Rfc3339(t: int): string { TextOf(CivilOf(t)) }

  /** Reading such a text back, from its end: the last field of two digits after its mark. */
  function CutField(s: string, mark: char): Option<(string, int)> {
    if |s| < 3 || s[|s| - 3] != mark then None else Some((s[..|s| - 3], DecValue(s[|s| - 2..])))
  }

  function ReadSigned(s: string): int {
    if s != [] && s[0] == '-' then -DecValue(s[1..]) else DecValue(s)
  }

  /** What stands before the time, and its three fields. */
  function ParseTime(s: string): Option<(string, int, int, int)> {
    match CutField(s, ':') case None => None case Some(second) =>
    match CutField(second.0, ':') case None => None case Some(minute) =>
    match CutField(minute.0, 'T') case None => None case Some(hour) =>
    Some((hour.0, hour.1, minute.1, second.1))
  }

  function ParseDate(s: string): Option<(int, int, int)> {
    match CutField(s, '-') case None => None case Some(day) =>
    match CutField(day.0, '-') case None => None case Some(month) =>
    Some((ReadSigned(month.0), month.1, day.1))
  }

  function ParseRfc3339(s: string): Option<Civil> {
    if s == [] || s[|s| - 1] != 'Z' then None
    else
      match ParseTime(s[..|s| - 1]) case None => None case Some(time) =>
      match ParseDate(time.0) case None => None case Some(date) =>
      Some(Civil(date.0, date.1, date.2, time.1, time.2, time.3))
  }

  lemma CutBack(front: string, mark: char, n: nat)
    requires n < 100
    ensures CutField(front + [mark] + PadDec(n, 2), mark) == Some((front, n))
  {
    DecRoundTrip(n, 2);
    var s := front + [mark] + PadDec(n, 2);
    assert s[..|s| - 3] == front && s[|s| - 2..] == PadDec(n, 2);
  }

  lemma SignedReadsBack(n: int, width: nat)
    ensures ReadSigned(Signed(n, width)) == n
  {
    SignedParts(n, width);
    DecRoundTrip(if n < 0 then -n else n, width);
  }

  lemma TimeBack(front: string, h: nat, m: nat, s: nat)
    requires h < 100 && m < 100 && s < 100
    ensures ParseTime(front + TimeText(h, m, s)) == Some((front, h, m, s))
  {
    var hour := front + "T" + PadDec(h, 2);
    CutBack(front, 'T', h);
    CutBack(hour, ':', m);
    CutBack(hour + ":" + PadDec(m, 2), ':', s);
    assert front + TimeText(h, m, s) == hour + ":" + PadDec(m, 2) + ":" + PadDec(s, 2);
  }

  lemma DateBack(c: Civil)
    requires InRange(c)
    ensures ParseDate(DateText(c)) == Some((c.year, c.month, c.day))
  {
    var y := Signed(c.year, 4);
    CutBack(y, '-', c.month);
    CutBack(y + "-" + PadDec(c.month, 2), '-', c.day);
    SignedReadsBack(c.year, 4);
  }

  lemma ReadZulu(text: string)
    ensures (text + "Z")[..|text + "Z"| - 1] == text && (text + "Z")[|text + "Z"| - 1] == 'Z'
  {
  }

  lemma TextReadsBack(c: Civil)
    requires InRange(c)
    ensures ParseRfc3339(TextOf(c)) == Some(c)
  {
    ReadZulu(DateText(c) + TimeText(c.hour, c.minute, c.second));
    TimeBack(DateText(c), c.hour, c.minute, c.second);
    DateBack(c);
  }

  /** The text is the calendar fields in their order, year first, and so tells the second. */
  lemma ParseRoundTrip(t: int)
    ensures ParseRfc3339(Rfc3339(t)) == Some(CivilOf(t))
    ensures SecondOf(CivilOf(t)) == t
  {
    TextReadsBack(CivilOf(t));
    CivilRoundTrip(t);
  }

  // ---------------------------------------------------------------- the calendar we know

  /** The months have their usual lengths, February one more day in a leap year. */
  lemma MonthLengths(m: int, leap: bool)
    requires 1 <= m <= 12
    ensures MonthStart(1, leap) == 0
    ensures MonthStart(m + 1, leap) - MonthStart(m, leap)
      == if m in {4, 6, 9, 11} then 30 else if m != 2 then 31 else if leap then 29 else 28
  {
  }

  lemma ShiftDiv(x: int)
    ensures (x + 400) / 4 == x / 4 + 100
  {
    assert x == 4 * (x / 4) + x % 4;
  }

  lemma ShiftCenturies(x: int)
    ensures (x + 400) / 100 == x / 100 + 4
  {
    assert x == 100 * (x / 100) + x % 100;
  }

  /** Four hundred years have 97 leap days. */
  lemma GregorianCycle(y: int)
    ensures YearStart(y + 400) == YearStart(y) + 400 * 365 + 97
  {
    ShiftDiv(y + 3);
    ShiftCenturies(y + 99);
    assert y + 399 == 400 * ((y + 399) / 400) + (y + 399) % 400;
  }

  lemma KnownFields()
    ensures CivilOf(1709210096) == Civil(2024, 2, 29, 12, 34, 56)
  {
    assert 1709210096 / DAY == 19782 && 1709210096 % DAY == 45296;
    assert YearStart(2024) == 739251 && YearStart(2025) == 739617;
    YearUnique(739310, 2024);
  }

  lemma KnownDigits()
    ensures PadDec(2024, 4) == "2024" && PadDec(2, 2) == "02" && PadDec(29, 2) == "29"
    ensures PadDec(12, 2) == "12" && PadDec(34, 2) == "34" && PadDec(56, 2) == "56"
  {
    assert PadDec(202, 3) == "202" by { assert PadDec(2, 1) == "2" && PadDec(20, 2) == "20"; }
  }

  lemma KnownText()
    ensures "2024" + "-" + "02" + "-" + "29" == "2024-02-29"
    ensures "T" + "12" + ":" + "34" + ":" + "56" == "T12:34:56"
    ensures "2024-02-29" + "T12:34:56" + "Z" == "2024-02-29T12:34:56Z"
  {
    assert "2024" + "-" + "02" == "2024-02";
    assert "T" + "12" + ":" + "34" == "T12:34";
  }

  lemma KnownTextOf()
    ensures TextOf(Civil(2024, 2, 29, 12, 34, 56)) == "2024-02-29T12:34:56Z"
  {
    KnownDigits();
    KnownText();
  }

  /** 1709210096 is Thursday, 29 February 2024, 12:34:56 UTC, six in the evening in India. */
  lemma KnownInstant()
    ensures Rfc3339(1709210096) == "2024-02-29T12:34:56Z"
    ensures Weekday(1709210096 / DAY + EPOCH_DAY) == 3
    ensures IstDay(1709210096) == 1709210096 / DAY + EPOCH_DAY && IstHour(1709210096) == 18
  {
    KnownFields();
    KnownTextOf();
    KnownDay();
  }

  lemma KnownDay()
    ensures Weekday(1709210096 / DAY + EPOCH_DAY) == 3
    ensures IstDay(1709210096) == 1709210096 / DAY + EPOCH_DAY && IstHour(1709210096) == 18
  {
  }

  /** Two texts of equal length tails agree piece by piece. */
  lemma SplitTail(a: string, b: string, x: string, y: string)
    requires a + x == b + y && |x| == |y|
    ensures a == b && x == y
  {
    assert (a + x)[..|a|] == a && (b + y)[..|b|] == b;
    assert (a + x)[|a|..] == x && (b + y)[|b|..] == y;
  }

  /** The text identifies the second. */
  lemma Rfc3339Injective(t: int, u: int)
    requires Rfc3339(t) == Rfc3339(u)
    ensures t == u
  {
    ParseRoundTrip(t);
    ParseRoundTrip(u);
  }

  lemma PeelField(a: string, b: string, mark: string, m: nat, n: nat)
    requires m < 100 && n < 100 && a + mark + PadDec(m, 2) == b + mark + PadDec(n, 2)
    ensures a == b && m == n
  {
    SplitTail(a + mark, b + mark, PadDec(m, 2), PadDec(n, 2));
    DecInjective(m, n, 2);
    SplitTail(a, b, mark, mark);
  }
}
