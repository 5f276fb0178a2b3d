/**
 * Calendar arithmetic used by the folder view: which dates exist, the ISO text
 * form that `datetime.fromisoformat` reads, and a day count for "the last N days".
 */
module Dates {
  import opened Values

  predicate IsLeapYear(y: int) {
    (y % 4 == 0 && y % 100 != 0) || y % 400 == 0
  }

  function DaysInMonth(y: int, m: int): (r: int)
    requires 1 <= m <= 12
    ensures 28 <= r <= 31
  {
    if m == 2 then (if IsLeapYear(y) then 29 else 28)
    else if m == 4 || m == 6 || m == 9 || m == 11 then 30
    else 31
  }

  /** A date Python's `date` type accepts (years 1 to 9999). */
  predicate ValidDate(d: Date) {
    1 <= d.year <= 9999 && 1 <= d.month <= 12 && 1 <= d.day <= DaysInMonth(d.year, d.month)
  }

  predicate ValidDateTime(t: DateTime) {
    ValidDate(t.date) && 0 <= t.hour < 24 && 0 <= t.minute < 60 && 0 <= t.second < 60
    && 0 <= t.micro < 1000000
  }

  /** `datetime.combine(d, datetime.min.time())`: that day at midnight. */
  function AtMidnight(d: Date): (r: DateTime)
    ensures r.date == d && r.hour == 0 && r.minute == 0 && r.second == 0 && r.micro == 0
  {
    DateTime(d, 0, 0, 0, 0)
  }

  // ---------------------------------------------------------------------------
  // ISO text (`datetime.fromisoformat`)
  // ---------------------------------------------------------------------------

  predicate AllDigits(s: string) {
    forall i :: 0 <= i < |s| ==> IsDigit(s[i])
  }

  /** A fixed-width run of digits at `s[from..from + width]`, as a number. */
  function NumberAt(s: string, from: nat, width: nat): (r: Option<nat>)
    requires from + width <= |s|
    ensures r.Some? <==> AllDigits(s[from..from + width])
  {
    if AllDigits(s[from..from + width]) then Some(DigitsValue(s[from..from + width])) else None
  }

  /** `YYYY-MM-DD` as a date that exists. */
  function ParseYmd(s: string): (r: Option<Date>)
    ensures r.Some? ==> ValidDate(r.value)
  {
    if |s| != 10 || s[4] != '-' || s[7] != '-' then None
    else
      var y := NumberAt(s, 0, 4);
      var m := NumberAt(s, 5, 2);
      var d := NumberAt(s, 8, 2);
      if y.None? || m.None? || d.None? then None
      else if ValidDate(Date(y.value, m.value, d.value)) then Some(Date(y.value, m.value, d.value))
      else None
  }

  /** `HH`, `HH:MM` or `HH:MM:SS` as hour, minute and second of a day. */
  function ParseHms(s: string): (r: Option<(int, int, int)>)
    ensures r.Some? ==> 0 <= r.value.0 < 24 && 0 <= r.value.1 < 60 && 0 <= r.value.2 < 60
  {
    if |s| != 2 && |s| != 5 && |s| != 8 then None
    else if |s| >= 5 && s[2] != ':' then None
    else if |s| == 8 && s[5] != ':' then None
    else
      var h := NumberAt(s, 0, 2);
      var m := if |s| >= 5 then NumberAt(s, 3, 2) else Some(0);
      var sec := if |s| == 8 then NumberAt(s, 6, 2) else Some(0);
      if h.None? || m.None? || sec.None? then None
      else if h.value < 24 && m.value < 60 && sec.value < 60 then Some((h.value, m.value, sec.value))
      else None
  }

  /**
   * The forms `datetime.fromisoformat` reads that this model covers: `YYYY-MM-DD`,
   * optionally followed by any single separator and `HH`, `HH:MM` or `HH:MM:SS`.
   * None when the text has another shape or names a date or time that does not exist.
   */
  function ParseIso(s: string): (r: Option<DateTime>)
    ensures r.Some? ==> ValidDateTime(r.value) && r.value.micro == 0
  {
    if |s| < 10 then None
    else
      var d := ParseYmd(s[..10]);
      if d.None? then None
      else if |s| == 10 then Some(AtMidnight(d.value))
      else
        var t := ParseHms(s[11..]);
        if t.None? then None
        else Some(DateTime(d.value, t.value.0, t.value.1, t.value.2, 0))
  }

  lemma Pow10Values()
    ensures Pow10(2) == 100 && Pow10(4) == 10000
  {
    assert Pow10(1) == 10;
    assert Pow10(3) == 1000;
  }

  lemma YmdRoundTrip(d: Date)
    requires ValidDate(d)
    ensures ParseYmd(ShowDate(d)) == Some(d)
  {
    var s := ShowDate(d);
    var y4, m2, d2 := PadDigits(d.year, 4), PadDigits(d.month, 2), PadDigits(d.day, 2);
    assert s == y4 + "-" + m2 + "-" + d2;
    assert s[0..4] == y4 && s[5..7] == m2 && s[8..10] == d2;
    Pow10Values();
    PadDigitsRoundTrip(d.year, 4);
    PadDigitsRoundTrip(d.month, 2);
    PadDigitsRoundTrip(d.day, 2);
  }

  lemma HmsRoundTrip(h: nat, m: nat, sec: nat)
    requires h < 24 && m < 60 && sec < 60
    ensures ParseHms(PadDigits(h, 2) + ":" + PadDigits(m, 2) + ":" + PadDigits(sec, 2)) == Some((h, m, sec))
  {
    var s := PadDigits(h, 2) + ":" + PadDigits(m, 2) + ":" + PadDigits(sec, 2);
    assert s[0..2] == PadDigits(h, 2) && s[3..5] == PadDigits(m, 2) && s[6..8] == PadDigits(sec, 2);
    Pow10Values();
    PadDigitsRoundTrip(h, 2);
    PadDigitsRoundTrip(m, 2);
    PadDigitsRoundTrip(sec, 2);
  }

  /** `str(dt)` of a datetime without microseconds reads back as the same datetime. */
  lemma IsoRoundTrip(t: DateTime)
    requires ValidDateTime(t) && t.micro == 0
    ensures ParseIso(ShowDateTime(t)) == Some(t)
  {
    var s := ShowDateTime(t);
    var ymd := ShowDate(t.date);
    var hms := PadDigits(t.hour, 2) + ":" + PadDigits(t.minute, 2) + ":" + PadDigits(t.second, 2);
    assert |ymd| == 10 && |hms| == 8;
    assert s == ymd + " " + hms;
    assert s[..10] == ymd;
    assert s[11..] == hms;
    YmdRoundTrip(t.date);
    HmsRoundTrip(t.hour, t.minute, t.second);
    assert ParseYmd(s[..10]) == Some(t.date);
    assert ParseHms(s[11..]) == Some((t.hour, t.minute, t.second));
    assert t == DateTime(t.date, t.hour, t.minute, t.second, 0);
  }

  // ---------------------------------------------------------------------------
  // Day numbers (`date.toordinal()`)
  // ---------------------------------------------------------------------------

  function DaysBeforeYear(y: int): int {
    var p := y - 1;
    365 * p + p / 4 - p / 100 + p / 400
  }

  function DaysBeforeMonth(y: int, m: int): int
    requires 1 <= m <= 12
  {
    var table := [0, 31, 59, 90, 120, 151, 181, 212, 243, 273, 304, 334];
    table[m - 1] + (if m > 2 && IsLeapYear(y) then 1 else 0)
  }

  /** `d.toordinal()`: 0001-01-01 is day 1. */
  function Ordinal(d: Date): (r: int)
    requires ValidDate(d)
    ensures d == Date(1, 1, 1) ==> r == 1
  {
    DaysBeforeYear(d.year) + DaysBeforeMonth(d.year, d.month) + d.day
  }

}
