/**
 * Calendar days, the clock reading taken at validation time, and the
 * ISO 8601 calendar-date form YYYY-MM-DD in which the form submits dates.
 */
module Dates {
  import opened Optional
  import opened Text

  datatype Day = Day(year: int, month: int, day: int)

  predicate IsLeapYear(y: int) { y % 4 == 0 && (y % 100 != 0 || y % 400 == 0) }

  function DaysInMonth(y: int, m: int): (n: int)
    requires 1 <= m <= 12
    ensures 28 <= n <= 31
  {
    if m == 2 then (if IsLeapYear(y) then 29 else 28)
    else if m == 4 || m == 6 || m == 9 || m == 11 then 30
    else 31
  }

  /** A day that exists in the Gregorian calendar. */
  predicate ValidDay(d: Day) {
    1 <= d.month <= 12 && 1 <= d.day <= DaysInMonth(d.year, d.month)
  }

  /** d1 is an earlier calendar day than d2. */
  predicate DayBefore(d1: Day, d2: Day) {
    d1.year < d2.year ||
    (d1.year == d2.year && (d1.month < d2.month || (d1.month == d2.month && d1.day < d2.day)))
  }

  /**
   * The instant of a validation run, in UTC: the calendar day and the whole
   * seconds elapsed in it (the default bound of isBefore is the current time
   * written out as text, which keeps whole seconds only).
   */
  datatype Clock = Clock(today: Day, secondOfDay: nat)

  /** Midnight UTC at the start of d, the instant a date string denotes, is strictly before now. */
  predicate StartsBefore(d: Day, now: Clock) {
    DayBefore(d, now.today) || (d == now.today && now.secondOfDay > 0)
  }

  /** The four-digit-year calendar date YYYY-MM-DD, or None. */
  function ParseDate(s: string): (r: Option<Day>)
    ensures r.Some? ==> ValidDay(r.value) && 0 <= r.value.year < 10000
    ensures r.Some? ==> |s| == 10 && s[4] == '-' && s[7] == '-'
  {
    if |s| == 10 && s[4] == '-' && s[7] == '-' &&
       AllDigits(s[..4]) && AllDigits(s[5..7]) && AllDigits(s[8..])
    then
      var d := Day(DigitsValue(s[..4]), DigitsValue(s[5..7]), DigitsValue(s[8..]));
      if ValidDay(d) then Some(d) else None
    else None
  }

  /** A day written in the form ParseDate reads. */
  function FormatDate(d: Day): (s: string)
    requires ValidDay(d) && 0 <= d.year < 10000
    ensures |s| == 10 && s[4] == '-' && s[7] == '-'
  {
    PadDigits(d.year, 4) + "-" + PadDigits(d.month, 2) + "-" + PadDigits(d.day, 2)
  }

  /** Every four-digit-year day survives being written and read back. */
  lemma ParseFormat(d: Day)
    requires ValidDay(d) && 0 <= d.year < 10000
    ensures ParseDate(FormatDate(d)) == Some(d)
  {
    var s := FormatDate(d);
    assert s[..4] == PadDigits(d.year, 4);
    assert s[5..7] == PadDigits(d.month, 2);
    assert s[8..] == PadDigits(d.day, 2);
  }

  /** A string ParseDate accepts is exactly the text FormatDate writes for its day. */
  lemma FormatParse(s: string)
    requires ParseDate(s).Some?
    ensures FormatDate(ParseDate(s).value) == s
  {
    DigitsRoundTrip(s[..4]);
    DigitsRoundTrip(s[5..7]);
    DigitsRoundTrip(s[8..]);
    assert s == s[..4] + "-" + s[5..7] + "-" + s[8..];
  }
}
