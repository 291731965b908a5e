/** Wall-clock timestamps and the three textual forms the service prints them in:
    `strftime('%H:%M')` for history entries, `strftime('%Y%m%d')` for session identifiers and
    `isoformat()` for log records. The clock itself is read by the caller and passed in. */
module Clock {
  import opened Text

  /** Whether `year` is a leap year of the proleptic Gregorian calendar `datetime` uses. */
  predicate IsLeapYear(year: nat) {
    year % 4 == 0 && (year % 100 != 0 || year % 400 == 0)
  }

  /** The number of days in a month, as `datetime` checks a date's day against it. */
  function DaysInMonth(year: nat, month: nat): nat {
    if month == 2 then (if IsLeapYear(year) then 29 else 28)
    else if month == 4 || month == 6 || month == 9 || month == 11 then 30
    else 31
  }

  /** A naive `datetime` value, as `datetime.now()` returns it. */
  datatype DateTime = DateTime(year: nat, month: nat, day: nat,
                               hour: nat, minute: nat, second: nat, microsecond: nat)
  {
    predicate Valid() {
      && 1000 <= year <= 9999 && 1 <= month <= 12 && 1 <= day <= DaysInMonth(year, month)
      && hour < 24 && minute < 60 && second < 60 && microsecond < 1000000
    }
  }

  type Timestamp = t: DateTime | t.Valid() witness DateTime(2000, 1, 1, 0, 0, 0, 0)

  /** `t.strftime('%H:%M')`. */
  function HourMinute(t: Timestamp): (r: string)
    ensures |r| == 5 && r[2] == ':'
  {
    Digits(t.hour, 2) + ":" + Digits(t.minute, 2)
  }

  /** The hour and the minute can be read back from `HH:MM`; so two timestamps print the same
      `HH:MM` exactly when they agree on hour and minute. */
  lemma HourMinuteRoundTrip(t: Timestamp)
    ensures AllDigits(HourMinute(t)[..2]) && Value(HourMinute(t)[..2]) == t.hour
    ensures AllDigits(HourMinute(t)[3..]) && Value(HourMinute(t)[3..]) == t.minute
  {
    var r := HourMinute(t);
    assert r[..2] == Digits(t.hour, 2);
    assert r[3..] == Digits(t.minute, 2);
    ValueOfDigits(t.hour, 2);
    ValueOfDigits(t.minute, 2);
  }

  /** `t.strftime('%Y%m%d')`. */
  function SessionId(t: Timestamp): (r: string)
    ensures |r| == 8 && AllDigits(r)
  {
    Digits(t.year, 4) + Digits(t.month, 2) + Digits(t.day, 2)
  }

  /** Year, month and day are read back from `YYYYMMDD`. */
  lemma SessionIdRoundTrip(t: Timestamp)
    ensures Value(SessionId(t)[..4]) == t.year
    ensures Value(SessionId(t)[4..6]) == t.month
    ensures Value(SessionId(t)[6..]) == t.day
  {
    var r := SessionId(t);
    assert r[..4] == Digits(t.year, 4);
    assert r[4..6] == Digits(t.month, 2);
    assert r[6..] == Digits(t.day, 2);
    ValueOfDigits(t.year, 4);
    ValueOfDigits(t.month, 2);
    ValueOfDigits(t.day, 2);
  }

  /** `t.isoformat()`: `YYYY-MM-DDTHH:MM:SS`, followed by `.ffffff` only when the microsecond
      is not zero. */
  function IsoFormat(t: Timestamp): (r: string)
    ensures |r| == (if t.microsecond == 0 then 19 else 26)
    ensures IsDigit(r[0]) && r[4] == '-' && r[7] == '-' && r[10] == 'T'
  {
    Digits(t.year, 4) + "-" + Digits(t.month, 2) + "-" + Digits(t.day, 2)
    + "T" + Digits(t.hour, 2) + ":" + Digits(t.minute, 2) + ":" + Digits(t.second, 2)
    + (if t.microsecond == 0 then "" else "." + Digits(t.microsecond, 6))
  }

  /** The session identifier is the date part of the ISO timestamp without its dashes, and the
      `HH:MM` form is the start of its time part. */
  lemma IsoFormatAgreesWithShortForms(t: Timestamp)
    ensures SessionId(t) == IsoFormat(t)[..4] + IsoFormat(t)[5..7] + IsoFormat(t)[8..10]
    ensures HourMinute(t) == IsoFormat(t)[11..16]
  {
  }
}
