/** The date rule's text: `date.toISOString().split('T')[0]` on a valid JavaScript date.
    Parsing the raw text into a date is platform behaviour and stays a parameter; the
    ISO rendering of the date and the cut at `T` are modelled here. */
module Dates {
  import opened Text

  /** The UTC calendar fields of a JavaScript date. */
  datatype Instant = Instant(year: int, month: int, day: int,
                             hour: int, minute: int, second: int, millisecond: int)

  /** The ranges of the fields of a valid date. A JavaScript time value lies within
      8.64e15 ms of the epoch, which bounds the year to -271821..275760. */
  predicate ValidInstant(t: Instant) {
    && -271821 <= t.year <= 275760
    && 1 <= t.month <= 12 && 1 <= t.day <= 31
    && 0 <= t.hour < 24 && 0 <= t.minute < 60 && 0 <= t.second < 60
    && 0 <= t.millisecond < 1000
  }

  /** A date the platform can produce: one that is not an Invalid Date. */
  type DateTime = t: Instant | ValidInstant(t) witness Instant(1970, 1, 1, 0, 0, 0, 0)

  predicate IsDigit(c: char) {
    '0' <= c <= '9'
  }

  predicate AllDigits(s: string) {
    forall i :: 0 <= i < |s| ==> IsDigit(s[i])
  }

  function DigitChar(d: int): (c: char)
    requires 0 <= d < 10
    ensures IsDigit(c)
  {
    ('0' as int + d) as char
  }

  function Pow10(w: nat): (r: nat)
    ensures r >= 1
  {
    if w == 0 then 1 else 10 * Pow10(w - 1)
  }

  /** The last `w` decimal digits of `n`, most significant first, zero-padded. */
  function Digits(n: nat, w: nat): (s: string)
    ensures |s| == w && AllDigits(s)
  {
    if w == 0 then [] else Digits(n / 10, w - 1) + [DigitChar(n % 10)]
  }

  /** The number a string of decimal digits denotes. */
  function DigitsValue(s: string): nat
    requires AllDigits(s)
  {
    if s == [] then 0 else 10 * DigitsValue(s[..|s| - 1]) + (s[|s| - 1] as int - '0' as int)
  }

  /** `w` digits are enough for any number below `10^w`, and they read back as it. */
  lemma {:induction false} DigitsRoundTrip(n: nat, w: nat)
    requires n < Pow10(w)
    ensures DigitsValue(Digits(n, w)) == n
  {
    if w > 0 {
      DigitsRoundTrip(n / 10, w - 1);
      var s := Digits(n, w);
      assert s[..|s| - 1] == Digits(n / 10, w - 1);
    }
  }

  /** The year as `toISOString` writes it: four digits for years 0 to 9999, otherwise a
      sign and six digits. */
  function YearText(y: int): (s: string)
    requires -999999 <= y <= 999999
    ensures |s| == 4 || |s| == 7
  {
    if 0 <= y <= 9999 then Digits(y, 4)
    else if y < 0 then "-" + Digits(-y, 6)
    else "+" + Digits(y, 6)
  }

  /** `YYYY-MM-DD` (or `±YYYYYY-MM-DD`): the part of the ISO text before the `T`. */
  function DayText(t: DateTime): string {
    YearText(t.year) + "-" + Digits(t.month, 2) + "-" + Digits(t.day, 2)
  }

  /** `hh:mm:ss.sssZ`: the part after the `T`. */
  function TimeText(t: DateTime): string {
    Digits(t.hour, 2) + ":" + Digits(t.minute, 2) + ":" + Digits(t.second, 2) + "."
      + Digits(t.millisecond, 3) + "Z"
  }

  /** `date.toISOString()`. */
  function IsoString(t: DateTime): string {
    DayText(t) + "T" + TimeText(t)
  }

  /** `date.toISOString().split('T')[0]`. */
  function CalendarDay(t: DateTime): string {
    Split(IsoString(t), 'T')[0]
  }

  /** A stored date: `YYYY-MM-DD`, or `±YYYYYY-MM-DD` for years outside 0..9999. */
  predicate IsDayText(s: string) {
    || (|s| == 10 && AllDigits(s[..4]) && s[4] == '-' && AllDigits(s[5..7]) && s[7] == '-'
        && AllDigits(s[8..]))
    || (|s| == 13 && (s[0] == '+' || s[0] == '-') && AllDigits(s[1..7]) && s[7] == '-'
        && AllDigits(s[8..10]) && s[10] == '-' && AllDigits(s[11..]))
  }

  /** The year, month and day written in a stored date. */
  function DayFields(s: string): (int, int, int)
    requires IsDayText(s)
  {
    if |s| == 10 then (DigitsValue(s[..4]), DigitsValue(s[5..7]), DigitsValue(s[8..]))
    else
      var y: int := DigitsValue(s[1..7]);
      var year: int := if s[0] == '-' then -y else y;
      (year, DigitsValue(s[8..10]), DigitsValue(s[11..]))
  }

  /** The day part has no `T`, so the cut at the first `T` keeps exactly it. */
  lemma CalendarDayIsDayText(t: DateTime)
    ensures CalendarDay(t) == DayText(t)
  {
    var d := DayText(t);
    var y := YearText(t.year);
    assert 'T' !in y;
    assert 'T' !in Digits(t.month, 2) && 'T' !in Digits(t.day, 2);
    assert d == y + "-" + Digits(t.month, 2) + "-" + Digits(t.day, 2);
    assert 'T' !in d;
    assert IsoString(t) == d + ['T'] + TimeText(t);
    SplitAfterPiece(d, 'T', TimeText(t));
  }

  /** The day part of a date with a four-digit year is `YYYY-MM-DD`; the year, month and
      day read back from it. */
  lemma ShortDayText(t: DateTime)
    requires 0 <= t.year <= 9999
    ensures |DayText(t)| == 10 && IsDayText(DayText(t))
    ensures DayFields(DayText(t)) == (t.year, t.month, t.day)
  {
    var d := DayText(t);
    assert d[..4] == Digits(t.year, 4);
    assert d[5..7] == Digits(t.month, 2);
    assert d[8..] == Digits(t.day, 2);
    DigitsRoundTrip(t.year, 4);
    DigitsRoundTrip(t.month, 2);
    DigitsRoundTrip(t.day, 2);
  }

  /** The day part of a date with any other year is `±YYYYYY-MM-DD`; the year, month and
      day read back from it. */
  lemma LongDayText(t: DateTime)
    requires !(0 <= t.year <= 9999)
    ensures |DayText(t)| == 13 && IsDayText(DayText(t))
    ensures DayFields(DayText(t)) == (t.year, t.month, t.day)
  {
    var d := DayText(t);
    var a := if t.year < 0 then -t.year else t.year;
    assert d[1..7] == Digits(a, 6);
    assert d[8..10] == Digits(t.month, 2);
    assert d[11..] == Digits(t.day, 2);
    DigitsRoundTrip(a, 6);
    DigitsRoundTrip(t.month, 2);
    DigitsRoundTrip(t.day, 2);
  }

  /** What the date rule stores: a day text from which the date's year, month and day
      read back, ten characters long exactly when the year has four digits. */
  lemma CalendarDayText(t: DateTime)
    ensures IsDayText(CalendarDay(t))
    ensures DayFields(CalendarDay(t)) == (t.year, t.month, t.day)
    ensures 0 <= t.year <= 9999 <==> |CalendarDay(t)| == 10
  {
    CalendarDayIsDayText(t);
    if 0 <= t.year <= 9999 {
      ShortDayText(t);
    } else {
      LongDayText(t);
    }
  }
}
