/**
 * Dates and times as the back office uses them: a calendar date, its weekday
 * (Monday is 0, as Python's `date.weekday()`), instants as whole minutes since
 * 1970-01-01 00:00 (naive local time), and the "HH:MM" rendering of an instant.
 */
module Calendar {
  import opened Wrappers

  datatype Date = Date(year: int, month: int, day: int)

  const MinutesPerHour := 60
  const MinutesPerDay := 1440

  /** Days from 1970-01-01 to `d` in the proleptic Gregorian calendar. */
  function DayNumber(d: Date): int
  {
    var y := if d.month <= 2 then d.year - 1 else d.year;
    var era := y / 400;
    var yearOfEra := y - era * 400;
    var shiftedMonth := if d.month > 2 then d.month - 3 else d.month + 9;
    var dayOfYear := (153 * shiftedMonth + 2) / 5 + d.day - 1;
    var dayOfEra := yearOfEra * 365 + yearOfEra / 4 - yearOfEra / 100 + dayOfYear;
    era * 146097 + dayOfEra - 719468
  }

  /** The weekday of `d`, Monday = 0 ... Sunday = 6 (1970-01-01 was a Thursday). */
  function Weekday(d: Date): (w: int)
    ensures 0 <= w < 7
    // The defining equation, kept so callers need not unfold the body;
    // `EpochIsDayZero` and `WeekdayNext` carry its meaning.
    ensures w == (DayNumber(d) + 3) % 7
  {
    (DayNumber(d) + 3) % 7
  }

  /** The instant at `minuteOfDay` minutes after midnight of `d`. */
  function At(d: Date, minuteOfDay: int): int
  {
    DayNumber(d) * MinutesPerDay + minuteOfDay
  }

  /** The time of day of an instant, in minutes after midnight. */
  function MinuteOfDay(t: int): (m: int)
    ensures 0 <= m < MinutesPerDay
    ensures (t - m) % MinutesPerDay == 0
  {
    t % MinutesPerDay
  }

  lemma AtMinuteOfDay(d: Date, m: int)
    requires 0 <= m < MinutesPerDay
    ensures MinuteOfDay(At(d, m)) == m
  {
    var n := DayNumber(d);
    assert At(d, m) == n * MinutesPerDay + m;
  }

  const Digits := "0123456789"

  function DigitValue(c: char): (r: Option<int>)
    ensures r.Some? ==> 0 <= r.value < 10 && Digits[r.value] == c
  {
    if '0' <= c <= '9' then Some(c as int - '0' as int) else None
  }

  /** Two-digit, zero-padded rendering of `n` (strftime's `%H` and `%M`). */
  function TwoDigits(n: int): (s: string)
    requires 0 <= n < 100
    ensures |s| == 2
    ensures DigitValue(s[0]) == Some(n / 10) && DigitValue(s[1]) == Some(n % 10)
  {
    [Digits[n / 10], Digits[n % 10]]
  }

  /** Reads back a two-digit field written by `TwoDigits`. */
  function ParseTwoDigits(s: string): Option<int>
    requires |s| == 2
  {
    match (DigitValue(s[0]), DigitValue(s[1]))
    case (Some(hi), Some(lo)) => Some(10 * hi + lo)
    case _ => None
  }

  /** Reads back an "HH:MM" string as minutes after midnight. */
  function ParseHourMinute(s: string): Option<int>
  {
    if |s| != 5 || s[2] != ':' then None
    else match (ParseTwoDigits(s[..2]), ParseTwoDigits(s[3..]))
      case (Some(h), Some(m)) =>
        if h < 24 && m < MinutesPerHour then Some(h * MinutesPerHour + m) else None
      case _ => None
  }

  /**
   * strftime('%H:%M') of an instant. Reading it back gives exactly the time
   * of day, so the rendering loses nothing but the date.
   */
  function HourMinute(t: int): (s: string)
    ensures |s| == 5 && s[2] == ':'
    ensures ParseHourMinute(s) == Some(MinuteOfDay(t))
  {
    var m := MinuteOfDay(t);
    var h, mm := m / MinutesPerHour, m % MinutesPerHour;
    var s := TwoDigits(h) + ":" + TwoDigits(mm);
    assert s[..2] == TwoDigits(h) && s[3..] == TwoDigits(mm);
    assert ParseTwoDigits(s[..2]) == Some(h) by {
      assert 10 * (h / 10) + h % 10 == h;
    }
    assert ParseTwoDigits(s[3..]) == Some(mm) by {
      assert 10 * (mm / 10) + mm % 10 == mm;
    }
    assert h * MinutesPerHour + mm == m;
    s
  }

  /** Leap years of the Gregorian calendar. */
  predicate IsLeap(y: int)
  {
    y % 4 == 0 && (y % 100 != 0 || y % 400 == 0)
  }

  /** The length of month `m` of year `y`. */
  function DaysInMonth(y: int, m: int): int
  {
    if m == 2 then (if IsLeap(y) then 29 else 28)
    else if m == 4 || m == 6 || m == 9 || m == 11 then 30
    else 31
  }

  /** A date that exists in the calendar. */
  predicate ValidDate(d: Date)
  {
    1 <= d.month <= 12 && 1 <= d.day <= DaysInMonth(d.year, d.month)
  }

  /** The following calendar day. */
  function NextDay(d: Date): Date
  {
    if d.day < DaysInMonth(d.year, d.month) then Date(d.year, d.month, d.day + 1)
    else if d.month < 12 then Date(d.year, d.month + 1, 1)
    else Date(d.year + 1, 1, 1)
  }

  /** The day number of 1 March of year `y`, where `DayNumber` starts its year. */
  function MarchFirst(y: int): int
  {
    var era := y / 400;
    var yearOfEra := y - era * 400;
    era * 146097 + yearOfEra * 365 + yearOfEra / 4 - yearOfEra / 100 - 719468
  }

  /** Division is determined by quotient and remainder. */
  lemma DivMod(a: int, b: int, q: int, r: int)
    requires b > 0 && 0 <= r < b && a == b * q + r
    ensures a / b == q && a % b == r
  {
    var k := q - a / b;
    assert b * k == a % b - r;
  }

  /** Stepping the dividend by one steps the quotient exactly when it reaches a multiple. */
  lemma DivStep(x: int, b: int)
    requires b > 0
    ensures (x + 1) / b == x / b + (if (x + 1) % b == 0 then 1 else 0)
  {
    DivMod(x, b, x / b, x % b);
    if x % b < b - 1 {
      DivMod(x + 1, b, x / b, x % b + 1);
    } else {
      DivMod(x + 1, b, x / b + 1, 0);
    }
  }

  /** Within one 400-year era, the leap-day count grows by one exactly at a leap year. */
  lemma LeapDaysStep(yoe: int)
    requires 0 <= yoe < 399
    ensures (yoe + 1) / 4 - (yoe + 1) / 100 - (yoe / 4 - yoe / 100)
            == if (yoe + 1) % 4 == 0 && (yoe + 1) % 100 != 0 then 1 else 0
  {
    DivStep(yoe, 4);
    DivStep(yoe, 100);
    if (yoe + 1) % 100 == 0 {
      DivMod(yoe + 1, 100, (yoe + 1) / 100, 0);
      DivMod(yoe + 1, 4, 25 * ((yoe + 1) / 100), 0);
    }
  }

  /** A year counted from 1 March to the end of February has 365 days, or 366 when that February is a leap one. */
  lemma {:induction false} MarchFirstStep(y: int)
    ensures MarchFirst(y + 1) == MarchFirst(y) + 365 + (if IsLeap(y + 1) then 1 else 0)
  {
    var era := y / 400;
    var yoe := y - era * 400;
    assert 0 <= yoe < 400;
    if yoe < 399 {
      DivMod(y + 1, 400, era, yoe + 1);
      DivMod(y + 1, 4, 100 * era + (yoe + 1) / 4, (yoe + 1) % 4);
      DivMod(y + 1, 100, 4 * era + (yoe + 1) / 100, (yoe + 1) % 100);
      LeapDaysStep(yoe);
    } else {
      DivMod(y + 1, 400, era + 1, 0);
      DivMod(y + 1, 4, 100 * (era + 1), 0);
    }
  }

  /** Day numbers count from 1970-01-01, a Thursday (weekday 3). */
  lemma EpochIsDayZero()
    ensures DayNumber(Date(1970, 1, 1)) == 0 && Weekday(Date(1970, 1, 1)) == 3
  {
  }

  /** The year `DayNumber` counts in: one that starts on 1 March. */
  function ShiftedYear(d: Date): int
  {
    if d.month <= 2 then d.year - 1 else d.year
  }

  /** Days from 1 March to the first of month `m`. */
  function MonthStart(m: int): int
  {
    (153 * (if m > 2 then m - 3 else m + 9) + 2) / 5
  }

  /** A day number is the start of its March-based year plus the month's offset plus the day. */
  lemma DayNumberSplit(d: Date)
    ensures DayNumber(d) == MarchFirst(ShiftedYear(d)) + MonthStart(d.month) + d.day - 1
  {
  }

  /** A month's length separates its first day from the next month's. */
  lemma MonthLengths(y: int, m: int)
    requires 1 <= m <= 12
    ensures m != 2 && m != 12 ==> MonthStart(m + 1) == MonthStart(m) + DaysInMonth(y, m)
    ensures MonthStart(12) + DaysInMonth(y, 12) == MonthStart(1)
    ensures MonthStart(2) + DaysInMonth(y, 2) == 365 + (if IsLeap(y) then 1 else 0)
  {
  }

  /** The day after a valid date is valid and has the next day number. */
  lemma NextDayNumber(d: Date)
    requires ValidDate(d)
    ensures ValidDate(NextDay(d))
    ensures DayNumber(NextDay(d)) == DayNumber(d) + 1
  {
    var e := NextDay(d);
    DayNumberSplit(d);
    DayNumberSplit(e);
    MonthLengths(d.year, d.month);
    if d.day == DaysInMonth(d.year, d.month) && d.month == 2 {
      MarchFirstStep(d.year - 1);
    }
  }

  /** Consecutive days have consecutive weekdays, Sunday (6) being followed by Monday (0). */
  lemma WeekdayNext(d: Date)
    requires ValidDate(d)
    ensures Weekday(NextDay(d)) == (Weekday(d) + 1) % 7
  {
    NextDayNumber(d);
    var n := DayNumber(d) + 3;
    DivMod(n, 7, n / 7, n % 7);
    if n % 7 < 6 {
      DivMod(n + 1, 7, n / 7, n % 7 + 1);
    } else {
      DivMod(n + 1, 7, n / 7 + 1, 0);
    }
  }
}
