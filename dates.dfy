/**
 * Calendar days in the proleptic Gregorian calendar, as JavaScript `Date` objects set to
 * local midnight denote them. A day is a valid (year, month, day-of-month) triple, with
 * months numbered 1 to 12 (JavaScript's `getMonth()` is that number minus one; only
 * differences of months are ever used). `DayNumber` counts days from 1970-01-01, so
 * comparing two midnights compares their day numbers, and `getDay()` is the day number
 * shifted by four (1970-01-01 was a Thursday) modulo seven.
 */
module CalendarDates {
  import opened JsMath
  import opened Text

  datatype Date = Date(year: int, month: int, day: int)

  predicate IsLeapYear(y: int) {
    y % 4 == 0 && (y % 100 != 0 || y % 400 == 0)
  }

  function DaysInMonth(y: int, m: int): (n: int)
    ensures 28 <= n <= 31
  {
    if m == 2 then (if IsLeapYear(y) then 29 else 28)
    else if m == 4 || m == 6 || m == 9 || m == 11 then 30
    else 31
  }

  predicate Valid(d: Date) {
    1 <= d.month <= 12 && 1 <= d.day <= DaysInMonth(d.year, d.month)
  }

  /** A calendar day. */
  type Day = d: Date | Valid(d) witness Date(1970, 1, 1)

  function DaysInYear(y: int): int {
    if IsLeapYear(y) then 366 else 365
  }

  /** Leap years among 1 .. y-1 (for years before 1, the same count shifted). */
  function LeapYearsBefore(y: int): int {
    (y - 1) / 4 - (y - 1) / 100 + (y - 1) / 400
  }

  /** The day number of January 1st of year `y`. */
  function YearStart(y: int): int {
    365 * (y - 1970) + LeapYearsBefore(y) - LeapYearsBefore(1970)
  }

  lemma YearStartStep(y: int)
    ensures YearStart(y + 1) == YearStart(y) + DaysInYear(y)
  {
    DivStep4(y);
    DivStep100(y);
    DivStep400(y);
    Divides(y);
  }

  lemma DivStep4(y: int)
    ensures y / 4 - (y - 1) / 4 == if y % 4 == 0 then 1 else 0
  {
  }

  lemma DivStep100(y: int)
    ensures y / 100 - (y - 1) / 100 == if y % 100 == 0 then 1 else 0
  {
  }

  lemma DivStep400(y: int)
    ensures y / 400 - (y - 1) / 400 == if y % 400 == 0 then 1 else 0
  {
  }

  lemma Divides(y: int)
    ensures y % 100 == 0 ==> y % 4 == 0
    ensures y % 400 == 0 ==> y % 100 == 0
  {
  }

  lemma {:induction false} YearStartMonotone(a: int, b: int)
    requires a < b
    ensures YearStart(a + 1) <= YearStart(b)
    decreases b - a
  {
    if a + 1 < b {
      YearStartMonotone(a, b - 1);
      YearStartStep(b - 1);
    }
  }

  /** Days of year `y` before the first of month `m`. */
  function DaysBeforeMonth(y: int, m: int): (n: int)
    requires 1 <= m <= 12
    ensures 0 <= n && n + DaysInMonth(y, m) <= DaysInYear(y)
  {
    var leap := if IsLeapYear(y) && m > 2 then 1 else 0;
    leap + (
      if m == 1 then 0 else if m == 2 then 31 else if m == 3 then 59
      else if m == 4 then 90 else if m == 5 then 120 else if m == 6 then 151
      else if m == 7 then 181 else if m == 8 then 212 else if m == 9 then 243
      else if m == 10 then 273 else if m == 11 then 304 else 334)
  }

  lemma MonthOrder(y: int, m1: int, m2: int)
    requires 1 <= m1 < m2 <= 12
    ensures DaysBeforeMonth(y, m1) + DaysInMonth(y, m1) <= DaysBeforeMonth(y, m2)
  {
  }

  /** Days from 1970-01-01 to `d`: the day's midnight is `DayNumber(d) * 86400000` local milliseconds. */
  function DayNumber(d: Day): (n: int)
    ensures YearStart(d.year) <= n < YearStart(d.year) + DaysInYear(d.year)
  {
    YearStart(d.year) + DaysBeforeMonth(d.year, d.month) + d.day - 1
  }

  /** `getDay()`: 0 is Sunday, 1 Monday, ..., 6 Saturday. */
  function Weekday(d: Day): (w: int)
    ensures 0 <= w < 7
  {
    (DayNumber(d) + 4) % 7
  }

  /** Moving `k` days moves the weekday by `k` modulo seven. */
  lemma WeekdayShift(d: Day, r: Day, k: int)
    requires DayNumber(r) == DayNumber(d) + k
    ensures Weekday(r) == (Weekday(d) + k) % 7
  {
    ShiftMod7(DayNumber(d), k);
  }

  lemma ShiftMod7(n: int, k: int)
    ensures (n + k + 4) % 7 == ((n + 4) % 7 + k) % 7
  {
  }

  lemma CloseAndCongruent(x: int, y: int)
    requires x % 7 == y % 7 && x - 7 < y < x + 7
    ensures x == y
  {
  }

  /** Calendar order agrees with day-number order. */
  predicate LexLeq(a: Date, b: Date) {
    a.year < b.year || (a.year == b.year && (a.month < b.month || (a.month == b.month && a.day <= b.day)))
  }

  lemma DayNumberOrder(a: Day, b: Day)
    ensures DayNumber(a) <= DayNumber(b) <==> LexLeq(a, b)
  {
    if a.year < b.year {
      YearStartStep(a.year);
      YearStartMonotone(a.year, b.year);
    } else if b.year < a.year {
      YearStartStep(b.year);
      YearStartMonotone(b.year, a.year);
    } else if a.month < b.month {
      MonthOrder(a.year, a.month, b.month);
    } else if b.month < a.month {
      MonthOrder(a.year, b.month, a.month);
    }
  }

  /** Two midnights are the same instant only when they are the same calendar day. */
  lemma DayNumberInjective(a: Day, b: Day)
    ensures DayNumber(a) == DayNumber(b) <==> a == b
  {
    DayNumberOrder(a, b);
    DayNumberOrder(b, a);
  }

  /** The months from `b`'s month to `a`'s month, as `(y1 - y0) * 12 + (m1 - m0)`. */
  function MonthDiff(a: Day, b: Day): int {
    (a.year - b.year) * 12 + (a.month - b.month)
  }

  lemma MonthDiffNonNegative(a: Day, b: Day)
    requires DayNumber(b) <= DayNumber(a)
    ensures MonthDiff(a, b) >= 0
  {
    DayNumberOrder(b, a);
  }

  function NextDay(d: Day): (r: Day)
    ensures DayNumber(r) == DayNumber(d) + 1
  {
    if d.day < DaysInMonth(d.year, d.month) then Date(d.year, d.month, d.day + 1)
    else if d.month < 12 then Date(d.year, d.month + 1, 1)
    else
      YearStartStep(d.year);
      Date(d.year + 1, 1, 1)
  }

  function PrevDay(d: Day): (r: Day)
    ensures DayNumber(r) == DayNumber(d) - 1
  {
    if d.day > 1 then Date(d.year, d.month, d.day - 1)
    else if d.month > 1 then Date(d.year, d.month - 1, DaysInMonth(d.year, d.month - 1))
    else
      YearStartStep(d.year - 1);
      Date(d.year - 1, 12, 31)
  }

  /** date-fns `addDays`, and `setDate(getDate() + k)` on a midnight. */
  function AddDays(d: Day, k: int): (r: Day)
    ensures DayNumber(r) == DayNumber(d) + k
    decreases if k >= 0 then k else -k
  {
    if k == 0 then d
    else if k > 0 then AddDays(NextDay(d), k - 1)
    else AddDays(PrevDay(d), k + 1)
  }

  /** date-fns `startOfWeek(d, { weekStartsOn: 1 })`: the Monday on or before `d`. */
  function MondayOf(d: Day): (r: Day)
    ensures Weekday(r) == 1
    ensures DayNumber(r) <= DayNumber(d) < DayNumber(r) + 7
  {
    var day := Weekday(d);
    var diff := (if day < 1 then 7 else 0) + day - 1;
    MondayArithmetic(DayNumber(d));
    AddDays(d, -diff)
  }

  lemma MondayArithmetic(n: int)
    ensures var day := (n + 4) % 7;
      var diff := (if day < 1 then 7 else 0) + day - 1;
      0 <= diff < 7 && (n - diff + 4) % 7 == 1
  {
  }

  lemma MondayOfMonday(d: Day)
    requires Weekday(d) == 1
    ensures MondayOf(d) == d
  {
  }

  /** Every day of a Monday-to-Sunday week has the same week start. */
  lemma {:induction false} MondayOfSameWeek(a: Day, b: Day)
    requires DayNumber(MondayOf(a)) <= DayNumber(b) < DayNumber(MondayOf(a)) + 7
    ensures MondayOf(b) == MondayOf(a)
  {
    var ma, mb := MondayOf(a), MondayOf(b);
    CloseAndCongruent(DayNumber(ma) + 4, DayNumber(mb) + 4);
    DayNumberInjective(ma, mb);
  }

  /** date-fns `subWeeks(d, 1)`. */
  function PreviousWeek(d: Day): (r: Day)
    ensures DayNumber(r) == DayNumber(d) - 7
    ensures Weekday(r) == Weekday(d)
  {
    var r := AddDays(d, -7);
    WeekEarlier(r, d);
    r
  }

  lemma WeekEarlier(a: Day, b: Day)
    requires DayNumber(a) == DayNumber(b) - 7
    ensures Weekday(a) == Weekday(b)
  {
    var m, n := DayNumber(a), DayNumber(b);
    assert (m + 4) % 7 == (n + 4) % 7 by { SevenApart(m, n); }
  }

  lemma SevenApart(m: int, n: int)
    requires m == n - 7
    ensures (m + 4) % 7 == (n + 4) % 7
  {
  }

  /** date-fns `differenceInWeeks(later, earlier)`: whole weeks between two midnights, rounded towards zero. */
  function DifferenceInWeeks(later: Day, earlier: Day): (w: int)
    ensures DayNumber(earlier) <= DayNumber(later) ==> 7 * w <= DayNumber(later) - DayNumber(earlier) < 7 * w + 7
  {
    Trunc((DayNumber(later) - DayNumber(earlier)) as real / 7.0)
  }

  /** date-fns `MMM` for month `m`. */
  function MonthAbbrev(m: int): (s: string)
    requires 1 <= m <= 12
    ensures |s| == 3
  {
    if m == 1 then "Jan" else if m == 2 then "Feb" else if m == 3 then "Mar"
    else if m == 4 then "Apr" else if m == 5 then "May" else if m == 6 then "Jun"
    else if m == 7 then "Jul" else if m == 8 then "Aug" else if m == 9 then "Sep"
    else if m == 10 then "Oct" else if m == 11 then "Nov" else "Dec"
  }

  /** date-fns `MMM d`. */
  function MonthDay(d: Day): string {
    MonthAbbrev(d.month) + " " + NatToString(d.day)
  }

  /** date-fns `yyyy` (years from 0 to 9999 have four digits). */
  function YearText(y: int): (s: string)
    ensures 0 <= y <= 9999 ==> |s| == 4 && AllDigits(s)
  {
    if y < 0 then "-" + PadStart(NatToString(-y), 4, '0')
    else
      var s := PadStart(NatToString(y), 4, '0');
      NatToStringLength(y);
      s
  }

  lemma {:induction false} NatToStringLength(n: nat)
    ensures n <= 9999 ==> |NatToString(n)| <= 4
  {
    if n >= 10 {
      NatToStringLength(n / 10);
    }
  }
}
