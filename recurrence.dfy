/**
 * Which reminders are due on a calendar day (the reminder context's
 * `getRemindersForDate`): a reminder with a start day is due on days from that start
 * on, according to its frequency and its duration.
 */
module Recurrence {
  import opened Wrappers
  import opened JsMath
  import opened Seqs
  import opened CalendarDates
  import opened Reminders

  /** The frequencies handled like `daily`. */
  predicate DailyFamily(f: string) {
    f == "daily" || f == "twice_daily" || f == "every_morning" || f == "every_evening" || f == "every_8h" || f == "every_12h"
  }

  predicate Ongoing(r: Reminder) {
    r.duration == Some("ongoing")
  }

  predicate CustomWithLength(r: Reminder) {
    r.duration == Some("custom") && TruthyInt(r.customDuration)
  }

  /** The day count of a daily reminder: the duration table, 0 for anything else. */
  function DurationDays(r: Reminder): (n: int)
    ensures r.duration == Some("7days") ==> n == 7
    ensures r.duration == Some("14days") ==> n == 14
    ensures r.duration == Some("30days") ==> n == 30
    ensures r.duration == Some("90days") ==> n == 90
    ensures CustomWithLength(r) ==> n == r.customDuration.value
    ensures !FixedDuration(r) ==> n == 0
  {
    if r.duration == Some("7days") then 7
    else if r.duration == Some("14days") then 14
    else if r.duration == Some("30days") then 30
    else if r.duration == Some("90days") then 90
    else if CustomWithLength(r) then r.customDuration.value
    else 0
  }

  /** A duration the tables give a length to. */
  predicate FixedDuration(r: Reminder) {
    r.duration == Some("7days") || r.duration == Some("14days") || r.duration == Some("30days")
    || r.duration == Some("90days") || CustomWithLength(r)
  }

  /** The number of weekly occurrences: 1, 2, 4, 12, or `ceil(N / 7)` for a custom N days. */
  function WeeklyOccurrences(r: Reminder): (n: int)
    ensures r.duration == Some("7days") ==> n == 1
    ensures r.duration == Some("14days") ==> n == 2
    ensures r.duration == Some("30days") ==> n == 4
    ensures r.duration == Some("90days") ==> n == 12
    ensures CustomWithLength(r) ==> 7 * n - 7 < r.customDuration.value <= 7 * n
    ensures !FixedDuration(r) ==> n == 0
  {
    if r.duration == Some("7days") then 1
    else if r.duration == Some("14days") then 2
    else if r.duration == Some("30days") then 4
    else if r.duration == Some("90days") then 12
    else if CustomWithLength(r) then Ceil(r.customDuration.value as real / 7.0)
    else 0
  }

  /** The number of monthly occurrences: 1 for 30 days, 3 for 90 days, `ceil(N / 30)` for a custom N, else 0. */
  function MonthlyOccurrences(r: Reminder): (n: int)
    ensures r.duration == Some("30days") ==> n == 1
    ensures r.duration == Some("90days") ==> n == 3
    ensures CustomWithLength(r) ==> 30 * n - 30 < r.customDuration.value <= 30 * n
    ensures !(r.duration == Some("30days") || r.duration == Some("90days") || CustomWithLength(r)) ==> n == 0
  {
    if r.duration == Some("30days") then 1
    else if r.duration == Some("90days") then 3
    else if CustomWithLength(r) then Ceil(r.customDuration.value as real / 30.0)
    else 0
  }

  /** Whole weeks from `start` to `date`: `Math.floor(ms difference / ms per week)`. */
  function WeekDiff(date: Day, start: Day): int {
    Floor((DayNumber(date) - DayNumber(start)) as real / 7.0)
  }

  /** The filter's test for one reminder on `date`. */
  predicate IsDue(r: Reminder, date: Day) {
    match r.startDate
    case None => false
    case Some(start) =>
      if DayNumber(date) < DayNumber(start) then false
      else if r.frequency == "daily" then
        Ongoing(r) || DayNumber(date) <= DayNumber(AddDays(start, DurationDays(r) - 1))
      else if r.frequency == "weekly" then
        if Weekday(date) != Weekday(start) then false
        else
          var weekDiff := WeekDiff(date, start);
          Ongoing(r) || (weekDiff >= 0 && weekDiff < WeeklyOccurrences(r))
      else if r.frequency == "monthly" then
        if date.day != start.day then false
        else
          var monthDiff := MonthDiff(date, start);
          Ongoing(r) || (monthDiff >= 0 && monthDiff < MonthlyOccurrences(r))
      else if DailyFamily(r.frequency) then
        Ongoing(r) || DayNumber(date) <= DayNumber(AddDays(start, DurationDays(r) - 1))
      else if r.frequency == "once" then
        date.year == start.year && date.month == start.month && date.day == start.day
      else false
  }

  /** `getRemindersForDate(date)`. */
  function RemindersForDate(rs: seq<Reminder>, date: Day): (out: seq<Reminder>)
    ensures forall i :: 0 <= i < |out| ==> IsDue(out[i], date) && out[i] in rs
    ensures forall i :: 0 <= i < |rs| && IsDue(rs[i], date) ==> rs[i] in out
  {
    Filter(rs, (r: Reminder) => IsDue(r, date))
  }

  lemma RemindersForDateKeepOrder(rs: seq<Reminder>, date: Day)
    ensures IsSubsequence(RemindersForDate(rs, date), rs)
  {
    FilterIsSubsequence(rs, (r: Reminder) => IsDue(r, date));
  }

  // ----- what the tables mean -----

  /** Without a start day, or before it, nothing is due; `as_needed` and unknown frequencies never are. */
  lemma NeverDue(r: Reminder, date: Day)
    ensures r.startDate.None? ==> !IsDue(r, date)
    ensures r.startDate.Some? && DayNumber(date) < DayNumber(r.startDate.value) ==> !IsDue(r, date)
    ensures !(DailyFamily(r.frequency) || r.frequency in ["weekly", "monthly", "once"]) ==> !IsDue(r, date)
  {
  }

  /** `once` is due on its start day and no other. */
  lemma OnceOnlyOnStart(r: Reminder, date: Day)
    requires r.frequency == "once" && r.startDate.Some?
    ensures IsDue(r, date) <==> date == r.startDate.value
  {
    var start := r.startDate.value;
    NotOtherFrequency(r.frequency);
    if date != start {
      assert !(date.year == start.year && date.month == start.month && date.day == start.day);
    }
  }

  /** `once` is not one of the frequencies the filter tests before it. */
  lemma NotOtherFrequency(f: string)
    requires f == "once"
    ensures f != "daily" && f != "weekly" && f != "monthly" && !DailyFamily(f)
  {
  }

  /**
   * The daily family: `ongoing` is due on every day from the start; a duration of N days
   * is due exactly on the start day and the N - 1 days after it; any other duration (or a
   * missing one) is never due.
   */
  lemma DailyDue(r: Reminder, date: Day)
    requires DailyFamily(r.frequency) && r.startDate.Some?
    ensures var s, d := DayNumber(r.startDate.value), DayNumber(date);
      if Ongoing(r) then IsDue(r, date) <==> s <= d
      else IsDue(r, date) <==> s <= d < s + DurationDays(r)
    ensures !Ongoing(r) && !FixedDuration(r) ==> !IsDue(r, date)
  {
  }

  lemma SameWeekday(a: Day, b: Day)
    ensures Weekday(a) == Weekday(b) <==> (DayNumber(a) - DayNumber(b)) % 7 == 0
  {
    SameMod7(DayNumber(a), DayNumber(b));
  }

  lemma SameMod7(x: int, y: int)
    ensures (x + 4) % 7 == (y + 4) % 7 <==> (x - y) % 7 == 0
  {
  }

  lemma FloorOfSevenths(n: int)
    requires n >= 0
    ensures Floor(n as real / 7.0) == n / 7
  {
  }

  /**
   * Weekly: due only on the start's weekday; unless `ongoing`, exactly on the first
   * `WeeklyOccurrences` of those days, that is the start day plus 7k days for k below
   * the number of occurrences.
   */
  lemma {:induction false} WeeklyDue(r: Reminder, date: Day)
    requires r.frequency == "weekly" && r.startDate.Some?
    ensures var s, d := DayNumber(r.startDate.value), DayNumber(date);
      if Ongoing(r) then IsDue(r, date) <==> s <= d && (d - s) % 7 == 0
      else IsDue(r, date) <==> s <= d && (d - s) % 7 == 0 && (d - s) / 7 < WeeklyOccurrences(r)
  {
    var start := r.startDate.value;
    var s, d := DayNumber(start), DayNumber(date);
    SameWeekday(date, start);
    if s <= d {
      FloorOfSevenths(d - s);
    }
  }

  /** Monthly: due only on the start's day of the month; unless `ongoing`, in the first `MonthlyOccurrences` months. */
  lemma {:induction false} MonthlyDue(r: Reminder, date: Day)
    requires r.frequency == "monthly" && r.startDate.Some?
    ensures var start := r.startDate.value;
      if Ongoing(r) then IsDue(r, date) <==> DayNumber(start) <= DayNumber(date) && date.day == start.day
      else IsDue(r, date) <==> DayNumber(start) <= DayNumber(date) && date.day == start.day && MonthDiff(date, start) < MonthlyOccurrences(r)
  {
    var start := r.startDate.value;
    if DayNumber(start) <= DayNumber(date) {
      MonthDiffNonNegative(date, start);
    }
  }

  /** A monthly reminder with a week-long, two-week or unknown duration is never due, not even on its start day. */
  lemma MonthlyShortNeverDue(r: Reminder, date: Day)
    requires r.frequency == "monthly" && !Ongoing(r)
    requires !(r.duration == Some("30days") || r.duration == Some("90days") || CustomWithLength(r))
    ensures !IsDue(r, date)
  {
  }

  /** A monthly reminder lasting 30 days is due on its start day only. */
  lemma {:induction false} MonthlyThirtyDaysOnlyStart(r: Reminder, date: Day)
    requires r.frequency == "monthly" && r.startDate.Some? && r.duration == Some("30days")
    ensures IsDue(r, date) <==> date == r.startDate.value
  {
    var start := r.startDate.value;
    if date == start {
      assert IsDue(r, date);
    }
    if IsDue(r, date) {
      MonthDiffNonNegative(date, start);
      assert MonthDiff(date, start) == 0;
    }
  }
}
