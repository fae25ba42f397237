/**
 * The calendar page: its own copy of the due-on-a-day filter (written with date-fns
 * `addDays` and `isSameDay`), the dot shown on days that have reminders, whether a
 * listed reminder counts as still to take that day, and the refill badge.
 */
module CalendarView {
  import opened Wrappers
  import opened JsMath
  import opened Seqs
  import opened CalendarDates
  import opened Clock
  import opened Reminders
  import Recurrence

  /** date-fns `isSameDay` on two midnights. */
  predicate IsSameDay(a: Day, b: Day) {
    DayNumber(a) == DayNumber(b)
  }

  /** The daily-family length on this page: the same table, written inline. */
  function DurDays(r: Reminder): int {
    if r.duration == Some("7days") then 7
    else if r.duration == Some("14days") then 14
    else if r.duration == Some("30days") then 30
    else if r.duration == Some("90days") then 90
    else if r.duration == Some("custom") && TruthyInt(r.customDuration) then r.customDuration.value
    else 0
  }

  /** The weekly occurrence count on this page, written inline. */
  function Weeks(r: Reminder): int {
    if r.duration == Some("7days") then 1
    else if r.duration == Some("14days") then 2
    else if r.duration == Some("30days") then 4
    else if r.duration == Some("90days") then 12
    else if r.duration == Some("custom") && TruthyInt(r.customDuration) then Ceil(r.customDuration.value as real / 7.0)
    else 0
  }

  /** The monthly occurrence count on this page, written inline. */
  function Months(r: Reminder): int {
    if r.duration == Some("30days") then 1
    else if r.duration == Some("90days") then 3
    else if r.duration == Some("custom") && TruthyInt(r.customDuration) then Ceil(r.customDuration.value as real / 30.0)
    else 0
  }

  /** The page's test for one reminder on the target day. */
  predicate IsDueOnCalendar(r: Reminder, target: Day) {
    if r.startDate.None? then false
    else
      var startDate := r.startDate.value;
      if DayNumber(target) < DayNumber(startDate) then false
      else if r.frequency == "daily" then
        if r.duration == Some("ongoing") then true
        else DayNumber(target) <= DayNumber(AddDays(startDate, DurDays(r) - 1))
      else if r.frequency == "weekly" then
        if Weekday(target) != Weekday(startDate) then false
        else if r.duration == Some("ongoing") then true
        else
          var weekDiff := Floor((DayNumber(target) - DayNumber(startDate)) as real / 7.0);
          weekDiff >= 0 && weekDiff < Weeks(r)
      else if r.frequency == "monthly" then
        if target.day != startDate.day then false
        else if r.duration == Some("ongoing") then true
        else
          var monthDiff := (target.year - startDate.year) * 12 + (target.month - startDate.month);
          monthDiff >= 0 && monthDiff < Months(r)
      else if Recurrence.DailyFamily(r.frequency) then
        if r.duration == Some("ongoing") then true
        else DayNumber(target) <= DayNumber(AddDays(startDate, DurDays(r) - 1))
      else if r.frequency == "once" then IsSameDay(target, startDate)
      else false
  }

  /** The page's `getRemindersForDate(date)`. */
  function CalendarRemindersForDate(rs: seq<Reminder>, date: Day): (out: seq<Reminder>)
    ensures forall i :: 0 <= i < |out| ==> IsDueOnCalendar(out[i], date) && out[i] in rs
    ensures forall i :: 0 <= i < |rs| && IsDueOnCalendar(rs[i], date) ==> rs[i] in out
  {
    Filter(rs, (r: Reminder) => IsDueOnCalendar(r, date))
  }

  /** The two copies decide every reminder alike. */
  lemma SameTest(r: Reminder, date: Day)
    ensures IsDueOnCalendar(r, date) <==> Recurrence.IsDue(r, date)
  {
    if r.startDate.Some? && DayNumber(date) >= DayNumber(r.startDate.value) {
      if r.frequency == "daily" {
        SameDaily(r, date);
      } else if r.frequency == "weekly" {
        SameWeekly(r, date);
      } else if r.frequency == "monthly" {
        SameMonthly(r, date);
      } else if Recurrence.DailyFamily(r.frequency) {
        SameFamily(r, date);
      } else if r.frequency == "once" {
        SameOnce(r, date);
      }
    }
  }

  lemma SameDaily(r: Reminder, date: Day)
    requires r.startDate.Some? && DayNumber(date) >= DayNumber(r.startDate.value) && r.frequency == "daily"
    ensures IsDueOnCalendar(r, date) <==> Recurrence.IsDue(r, date)
  {
    SameTables(r);
  }

  lemma SameWeekly(r: Reminder, date: Day)
    requires r.startDate.Some? && DayNumber(date) >= DayNumber(r.startDate.value) && r.frequency == "weekly"
    ensures IsDueOnCalendar(r, date) <==> Recurrence.IsDue(r, date)
  {
    SameTables(r);
  }

  lemma SameMonthly(r: Reminder, date: Day)
    requires r.startDate.Some? && DayNumber(date) >= DayNumber(r.startDate.value) && r.frequency == "monthly"
    ensures IsDueOnCalendar(r, date) <==> Recurrence.IsDue(r, date)
  {
    SameTables(r);
  }

  lemma SameFamily(r: Reminder, date: Day)
    requires r.startDate.Some? && DayNumber(date) >= DayNumber(r.startDate.value)
    requires Recurrence.DailyFamily(r.frequency) && r.frequency != "daily"
    ensures IsDueOnCalendar(r, date) <==> Recurrence.IsDue(r, date)
  {
    SameTables(r);
  }

  lemma SameOnce(r: Reminder, date: Day)
    requires r.startDate.Some? && DayNumber(date) >= DayNumber(r.startDate.value) && r.frequency == "once"
    ensures IsDueOnCalendar(r, date) <==> Recurrence.IsDue(r, date)
  {
    DayNumberInjective(date, r.startDate.value);
    Recurrence.OnceOnlyOnStart(r, date);
    Recurrence.NotOtherFrequency(r.frequency);
  }

  /** The page's inline tables are the reminder context's tables. */
  lemma SameTables(r: Reminder)
    ensures DurDays(r) == Recurrence.DurationDays(r)
    ensures Weeks(r) == Recurrence.WeeklyOccurrences(r)
    ensures Months(r) == Recurrence.MonthlyOccurrences(r)
  {
  }

  /** The calendar page and the reminder context return the same list for every list and day. */
  lemma {:induction false} CopiesAgree(rs: seq<Reminder>, date: Day)
    ensures CalendarRemindersForDate(rs, date) == Recurrence.RemindersForDate(rs, date)
  {
    if rs != [] {
      SameTest(rs[0], date);
      CopiesAgree(rs[1..], date);
    }
  }

  /** `hasRemindersOnDate(date)`: the day gets a dot. */
  predicate HasRemindersOnDate(rs: seq<Reminder>, date: Day) {
    |CalendarRemindersForDate(rs, date)| > 0
  }

  lemma DotIffSomeDue(rs: seq<Reminder>, date: Day)
    ensures HasRemindersOnDate(rs, date) <==> exists i :: 0 <= i < |rs| && Recurrence.IsDue(rs[i], date)
  {
    CopiesAgree(rs, date);
    var out := CalendarRemindersForDate(rs, date);
    if |out| > 0 {
      assert out[0] in rs;
      SameTest(out[0], date);
    }
    if exists i :: 0 <= i < |rs| && Recurrence.IsDue(rs[i], date) {
      var i :| 0 <= i < |rs| && Recurrence.IsDue(rs[i], date);
      SameTest(rs[i], date);
      assert rs[i] in out;
    }
  }

  /** `isActiveToday`: active, and not already taken on the selected day. */
  predicate IsActiveToday(r: Reminder, selected: Day) {
    r.isActive && (if r.lastTaken.Some? then !(DayOf(r.lastTaken.value) == DayNumber(selected)) else true)
  }

  /** A reminder dismissed at some instant is not "active today" on that instant's day. */
  lemma {:induction false} DismissedNotActiveToday(rs: seq<Reminder>, k: nat, now: int, selected: Day)
    requires UniqueIds(rs) && k < |rs|
    ensures !IsActiveToday(AfterDismiss(rs, rs[k].id, now)[k], selected)
  {
    DismissedContents(rs, k, now);
  }

  /** The refill badge is destructive: both numbers truthy and the supply at or below the threshold. */
  function BadgeDestructive(r: Reminder): (b: bool)
    ensures b ==> r.currentSupply.Some? && r.alertAt.Some? && r.currentSupply.value <= r.alertAt.value
    ensures r.currentSupply == Some(0) || r.alertAt == Some(0) ==> !b
  {
    TruthyInt(r.currentSupply) && TruthyInt(r.alertAt) && r.currentSupply.value <= r.alertAt.value
  }
}
