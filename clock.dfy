/**
 * Instants and times of day. An instant is a number of local wall-clock milliseconds
 * since local midnight of 1970-01-01 (what `getTime()` gives once the time-zone offset
 * is fixed), so the day of an instant and its hours and minutes are plain divisions.
 * Reminder times are the text "HH:MM".
 */
module Clock {
  import opened Wrappers
  import opened JsMath
  import opened Text

  const MsPerMinute := 60000
  const MsPerHour := 3600000
  const MsPerDay := 86400000

  /** Local midnight of the day holding `t` (`setHours(0, 0, 0, 0)`). */
  function StartOfDay(t: int): (s: int)
    ensures s <= t < s + MsPerDay
    ensures s % MsPerDay == 0
  {
    t - t % MsPerDay
  }

  /** The day number of the day holding `t`, as counted by `CalendarDates.DayNumber`. */
  function DayOf(t: int): (n: int)
    ensures n * MsPerDay <= t < n * MsPerDay + MsPerDay
  {
    t / MsPerDay
  }

  /** `getHours()`. */
  function HourOf(t: int): (h: nat)
    ensures h < 24
  {
    t % MsPerDay / MsPerHour
  }

  /** `getMinutes()`. */
  function MinuteOf(t: int): (m: nat)
    ensures m < 60
  {
    t % MsPerHour / MsPerMinute
  }

  /** The hour and minute of an instant name the minute of its day that holds it. */
  lemma HourMinuteOf(t: int)
    ensures StartOfDay(t) + HourOf(t) * MsPerHour + MinuteOf(t) * MsPerMinute <= t
    ensures t < StartOfDay(t) + HourOf(t) * MsPerHour + MinuteOf(t) * MsPerMinute + MsPerMinute
  {
    var r := t % MsPerDay;
    assert r == HourOf(t) * MsPerHour + r % MsPerHour;
    ModOfMod(t);
  }

  lemma ModOfMod(t: int)
    ensures t % MsPerDay % MsPerHour == t % MsPerHour
  {
    var q := t / MsPerDay;
    assert t == q * MsPerDay + t % MsPerDay;
    assert q * MsPerDay == (q * 24) * MsPerHour;
    ShiftMod(t % MsPerDay, q * 24);
  }

  lemma ShiftMod(r: int, k: int)
    ensures (k * MsPerHour + r) % MsPerHour == r % MsPerHour
  {
  }

  lemma DivUniqueDay(n: int, q: int, rem: int)
    requires n == q * MsPerDay + rem && 0 <= rem < MsPerDay
    ensures n / MsPerDay == q && n % MsPerDay == rem
  {
  }

  lemma DivUniqueHour(n: int, q: int, rem: int)
    requires n == q * MsPerHour + rem && 0 <= rem < MsPerHour
    ensures n / MsPerHour == q && n % MsPerHour == rem
  {
  }

  lemma DivUniqueMinute(n: int, q: int, rem: int)
    requires n == q * MsPerMinute + rem && 0 <= rem < MsPerMinute
    ensures n / MsPerMinute == q && n % MsPerMinute == rem
  {
  }

  /** `${hh}:${mm}` with both parts `padStart(2, '0')`. */
  function FormatHHMM(h: nat, m: nat): (s: string)
    requires h < 100 && m < 100
    ensures |s| == 5 && s[2] == ':'
    ensures AllDigits(s[..2]) && DigitsValue(s[..2]) == h
    ensures AllDigits(s[3..]) && DigitsValue(s[3..]) == m
  {
    var hh, mm := PadTwo(h), PadTwo(m);
    assert (hh + ":" + mm)[..2] == hh && (hh + ":" + mm)[3..] == mm;
    hh + ":" + mm
  }

  /**
   * `time.split(':').map(Number)` fed to `setHours(hours, minutes, 0, 0)`: the hour and
   * minute that `setHours` receives after it drops fractions, or None when either is
   * NaN or missing, which leaves the target date invalid.
   */
  function ParseTimeOfDay(time: string): (r: Option<(int, int)>)
    ensures r.Some? ==> r.value.0 >= 0 && r.value.1 >= 0
    ensures ':' !in time ==> r.None?
  {
    var pieces := Split(time, ':');
    if |pieces| < 2 then None
    else
      match (ParseNumber(pieces[0]), ParseNumber(pieces[1]))
      case (Some(h), Some(m)) => Some((Trunc(h), Trunc(m)))
      case _ => None
  }

  /** A formatted time reads back as the hour and minute it was built from. */
  lemma {:induction false} ParseFormatRoundTrip(h: nat, m: nat)
    requires h < 100 && m < 100
    ensures ParseTimeOfDay(FormatHHMM(h, m)) == Some((h, m))
  {
    var hh, mm := PadTwo(h), PadTwo(m);
    assert FormatHHMM(h, m) == hh + [':'] + mm;
    ParseDigitPair(hh, mm);
  }

  lemma {:induction false} ParseDigitPair(a: string, b: string)
    requires a != [] && b != [] && AllDigits(a) && AllDigits(b)
    ensures ParseTimeOfDay(a + [':'] + b) == Some((DigitsValue(a), DigitsValue(b)))
  {
    assert ':' !in a by { assert !IsDigit(':'); }
    assert ':' !in b by { assert !IsDigit(':'); }
    SplitAtOnlySeparator(a, b, ':');
    ParseNumberOfDigits(a);
    ParseNumberOfDigits(b);
    TruncOfInteger(DigitsValue(a));
    TruncOfInteger(DigitsValue(b));
  }

  lemma TruncOfInteger(n: nat)
    ensures Trunc(n as real) == n
  {
  }

  /** `setHours(h, m, 0, 0)` on the day of `now` (out-of-range values carry into the next day). */
  function TimeToday(now: int, h: int, m: int): (t: int)
    ensures t - StartOfDay(now) == h * MsPerHour + m * MsPerMinute
  {
    StartOfDay(now) + h * MsPerHour + m * MsPerMinute
  }

  /** The "HH:MM" of `now` plus `minutes` minutes: what `setMinutes(getMinutes() + minutes)` then formats. */
  function ShiftedTime(now: int, minutes: int): (s: string)
    ensures |s| == 5
  {
    var t := now + minutes * MsPerMinute;
    FormatHHMM(HourOf(t), MinuteOf(t))
  }

  /**
   * The shifted time, set on the day it falls on, is the minute holding `now + minutes`:
   * a snooze past midnight wraps to the early hours.
   */
  lemma {:induction false} ShiftedTimeNamesItsMinute(now: int, minutes: int)
    ensures var t := now + minutes * MsPerMinute;
      ParseTimeOfDay(ShiftedTime(now, minutes)) == Some((HourOf(t), MinuteOf(t))) &&
      TimeToday(t, HourOf(t), MinuteOf(t)) <= t < TimeToday(t, HourOf(t), MinuteOf(t)) + MsPerMinute
  {
    var t := now + minutes * MsPerMinute;
    assert ShiftedTime(now, minutes) == FormatHHMM(HourOf(t), MinuteOf(t));
    ParseFormatRoundTrip(HourOf(t), MinuteOf(t));
    HourMinuteOf(t);
  }
}
