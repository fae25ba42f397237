/**
 * The hour/minute picker. It holds the selected instant (or none); typing an hour or a
 * minute sets that part of a copy of the instant, clamped to its range, and leaves the
 * other part and the day alone; text that does not parse changes nothing.
 */
module TimePicker {
  import opened Wrappers
  import opened Text
  import opened Clock

  /** `Math.max(lo, Math.min(hi, n))`. */
  function Clamp(n: int, lo: int, hi: int): (c: int)
    requires lo <= hi
    ensures lo <= c <= hi
    ensures lo <= n <= hi ==> c == n
    ensures n < lo ==> c == lo
    ensures n > hi ==> c == hi
  {
    if n < lo then lo else if n > hi then hi else n
  }

  /** `setHours(h)` with one argument: the day, the minutes, seconds and milliseconds stay. */
  function SetHours(t: int, h: int): int {
    StartOfDay(t) + h * MsPerHour + t % MsPerHour
  }

  /** `setMinutes(m)` with one argument: the day, the hour, seconds and milliseconds stay. */
  function SetMinutes(t: int, m: int): int {
    t - t % MsPerHour + m * MsPerMinute + t % MsPerMinute
  }

  /** Setting an hour in range gives that hour, on the same day, with the same minute. */
  lemma SetHoursMeaning(t: int, h: int)
    requires 0 <= h < 24
    ensures HourOf(SetHours(t, h)) == h
    ensures MinuteOf(SetHours(t, h)) == MinuteOf(t)
    ensures DayOf(SetHours(t, h)) == DayOf(t)
  {
    var d, r := t / MsPerDay, t % MsPerHour;
    var s := SetHours(t, h);
    assert s == d * MsPerDay + (h * MsPerHour + r);
    DivUniqueDay(s, d, h * MsPerHour + r);
    DivUniqueHour(h * MsPerHour + r, h, r);
    assert s == (d * 24 + h) * MsPerHour + r;
    DivUniqueHour(s, d * 24 + h, r);
  }

  /** Setting a minute in range gives that minute, on the same day, in the same hour. */
  lemma SetMinutesMeaning(t: int, m: int)
    requires 0 <= m < 60
    ensures MinuteOf(SetMinutes(t, m)) == m
    ensures HourOf(SetMinutes(t, m)) == HourOf(t)
    ensures DayOf(SetMinutes(t, m)) == DayOf(t)
  {
    var d, rd := t / MsPerDay, t % MsPerDay;
    var hq, rh := rd / MsPerHour, rd % MsPerHour;
    ModOfMod(t);
    var x := t % MsPerMinute;
    var s := SetMinutes(t, m);
    assert rh == rh / MsPerMinute * MsPerMinute + rh % MsPerMinute;
    assert x == rh % MsPerMinute by {
      assert t % MsPerHour == rh;
      var k := t / MsPerHour;
      assert t == k * MsPerHour + rh;
      assert t == (k * 60 + rh / MsPerMinute) * MsPerMinute + rh % MsPerMinute;
      DivUniqueMinute(t, k * 60 + rh / MsPerMinute, rh % MsPerMinute);
    }
    var inner := m * MsPerMinute + x;
    assert s == d * MsPerDay + (hq * MsPerHour + inner);
    DivUniqueDay(s, d, hq * MsPerHour + inner);
    DivUniqueHour(hq * MsPerHour + inner, hq, inner);
    assert s == (d * 24 + hq) * MsPerHour + inner;
    DivUniqueHour(s, d * 24 + hq, inner);
    DivUniqueMinute(inner, m, x);
  }

  /** The picker, holding the instant its parent passes in as `date`. */
  class Picker {
    var date: Option<int>

    constructor (initial: Option<int>)
      ensures date == initial
    {
      date := initial;
    }

    /**
     * `handleHourChange` on the field's text, read with `parseInt` (None for NaN), with
     * the current instant used when no date is set.
     */
    method HandleHourChange(text: string, now: int)
      modifies this
      ensures ParseInt(text).None? ==> date == old(date)
      ensures ParseInt(text).Some? ==> date == Some(SetHours(old(date).GetOr(now), Clamp(ParseInt(text).value, 0, 23)))
    {
      var parsed := ParseInt(text);
      if parsed.None? {
        return;
      }
      var newDate := if date.Some? then date.value else now;
      newDate := SetHours(newDate, Clamp(parsed.value, 0, 23));
      date := Some(newDate);
    }

    /** `handleMinuteChange`, likewise. */
    method HandleMinuteChange(text: string, now: int)
      modifies this
      ensures ParseInt(text).None? ==> date == old(date)
      ensures ParseInt(text).Some? ==> date == Some(SetMinutes(old(date).GetOr(now), Clamp(ParseInt(text).value, 0, 59)))
    {
      var parsed := ParseInt(text);
      if parsed.None? {
        return;
      }
      var newDate := if date.Some? then date.value else now;
      newDate := SetMinutes(newDate, Clamp(parsed.value, 0, 59));
      date := Some(newDate);
    }

    /** The hour field's text: two digits, or empty without a date. */
    function HourText(): (s: string)
      reads this
      ensures date.None? ==> s == ""
      ensures date.Some? ==> |s| == 2 && AllDigits(s) && DigitsValue(s) == HourOf(date.value)
    {
      if date.Some? then PadTwo(HourOf(date.value)) else ""
    }

    /** The minute field's text: two digits, or empty without a date. */
    function MinuteText(): (s: string)
      reads this
      ensures date.None? ==> s == ""
      ensures date.Some? ==> |s| == 2 && AllDigits(s) && DigitsValue(s) == MinuteOf(date.value)
    {
      if date.Some? then PadTwo(MinuteOf(date.value)) else ""
    }
  }

  /** After an hour is typed, the picker shows that hour, clamped, and the minute it showed before. */
  lemma HourChangeShows(t: int, n: int)
    ensures HourOf(SetHours(t, Clamp(n, 0, 23))) == Clamp(n, 0, 23)
    ensures MinuteOf(SetHours(t, Clamp(n, 0, 23))) == MinuteOf(t)
  {
    SetHoursMeaning(t, Clamp(n, 0, 23));
  }

  /** After a minute is typed, the picker shows that minute, clamped, and the hour it showed before. */
  lemma MinuteChangeShows(t: int, n: int)
    ensures MinuteOf(SetMinutes(t, Clamp(n, 0, 59))) == Clamp(n, 0, 59)
    ensures HourOf(SetMinutes(t, Clamp(n, 0, 59))) == HourOf(t)
  {
    SetMinutesMeaning(t, Clamp(n, 0, 59));
  }
}
