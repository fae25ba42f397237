/**
 * The reminder context's state: the reminder list and the response history, and the
 * operations that rewrite them. One run of the periodic check is `CheckReminders` with
 * the current instant passed in; a fired reminder is reported by id instead of sounding
 * an alarm.
 */
module ReminderStore {
  import opened Wrappers
  import opened Seqs
  import opened Clock
  import opened Reminders

  /** How long after `lastTaken` a reminder stays quiet, in milliseconds. */
  const DebounceMs := 120000

  /**
   * One reminder passes the check at `now`: it is active, its time parses, `now` lies in
   * the minute starting at today's HH:MM, and it was not taken in the last two minutes.
   */
  predicate ShouldFire(r: Reminder, now: int) {
    r.isActive &&
    match ParseTimeOfDay(r.time)
    case None => false
    case Some((h, m)) =>
      var target := TimeToday(now, h, m);
      0 <= now - target < MsPerMinute && NotTakenLately(r, now)
  }

  /** Never taken, or taken more than two minutes before `now`. */
  predicate NotTakenLately(r: Reminder, now: int) {
    r.lastTaken.None? || now - r.lastTaken.value > DebounceMs
  }

  /** A reminder taken at most two minutes ago stays quiet, whatever its time says. */
  lemma TakenLatelyNeverFires(r: Reminder, now: int)
    requires r.lastTaken.Some? && now - r.lastTaken.value <= DebounceMs
    ensures !ShouldFire(r, now)
  {
  }

  /** An inactive reminder never fires. */
  lemma InactiveNeverFires(r: Reminder, now: int)
    requires !r.isActive
    ensures !ShouldFire(r, now)
  {
  }

  /**
   * An active reminder set for "HH:MM" and not taken lately fires exactly during the
   * minute starting at HH:MM of the current day.
   */
  lemma {:induction false} FiresDuringItsMinute(r: Reminder, h: nat, m: nat, now: int)
    requires r.isActive && h < 24 && m < 60 && r.time == FormatHHMM(h, m) && NotTakenLately(r, now)
    ensures ShouldFire(r, now) <==> HourOf(now) == h && MinuteOf(now) == m
  {
    ParseFormatRoundTrip(h, m);
    FireWindow(r, h, m, now);
    MinuteWindow(now, h, m);
  }

  lemma FireWindow(r: Reminder, h: int, m: int, now: int)
    requires r.isActive && ParseTimeOfDay(r.time) == Some((h, m)) && NotTakenLately(r, now)
    ensures ShouldFire(r, now) <==> 0 <= now - TimeToday(now, h, m) < MsPerMinute
  {
  }

  /** `now` lies in the minute starting at today's h:m exactly when its hour is h and its minute m. */
  lemma MinuteWindow(t: int, h: nat, m: nat)
    requires h < 24 && m < 60
    ensures 0 <= t - TimeToday(t, h, m) < MsPerMinute <==> HourOf(t) == h && MinuteOf(t) == m
  {
    HourMinuteOf(t);
    var x := t - TimeToday(t, h, m);
    if 0 <= x < MsPerMinute {
      var r := t % MsPerDay;
      assert r == h * MsPerHour + (m * MsPerMinute + x);
      DivUniqueHour(r, h, m * MsPerMinute + x);
      ModOfMod(t);
      DivUniqueMinute(t % MsPerHour, m, x);
    }
  }

  /**
   * Firing does not touch `lastTaken`, so a reminder that is not dismissed fires again on
   * the next check thirty seconds later, while still inside its minute.
   */
  lemma {:induction false} FiresOnTwoChecks(r: Reminder, h: nat, m: nat, day: int)
    requires r.isActive && h < 24 && m < 60 && ParseTimeOfDay(r.time) == Some((h, m)) && r.lastTaken.None?
    ensures var t := day * MsPerDay + h * MsPerHour + m * MsPerMinute;
      ShouldFire(r, t + 10000) && ShouldFire(r, t + 40000)
  {
    InsideMinute(r, day, h, m, 10000);
    InsideMinute(r, day, h, m, 40000);
  }

  lemma InsideMinute(r: Reminder, day: int, h: nat, m: nat, x: int)
    requires r.isActive && h < 24 && m < 60 && ParseTimeOfDay(r.time) == Some((h, m)) && r.lastTaken.None?
    requires 0 <= x < MsPerMinute
    ensures ShouldFire(r, day * MsPerDay + h * MsPerHour + m * MsPerMinute + x)
  {
    var t := day * MsPerDay + h * MsPerHour + m * MsPerMinute + x;
    DayStart(day, h * MsPerHour + m * MsPerMinute + x);
    FireWindow(r, h, m, t);
  }

  lemma DayStart(day: int, offset: int)
    requires 0 <= offset < MsPerDay
    ensures StartOfDay(day * MsPerDay + offset) == day * MsPerDay
  {
  }

  /** The ids of the reminders one check fires, in list order. */
  function FiredIds(snapshot: seq<Reminder>, now: int): (ids: seq<string>)
    ensures |ids| <= |snapshot|
    ensures forall i :: 0 <= i < |snapshot| && ShouldFire(snapshot[i], now) ==> snapshot[i].id in ids
    ensures forall x :: x in ids ==> exists i :: 0 <= i < |snapshot| && snapshot[i].id == x && ShouldFire(snapshot[i], now)
  {
    IdsWhere(snapshot, (r: Reminder) => ShouldFire(r, now))
  }

  /** The ids of the records that pass `p`, in list order. */
  function IdsWhere(rs: seq<Reminder>, p: Reminder -> bool): (ids: seq<string>)
    ensures |ids| <= |rs|
    ensures forall i :: 0 <= i < |rs| && p(rs[i]) ==> rs[i].id in ids
    ensures forall x :: x in ids ==> exists i :: 0 <= i < |rs| && rs[i].id == x && p(rs[i])
  {
    if rs == [] then []
    else
      var last := rs[|rs| - 1];
      var rest := IdsWhere(rs[..|rs| - 1], p);
      assert forall i :: 0 <= i < |rs| - 1 ==> rs[..|rs| - 1][i] == rs[i];
      if p(last) then rest + [last.id] else rest
  }

  /** The list after the check has written back, one by one, each fired record with `isActive` set. */
  function AfterChecks(state: seq<Reminder>, snapshot: seq<Reminder>, now: int): (out: seq<Reminder>)
    ensures |out| == |state|
  {
    if snapshot == [] then state
    else
      var last := snapshot[|snapshot| - 1];
      var before := AfterChecks(state, snapshot[..|snapshot| - 1], now);
      if ShouldFire(last, now) then ReplaceById(before, last.(isActive := true)) else before
  }

  /** One more record of the snapshot checked: its id is fired and it is written back exactly when it passes. */
  lemma CheckStep(snapshot: seq<Reminder>, i: nat, now: int)
    requires i < |snapshot|
    ensures FiredIds(snapshot[..i + 1], now) ==
      FiredIds(snapshot[..i], now) + (if ShouldFire(snapshot[i], now) then [snapshot[i].id] else [])
    ensures forall state: seq<Reminder> {:trigger AfterChecks(state, snapshot[..i + 1], now)} ::
      AfterChecks(state, snapshot[..i + 1], now) ==
      if ShouldFire(snapshot[i], now) then ReplaceById(AfterChecks(state, snapshot[..i], now), snapshot[i].(isActive := true))
      else AfterChecks(state, snapshot[..i], now)
  {
    assert snapshot[..i + 1][..i] == snapshot[..i];
  }

  /** Only active reminders fire, so with distinct ids the write-back leaves the list as it was. */
  lemma {:induction false} ChecksChangeNothing(rs: seq<Reminder>, k: nat, now: int)
    requires UniqueIds(rs) && k <= |rs|
    ensures AfterChecks(rs, rs[..k], now) == rs
  {
    if k > 0 {
      assert rs[..k][..k - 1] == rs[..k - 1];
      ChecksChangeNothing(rs, k - 1, now);
      var last := rs[k - 1];
      if ShouldFire(last, now) {
        assert last.(isActive := true) == last;
        ReplaceByItself(rs, k - 1);
      }
    }
  }

  /** The history after a dismissal or snooze of `id`: one entry in front when the id is known. */
  function HistoryAfter(rs: seq<Reminder>, history: seq<HistoryEntry>, id: string, now: int, status: Status): (out: seq<HistoryEntry>)
    ensures !HasId(rs, id) ==> out == history
    ensures HasId(rs, id) ==> |out| == |history| + 1 && out[1..] == history && out[0].id == id && out[0].status == status && out[0].timestamp == now
  {
    match FindById(rs, id)
    case None => history
    case Some(r) => [Entry(r, now, status)] + history
  }

  class Store {
    var reminders: seq<Reminder>
    var history: seq<HistoryEntry>

    /** An empty store (nothing restored from storage). */
    constructor ()
      ensures reminders == [] && history == []
    {
      reminders := [];
      history := [];
    }

    /** `getReminderById(id)`. */
    function GetReminderById(id: string): (r: Option<Reminder>)
      reads this
      ensures r.Some? ==> r.value in reminders && r.value.id == id
      ensures r.None? <==> !HasId(reminders, id)
    {
      FindById(reminders, id)
    }

    /** `getRefillReminders()`. */
    function GetRefillReminders(): (out: seq<Reminder>)
      reads this
      ensures forall i :: 0 <= i < |out| ==> out[i].refillTracking == Some(true) && out[i] in reminders
      ensures forall i :: 0 <= i < |reminders| && reminders[i].refillTracking == Some(true) ==> reminders[i] in out
    {
      RefillReminders(reminders)
    }

    /** `addReminder(data)`, with `newId` standing for the generated uuid. */
    method AddReminder(data: Reminder, newId: string)
      modifies this
      ensures reminders == old(reminders) + [data.(id := newId, isActive := true)]
      ensures history == old(history)
    {
      reminders := reminders + [NewReminder(data, newId)];
    }

    /** `updateReminder(updated)`. */
    method UpdateReminder(updated: Reminder)
      modifies this
      ensures reminders == ReplaceById(old(reminders), updated)
      ensures history == old(history)
    {
      reminders := ReplaceById(reminders, updated);
    }

    /** Puts the history record of a response to `r` in front of the history. */
    method RecordResponse(r: Reminder, now: int, status: Status)
      modifies this
      ensures history == [Entry(r, now, status)] + old(history)
      ensures reminders == old(reminders)
    {
      history := [Entry(r, now, status)] + history;
    }

    /** `deleteReminder(id)`. */
    method DeleteReminder(id: string)
      modifies this
      ensures reminders == WithoutId(old(reminders), id)
      ensures history == old(history)
    {
      reminders := WithoutId(reminders, id);
    }

    /**
     * `dismissReminder(id)` at `now`. An unknown id changes nothing; otherwise one "taken"
     * entry goes to the front of the history and the list becomes `AfterDismiss`. The result
     * is the low-supply warning.
     */
    method DismissReminder(id: string, now: int) returns (lowSupplyWarning: bool)
      modifies this
      ensures history == HistoryAfter(old(reminders), old(history), id, now, Taken)
      ensures reminders == AfterDismiss(old(reminders), id, now)
      ensures lowSupplyWarning <==> old(FindById(reminders, id)).Some? && LowSupplyAlert(old(FindById(reminders, id)).value)
    {
      var found := FindById(reminders, id);
      if found.None? {
        return false;
      }
      var r := found.value;
      RecordResponse(r, now, Taken);
      reminders := MarkTaken(reminders, id, now);
      lowSupplyWarning := false;
      if r.refillTracking == Some(true) && r.currentSupply.Some? && r.currentSupply.value > 0 {
        var newSupply := r.currentSupply.value - 1;
        var updated := r.(currentSupply := Some(newSupply), isActive := false, lastTaken := Some(now));
        if r.alertAt.Some? && newSupply <= r.alertAt.value {
          lowSupplyWarning := true;
        }
        UpdateReminder(updated);
      }
    }

    /**
     * `snoozeReminder(id, minutes)` at `now`. An unknown id changes nothing; otherwise one
     * "snoozed" entry goes to the front of the history and the list becomes `AfterSnooze`.
     */
    method SnoozeReminder(id: string, minutes: int, now: int)
      modifies this
      ensures history == HistoryAfter(old(reminders), old(history), id, now, Snoozed)
      ensures reminders == AfterSnooze(old(reminders), id, minutes, now)
    {
      var rs := reminders;
      var found := FindById(rs, id);
      if found.Some? {
        var r := found.value;
        RecordResponse(r, now, Snoozed);
        UpdateReminder(SnoozedRecord(r, minutes, now));
      }
    }

    /**
     * One run of `checkReminders` at `now`: every reminder of the list as it stood when the
     * check began that passes `ShouldFire` is fired, and written back with `isActive` set.
     */
    method CheckReminders(now: int) returns (fired: seq<string>)
      modifies this
      ensures fired == FiredIds(old(reminders), now)
      ensures reminders == AfterChecks(old(reminders), old(reminders), now)
      ensures history == old(history)
    {
      var snapshot := reminders;
      fired := [];
      var i := 0;
      while i < |snapshot|
        invariant 0 <= i <= |snapshot|
        invariant fired == FiredIds(snapshot[..i], now)
        invariant reminders == AfterChecks(snapshot, snapshot[..i], now)
        invariant history == old(history)
      {
        var r := snapshot[i];
        CheckStep(snapshot, i, now);
        if ShouldFire(r, now) {
          fired := fired + [r.id];
          UpdateReminder(r.(isActive := true));
        }
        i := i + 1;
      }
      assert snapshot[..i] == snapshot;
    }
  }

  /** With distinct ids, a check leaves the reminder list exactly as it was. */
  lemma CheckLeavesListUnchanged(rs: seq<Reminder>, now: int)
    requires UniqueIds(rs)
    ensures AfterChecks(rs, rs, now) == rs
  {
    ChecksChangeNothing(rs, |rs|, now);
    assert rs[..|rs|] == rs;
  }
}
