/**
 * Medication reminders and their history records, and the list operations the reminder
 * store applies to them: look-up by id, replacement by id, deletion by id, the refill
 * filter, and the whole-list results of dismissing and snoozing a reminder.
 */
module Reminders {
  import opened Wrappers
  import opened Seqs
  import opened CalendarDates
  import opened Clock

  /**
   * A reminder. Optional fields are `Option`s; `lastTaken` is an instant, `startDate`
   * the calendar day the ISO start date falls on.
   */
  datatype Reminder = Reminder(
    id: string,
    medicineId: string,
    medicineName: string,
    dosage: string,
    frequency: string,
    time: string,
    isActive: bool,
    lastTaken: Option<int>,
    refillTracking: Option<bool>,
    currentSupply: Option<int>,
    alertAt: Option<int>,
    startDate: Option<Day>,
    duration: Option<string>,
    customDuration: Option<int>)

  datatype Status = Taken | Missed | Snoozed

  /** One response to a reminder; `timestamp` is the instant it was recorded. */
  datatype HistoryEntry = HistoryEntry(id: string, medicineName: string, dosage: string, timestamp: int, status: Status)

  /** The history record `dismissReminder` or `snoozeReminder` writes for `r` at `now`. */
  function Entry(r: Reminder, now: int, status: Status): (e: HistoryEntry)
    ensures e.id == r.id && e.medicineName == r.medicineName && e.dosage == r.dosage
    ensures e.timestamp == now && e.status == status
  {
    HistoryEntry(r.id, r.medicineName, r.dosage, now, status)
  }

  predicate UniqueIds(rs: seq<Reminder>) {
    forall i, j :: 0 <= i < j < |rs| ==> rs[i].id != rs[j].id
  }

  predicate HasId(rs: seq<Reminder>, id: string) {
    exists i :: 0 <= i < |rs| && rs[i].id == id
  }

  /** `reminders.find(r => r.id === id)`: the first record with that id. */
  function FindById(rs: seq<Reminder>, id: string): (r: Option<Reminder>)
    ensures r.Some? <==> HasId(rs, id)
    ensures r.Some? ==> r.value.id == id && r.value in rs
    ensures r.Some? ==> exists k :: 0 <= k < |rs| && rs[k] == r.value && forall j :: 0 <= j < k ==> rs[j].id != id
  {
    match FirstIndex(rs, (x: Reminder) => x.id == id)
    case Some(k) => Some(rs[k])
    case None => None
  }

  /** With distinct ids, the record found is exactly the record that carries the id. */
  lemma FindByIdUnique(rs: seq<Reminder>, k: nat)
    requires UniqueIds(rs) && k < |rs|
    ensures FindById(rs, rs[k].id) == Some(rs[k])
  {
  }

  /** `prev.map(r => r.id === updated.id ? updated : r)`. */
  function ReplaceById(rs: seq<Reminder>, updated: Reminder): (out: seq<Reminder>)
    ensures |out| == |rs|
    ensures forall i :: 0 <= i < |rs| && rs[i].id != updated.id ==> out[i] == rs[i]
    ensures forall i :: 0 <= i < |rs| && rs[i].id == updated.id ==> out[i] == updated
  {
    seq(|rs|, i requires 0 <= i < |rs| => if rs[i].id == updated.id then updated else rs[i])
  }

  /** Replacing keeps every id where it was, so distinct ids stay distinct. */
  lemma ReplaceByIdKeepsIds(rs: seq<Reminder>, updated: Reminder)
    ensures forall i :: 0 <= i < |rs| ==> ReplaceById(rs, updated)[i].id == rs[i].id
    ensures UniqueIds(rs) ==> UniqueIds(ReplaceById(rs, updated))
  {
  }

  /** Replacing a record by an equal one changes nothing. */
  lemma ReplaceByItself(rs: seq<Reminder>, k: nat)
    requires UniqueIds(rs) && k < |rs|
    ensures ReplaceById(rs, rs[k]) == rs
  {
  }

  /** An update whose id is not in the list changes nothing. */
  lemma ReplaceAbsent(rs: seq<Reminder>, updated: Reminder)
    requires !HasId(rs, updated.id)
    ensures ReplaceById(rs, updated) == rs
  {
  }

  /** `prev.filter(r => r.id !== id)`. */
  function WithoutId(rs: seq<Reminder>, id: string): (out: seq<Reminder>)
    ensures forall i :: 0 <= i < |out| ==> out[i].id != id && out[i] in rs
    ensures forall i :: 0 <= i < |rs| && rs[i].id != id ==> rs[i] in out
    ensures !HasId(out, id)
  {
    Filter(rs, (r: Reminder) => r.id != id)
  }

  /** Deleting keeps the other records in their original order. */
  lemma WithoutIdKeepsOrder(rs: seq<Reminder>, id: string)
    ensures IsSubsequence(WithoutId(rs, id), rs)
  {
    FilterIsSubsequence(rs, (r: Reminder) => r.id != id);
  }

  /** `reminders.filter(r => r.refillTracking === true)`. */
  function RefillReminders(rs: seq<Reminder>): (out: seq<Reminder>)
    ensures forall i :: 0 <= i < |out| ==> out[i].refillTracking == Some(true) && out[i] in rs
    ensures forall i :: 0 <= i < |rs| && rs[i].refillTracking == Some(true) ==> rs[i] in out
  {
    Filter(rs, (r: Reminder) => r.refillTracking == Some(true))
  }

  lemma RefillRemindersKeepOrder(rs: seq<Reminder>)
    ensures IsSubsequence(RefillReminders(rs), rs)
  {
    FilterIsSubsequence(rs, (r: Reminder) => r.refillTracking == Some(true));
  }

  /** The record `addReminder` appends: the form data with a fresh id, active. */
  function NewReminder(data: Reminder, newId: string): (r: Reminder)
    ensures r.id == newId && r.isActive
    ensures r.(id := data.id, isActive := data.isActive) == data
  {
    data.(id := newId, isActive := true)
  }

  lemma AddKeepsIdsUnique(rs: seq<Reminder>, data: Reminder, newId: string)
    requires UniqueIds(rs) && !HasId(rs, newId)
    ensures UniqueIds(rs + [NewReminder(data, newId)])
  {
  }

  // ----- dismissReminder -----

  /** The refill branch of `dismissReminder` runs: tracking on and a positive supply. */
  predicate DecrementsSupply(r: Reminder) {
    r.refillTracking == Some(true) && r.currentSupply.Some? && r.currentSupply.value > 0
  }

  /** The low-supply alert: the decremented supply is at or below a defined threshold. */
  predicate LowSupplyAlert(r: Reminder) {
    DecrementsSupply(r) && r.alertAt.Some? && r.currentSupply.value - 1 <= r.alertAt.value
  }

  /** The first pass: every record with the id is marked taken at `now`. */
  function MarkTaken(rs: seq<Reminder>, id: string, now: int): (out: seq<Reminder>)
    ensures |out| == |rs|
    ensures forall i :: 0 <= i < |rs| && rs[i].id != id ==> out[i] == rs[i]
    ensures forall i :: 0 <= i < |rs| && rs[i].id == id ==> out[i] == rs[i].(isActive := false, lastTaken := Some(now))
  {
    seq(|rs|, i requires 0 <= i < |rs| =>
      if rs[i].id == id then rs[i].(isActive := false, lastTaken := Some(now)) else rs[i])
  }

  /** The record the refill branch writes back, built from the one found before the first pass. */
  function Decremented(r: Reminder, now: int): Reminder
    requires r.currentSupply.Some?
  {
    r.(currentSupply := Some(r.currentSupply.value - 1), isActive := false, lastTaken := Some(now))
  }

  /** The reminder list after `dismissReminder(id)` at `now`. */
  function AfterDismiss(rs: seq<Reminder>, id: string, now: int): (out: seq<Reminder>)
    ensures |out| == |rs|
    ensures !HasId(rs, id) ==> out == rs
  {
    match FindById(rs, id)
    case None => rs
    case Some(r) =>
      var marked := MarkTaken(rs, id, now);
      if DecrementsSupply(r) then ReplaceById(marked, Decremented(r, now)) else marked
  }

  /**
   * Dismissing with distinct ids: the record with the id is no longer active, was taken
   * at `now`, and lost exactly one unit of supply when tracking was on and its supply
   * positive, and kept its supply otherwise; every other record is untouched.
   */
  lemma {:induction false} DismissedContents(rs: seq<Reminder>, k: nat, now: int)
    requires UniqueIds(rs) && k < |rs|
    ensures var out := AfterDismiss(rs, rs[k].id, now);
      out[k] == (if DecrementsSupply(rs[k]) then Decremented(rs[k], now) else rs[k].(isActive := false, lastTaken := Some(now))) &&
      forall i :: 0 <= i < |rs| && i != k ==> out[i] == rs[i]
  {
    FindByIdUnique(rs, k);
    var marked := MarkTaken(rs, rs[k].id, now);
    assert marked[k].id == rs[k].id;
    assert forall i :: 0 <= i < |rs| && i != k ==> marked[i] == rs[i];
  }

  /** Dismissing never drives a supply below zero, and lowers it by at most one. */
  lemma {:induction false} DismissedSupply(rs: seq<Reminder>, k: nat, now: int)
    requires UniqueIds(rs) && k < |rs|
    ensures var before, after := rs[k].currentSupply, AfterDismiss(rs, rs[k].id, now)[k].currentSupply;
      after.Some? == before.Some? &&
      (after.Some? ==> (after.value == before.value - 1 <==> DecrementsSupply(rs[k]))) &&
      (after.Some? && after.value != before.value ==> after.value >= 0)
  {
    DismissedContents(rs, k, now);
  }

  /** With duplicate ids, the first pass still marks every copy taken. */
  lemma {:induction false} DismissedMarksEveryCopy(rs: seq<Reminder>, id: string, now: int)
    requires HasId(rs, id)
    ensures var out := AfterDismiss(rs, id, now);
      forall i :: 0 <= i < |rs| && rs[i].id == id ==> !out[i].isActive && out[i].lastTaken == Some(now)
  {
  }

  // ----- snoozeReminder -----

  /** The record `snoozeReminder` writes: active, its time moved to now plus `minutes`. */
  function SnoozedRecord(r: Reminder, minutes: int, now: int): (s: Reminder)
    ensures s.isActive && s.time == ShiftedTime(now, minutes)
    ensures s.(isActive := r.isActive, time := r.time) == r
  {
    r.(isActive := true, time := ShiftedTime(now, minutes))
  }

  /** The reminder list after `snoozeReminder(id, minutes)` at `now`. */
  function AfterSnooze(rs: seq<Reminder>, id: string, minutes: int, now: int): (out: seq<Reminder>)
    ensures |out| == |rs|
    ensures !HasId(rs, id) ==> out == rs
  {
    match FindById(rs, id)
    case None => rs
    case Some(r) => ReplaceById(rs, SnoozedRecord(r, minutes, now))
  }

  /**
   * Snoozing with distinct ids changes only the snoozed record, and only its activity and
   * its time, which then names the minute holding `now + minutes`.
   */
  lemma {:induction false} SnoozedContents(rs: seq<Reminder>, k: nat, minutes: int, now: int)
    requires UniqueIds(rs) && k < |rs|
    ensures var out := AfterSnooze(rs, rs[k].id, minutes, now);
      var t := now + minutes * MsPerMinute;
      out[k] == rs[k].(isActive := true, time := ShiftedTime(now, minutes)) &&
      ParseTimeOfDay(out[k].time) == Some((HourOf(t), MinuteOf(t))) &&
      forall i :: 0 <= i < |rs| && i != k ==> out[i] == rs[i]
  {
    FindByIdUnique(rs, k);
    ShiftedTimeNamesItsMinute(now, minutes);
  }
}
