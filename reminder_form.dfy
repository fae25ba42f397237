/**
 * The add/edit reminder form: its fields, the alert-threshold error the form keeps in
 * step with the supply fields, the catalogue selection, and the submit handler, which
 * validates, builds the reminder record and hands it to the reminder store.
 */
module ReminderForm {
  import opened Wrappers
  import opened JsMath
  import opened Text
  import opened CalendarDates
  import opened Clock
  import opened Reminders
  import opened MedicineSearch
  import ReminderStore

  /** The form's time of day: unset, a valid instant, or the invalid date `setHours(NaN, …)` leaves. */
  datatype TimeField = NoTime | At(instant: int) | InvalidTime

  datatype FormFields = FormFields(
    medicineId: string,
    medicineName: string,
    dosage: string,
    frequency: string,
    duration: string,
    customDuration: int,
    startDate: Day,
    time: TimeField,
    refillTracking: bool,
    currentSupply: int,
    alertAt: int)

  datatype FormError = NameMissing | DosageMissing | AlertAboveSupply

  datatype SubmitOutcome = Rejected(error: FormError) | Added | Updated

  /** `s || fallback` for a string. */
  function OrDefault(s: string, fallback: string): (r: string)
    ensures r == (if s == [] then fallback else s)
    ensures r != [] <== fallback != []
  {
    if s != [] then s else fallback
  }

  /**
   * The opening state of the form: the edited reminder's values, falling back to the
   * defaults (`daily`, `ongoing`, 30 days, a supply of 30, an alert at 5, today, the
   * current instant) where a value is missing or falsy.
   */
  function InitialFields(editing: Option<Reminder>, today: Day, now: int): (f: FormFields)
    ensures editing.None? ==> f == FormFields("", "", "", "daily", "ongoing", 30, today, At(now), false, 30, 5)
    ensures f.frequency != [] && f.duration != []
    ensures editing.Some? && editing.value.time != [] ==>
      match ParseTimeOfDay(editing.value.time)
      case Some((h, m)) => f.time == At(TimeToday(now, h, m))
      case None => f.time == InvalidTime
  {
    match editing
    case None => FormFields("", "", "", "daily", "ongoing", 30, today, At(now), false, 30, 5)
    case Some(e) =>
      FormFields(
        e.medicineId,
        e.medicineName,
        e.dosage,
        OrDefault(e.frequency, "daily"),
        OrDefault(e.duration.GetOr(""), "ongoing"),
        if TruthyInt(e.customDuration) then e.customDuration.value else 30,
        e.startDate.GetOr(today),
        if e.time == [] then At(now)
        else match ParseTimeOfDay(e.time)
          case Some((h, m)) => At(TimeToday(now, h, m))
          case None => InvalidTime,
        e.refillTracking == Some(true),
        if TruthyInt(e.currentSupply) then e.currentSupply.value else 30,
        if TruthyInt(e.alertAt) then e.alertAt.value else 5)
  }

  /** The effect on the supply fields: an error message exactly when the threshold exceeds the supply. */
  function AlertError(f: FormFields): (e: Option<string>)
    ensures e.Some? <==> f.alertAt > f.currentSupply
  {
    if f.alertAt > f.currentSupply then Some("Alert threshold must be less than or equal to current supply") else None
  }

  /** The submit button is disabled while the threshold error shows and refill tracking is on. */
  predicate SubmitDisabled(f: FormFields) {
    AlertError(f).Some? && f.refillTracking
  }

  /**
   * With a name and a dosage filled in, the button is disabled by the supply effect
   * exactly when the submit handler would reject the threshold itself.
   */
  lemma DisabledIffThresholdRejected(f: FormFields)
    requires !IsBlank(f.medicineName) && !IsBlank(f.dosage)
    ensures SubmitDisabled(f) <==> Validate(f) == Some(AlertAboveSupply)
  {
  }

  /** The ordered checks of `handleSubmit`; the first that fails is reported. */
  function Validate(f: FormFields): (e: Option<FormError>)
    ensures e == Some(NameMissing) <==> IsBlank(f.medicineName)
    ensures e == Some(DosageMissing) <==> !IsBlank(f.medicineName) && IsBlank(f.dosage)
    ensures e == Some(AlertAboveSupply) <==> !IsBlank(f.medicineName) && !IsBlank(f.dosage) && f.refillTracking && f.alertAt > f.currentSupply
    ensures e.None? <==> !IsBlank(f.medicineName) && !IsBlank(f.dosage) && !SubmitDisabled(f)
  {
    if IsBlank(f.medicineName) then Some(NameMissing)
    else if IsBlank(f.dosage) then Some(DosageMissing)
    else if f.refillTracking && f.alertAt > f.currentSupply then Some(AlertAboveSupply)
    else None
  }

  /** `getTimeString()`: "HH:MM" of the form's time, "08:00" when unset. */
  function GetTimeString(t: TimeField): (s: string)
    ensures t.NoTime? ==> ParseTimeOfDay(s) == Some((8, 0))
    ensures t.At? ==> ParseTimeOfDay(s) == Some((HourOf(t.instant), MinuteOf(t.instant)))
    ensures t.InvalidTime? ==> s == "NaN:NaN"
  {
    match t
    case NoTime =>
      ParseFormatRoundTrip(8, 0);
      FormatHHMM(8, 0)
    case At(instant) =>
      ParseFormatRoundTrip(HourOf(instant), MinuteOf(instant));
      FormatHHMM(HourOf(instant), MinuteOf(instant))
    case InvalidTime => "NaN:NaN"
  }

  /**
   * `reminderData`: the record the form hands over. The id and the activity flag are
   * not part of it (`addReminder` supplies them), so they hold placeholders here.
   */
  function ReminderData(f: FormFields): (r: Reminder)
    ensures r.medicineId == f.medicineId && r.medicineName == f.medicineName && r.dosage == f.dosage
    ensures r.frequency == f.frequency && r.time == GetTimeString(f.time)
    ensures r.startDate == Some(f.startDate) && r.duration == Some(f.duration) && r.lastTaken.None?
    ensures r.refillTracking == Some(f.refillTracking)
    ensures r.currentSupply.Some? <==> f.refillTracking
    ensures r.alertAt.Some? <==> f.refillTracking
    ensures f.refillTracking ==> r.currentSupply == Some(f.currentSupply) && r.alertAt == Some(f.alertAt)
    ensures r.customDuration.Some? <==> f.duration == "custom"
    ensures f.duration == "custom" ==> r.customDuration == Some(f.customDuration)
  {
    Reminder(
      "", f.medicineId, f.medicineName, f.dosage, f.frequency, GetTimeString(f.time), false, None,
      Some(f.refillTracking),
      if f.refillTracking then Some(f.currentSupply) else None,
      if f.refillTracking then Some(f.alertAt) else None,
      Some(f.startDate),
      Some(f.duration),
      if f.duration == "custom" then Some(f.customDuration) else None)
  }

  /** `{ ...editingReminder, ...reminderData }`: every key of the form data overrides the edited record. */
  function EditedRecord(editing: Reminder, f: FormFields): (r: Reminder)
    ensures r == ReminderData(f).(id := editing.id, isActive := editing.isActive, lastTaken := editing.lastTaken)
  {
    var d := ReminderData(f);
    editing.(medicineId := d.medicineId, medicineName := d.medicineName, dosage := d.dosage,
             time := d.time, frequency := d.frequency, refillTracking := d.refillTracking,
             currentSupply := d.currentSupply, alertAt := d.alertAt, startDate := d.startDate,
             duration := d.duration, customDuration := d.customDuration)
  }

  /** `handleMedicineSelect(id)`: a catalogue id copies that medicine's name; "custom" or an unknown id keeps the name. */
  function SelectMedicine(f: FormFields, catalogue: seq<Medicine>, id: string): (g: FormFields)
    ensures g.medicineId == id
    ensures id != "custom" && FindMedicine(catalogue, id).Some? ==> g.medicineName == FindMedicine(catalogue, id).value.name
    ensures id == "custom" || FindMedicine(catalogue, id).None? ==> g.medicineName == f.medicineName
    ensures g.(medicineId := f.medicineId, medicineName := f.medicineName) == f
  {
    var f1 := f.(medicineId := id);
    if id != "custom" then
      match FindMedicine(catalogue, id)
      case Some(m) => f1.(medicineName := m.name)
      case None => f1
    else f1
  }

  /** The form component: its fields, the reminder being edited (if any), and whether it is still open. */
  class ReminderFormPage {
    var fields: FormFields
    const editing: Option<Reminder>
    var open: bool

    constructor (editingReminder: Option<Reminder>, today: Day, now: int)
      ensures fields == InitialFields(editingReminder, today, now)
      ensures editing == editingReminder && open
    {
      fields := InitialFields(editingReminder, today, now);
      editing := editingReminder;
      open := true;
    }

    method HandleMedicineSelect(catalogue: seq<Medicine>, id: string)
      modifies this
      ensures fields == SelectMedicine(old(fields), catalogue, id) && open == old(open)
    {
      fields := fields.(medicineId := id);
      if id != "custom" {
        var selected := FindMedicine(catalogue, id);
        if selected.Some? {
          fields := fields.(medicineName := selected.value.name);
        }
      }
    }

    /**
     * `handleSubmit`: a failed check reports its error and touches nothing; otherwise the
     * edited reminder is replaced (when editing) or a new one is added (`newId` standing
     * for the generated id), exactly one of the two, and then the form is closed.
     */
    method HandleSubmit(store: ReminderStore.Store, newId: string) returns (outcome: SubmitOutcome)
      modifies this, store
      ensures fields == old(fields) && store.history == old(store.history)
      ensures Validate(fields).Some? ==>
        outcome == Rejected(Validate(fields).value) && store.reminders == old(store.reminders) && open == old(open)
      ensures Validate(fields).None? && editing.Some? ==>
        outcome == Updated && !open &&
        store.reminders == ReplaceById(old(store.reminders), EditedRecord(editing.value, fields))
      ensures Validate(fields).None? && editing.None? ==>
        outcome == Added && !open &&
        store.reminders == old(store.reminders) + [NewReminder(ReminderData(fields), newId)]
    {
      if IsBlank(fields.medicineName) {
        return Rejected(NameMissing);
      }
      if IsBlank(fields.dosage) {
        return Rejected(DosageMissing);
      }
      if fields.refillTracking && fields.alertAt > fields.currentSupply {
        return Rejected(AlertAboveSupply);
      }
      var reminderData := ReminderData(fields);
      if editing.Some? {
        store.UpdateReminder(EditedRecord(editing.value, fields));
        outcome := Updated;
      } else {
        store.AddReminder(reminderData, newId);
        outcome := Added;
      }
      open := false;
    }
  }

  /** The record an edit stores keeps the edited reminder's id, so the store replaces exactly that reminder. */
  lemma {:induction false} EditReplacesTheEditedReminder(rs: seq<Reminder>, k: nat, f: FormFields)
    requires UniqueIds(rs) && k < |rs|
    ensures var out := ReplaceById(rs, EditedRecord(rs[k], f));
      out[k].id == rs[k].id && out[k].isActive == rs[k].isActive && out[k].lastTaken == rs[k].lastTaken &&
      out[k].time == GetTimeString(f.time) && UniqueIds(out) &&
      forall i :: 0 <= i < |rs| && i != k ==> out[i] == rs[i]
  {
    ReplaceByIdKeepsIds(rs, EditedRecord(rs[k], f));
  }
}
