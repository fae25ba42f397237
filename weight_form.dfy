/**
 * The weekly weight form: one weight per Monday-to-Sunday week. The selected day picks a
 * week; submitting a valid weight updates the entry already recorded in that week or adds
 * a new one dated on the week's Monday.
 */
module WeightWeekForm {
  import opened Wrappers
  import opened Text
  import opened Seqs
  import opened CalendarDates
  import opened WeightData
  import opened WeightEntries

  /**
   * The weight the form accepts: `!weight || isNaN(Number(weight)) || Number(weight) <= 0`
   * rejects the text, anything else gives the number.
   */
  function ValidWeight(w: string): (v: Option<real>)
    ensures v.Some? <==> w != "" && ParseNumber(w).Some? && ParseNumber(w).value > 0.0
    ensures v.Some? ==> v == ParseNumber(w)
  {
    if w == "" then None
    else match ParseNumber(w)
      case None => None
      case Some(x) => if x <= 0.0 then None else Some(x)
  }

  /** A positive whole number of kilograms written in digits is accepted as its value. */
  lemma DigitsAccepted(w: string)
    requires w != [] && AllDigits(w) && DigitsValue(w) > 0
    ensures ValidWeight(w) == Some(DigitsValue(w) as real)
  {
    ParseNumberOfDigits(w);
  }

  /** Zero, the empty text and text with a letter in it are all refused. */
  lemma RefusedWeights()
    ensures ValidWeight("").None? && ValidWeight("0").None? && ValidWeight("7a").None?
  {
    assert ParseNumber("0") == Some(0.0) by { ParseNumberOfDigits("0"); }
    assert DigitRun("7a") == 1 by { assert DigitRun("a") == 0; assert "7a"[1..] == "a"; }
  }

  /** An entry belongs to the week starting on `weekStart` when its own date's Monday is that day. */
  predicate InWeek(e: WeightEntry, weekStart: Day) {
    MondayOf(e.weekStart) == weekStart
  }

  /** An entry matches the selected week exactly when its date lies in that Monday-to-Sunday week. */
  lemma {:induction false} InWeekMeaning(e: WeightEntry, selected: Day)
    ensures InWeek(e, MondayOf(selected)) <==>
      DayNumber(MondayOf(selected)) <= DayNumber(e.weekStart) < DayNumber(MondayOf(selected)) + 7
  {
    if DayNumber(MondayOf(selected)) <= DayNumber(e.weekStart) < DayNumber(MondayOf(selected)) + 7 {
      MondayOfSameWeek(selected, e.weekStart);
    }
  }

  /** `selectedWeekEntry`: the first entry recorded in the week. */
  function SelectedWeekEntry(entries: seq<WeightEntry>, weekStart: Day): (r: Option<WeightEntry>)
    ensures r.Some? ==> r.value in entries && InWeek(r.value, weekStart)
    ensures r.None? ==> forall i :: 0 <= i < |entries| ==> !InWeek(entries[i], weekStart)
    ensures r.Some? ==> exists k :: 0 <= k < |entries| && entries[k] == r.value &&
                                  forall j :: 0 <= j < k ==> !InWeek(entries[j], weekStart)
  {
    match FirstIndex(entries, (e: WeightEntry) => InWeek(e, weekStart))
    case Some(k) => Some(entries[k])
    case None => None
  }

  /** `hasEntryForSelectedWeek()`: some entry is recorded in the week. */
  predicate HasEntryForWeek(entries: seq<WeightEntry>, weekStart: Day) {
    exists i :: 0 <= i < |entries| && InWeek(entries[i], weekStart)
  }

  lemma HasEntryIffSelected(entries: seq<WeightEntry>, weekStart: Day)
    ensures HasEntryForWeek(entries, weekStart) <==> SelectedWeekEntry(entries, weekStart).Some?
  {
    var r := SelectedWeekEntry(entries, weekStart);
    if r.Some? {
      var k :| 0 <= k < |entries| && entries[k] == r.value && forall j :: 0 <= j < k ==> !InWeek(entries[j], weekStart);
      assert InWeek(entries[k], weekStart);
    }
  }

  /**
   * The entry list after a valid submit of weight `v` for the week: the week's entry with
   * its weight replaced, or a new entry on the week's Monday in front; unchanged when
   * nobody is signed in or the database call failed.
   */
  function Upserted(entries: seq<WeightEntry>, weekStart: Day, v: real, user: Option<string>, newId: string, ok: bool): seq<WeightEntry> {
    if user.None? || !ok then entries
    else match SelectedWeekEntry(entries, weekStart)
      case Some(e) => ReplaceEntry(entries, e.(weightKg := v))
      case None => [WeightEntry(newId, user.value, weekStart, v)] + entries
  }

  lemma UpsertedFound(entries: seq<WeightEntry>, weekStart: Day, v: real, user: Option<string>, newId: string, ok: bool, e: WeightEntry)
    requires SelectedWeekEntry(entries, weekStart) == Some(e)
    ensures Upserted(entries, weekStart, v, user, newId, ok) == if user.None? || !ok then entries else ReplaceEntry(entries, e.(weightKg := v))
  {
  }

  lemma UpsertedMissing(entries: seq<WeightEntry>, weekStart: Day, v: real, user: Option<string>, newId: string, ok: bool)
    requires SelectedWeekEntry(entries, weekStart).None?
    ensures Upserted(entries, weekStart, v, user, newId, ok) == if user.None? || !ok then entries else [WeightEntry(newId, user.value, weekStart, v)] + entries
  {
  }

  /** After a stored submit the week has an entry, and the one found for it carries the new weight. */
  lemma {:induction false} UpsertRecordsWeight(entries: seq<WeightEntry>, weekStart: Day, v: real, u: string, newId: string)
    requires Weekday(weekStart) == 1
    ensures var out := Upserted(entries, weekStart, v, Some(u), newId, true);
      SelectedWeekEntry(out, weekStart).Some? && SelectedWeekEntry(out, weekStart).value.weightKg == v
  {
    match SelectedWeekEntry(entries, weekStart)
    case Some(e) => UpdateRecordsWeight(entries, weekStart, e, v);
    case None =>
      MondayOfMonday(weekStart);
      var x := WeightEntry(newId, u, weekStart, v);
      assert InWeek(([x] + entries)[0], weekStart);
  }

  lemma {:induction false} UpdateRecordsWeight(entries: seq<WeightEntry>, weekStart: Day, e: WeightEntry, v: real)
    requires SelectedWeekEntry(entries, weekStart) == Some(e)
    ensures SelectedWeekEntry(ReplaceEntry(entries, e.(weightKg := v)), weekStart) == Some(e.(weightKg := v))
  {
    var e' := e.(weightKg := v);
    var out := ReplaceEntry(entries, e');
    var p := (x: WeightEntry) => InWeek(x, weekStart);
    var k := FirstIndex(entries, p).value;
    assert entries[k] == e && e'.weekStart == e.weekStart;
    assert forall i :: 0 <= i < |entries| ==> out[i] == entries[i] || out[i] == e';
    FirstIndexOfReplaced(entries, out, p, k, e');
  }

  /** Updating the week's entry changes only its weight: every entry keeps its id, user and date. */
  lemma UpdateChangesOnlyWeight(entries: seq<WeightEntry>, weekStart: Day, v: real, u: string, newId: string)
    requires UniqueEntryIds(entries) && SelectedWeekEntry(entries, weekStart).Some?
    ensures var out := Upserted(entries, weekStart, v, Some(u), newId, true);
      |out| == |entries| &&
      forall i :: 0 <= i < |entries| ==> out[i].(weightKg := entries[i].weightKg) == entries[i]
  {
    var e := SelectedWeekEntry(entries, weekStart).value;
    ReplaceOnlyWeight(entries, e, v);
  }

  lemma ReplaceOnlyWeight(entries: seq<WeightEntry>, e: WeightEntry, v: real)
    requires UniqueEntryIds(entries) && e in entries
    ensures var out := ReplaceEntry(entries, e.(weightKg := v));
      forall i :: 0 <= i < |entries| ==> out[i].(weightKg := entries[i].weightKg) == entries[i]
  {
  }

  datatype SubmitCall = NoCall | UpdateCall(updated: WeightEntry) | AddCall(entry: NewEntry)

  class WeightForm {
    var weight: string
    var selectedWeek: Day
    var calendarOpen: bool

    /** The form opens on `today`, with no weight typed and the calendar closed. */
    constructor (today: Day)
      ensures weight == "" && selectedWeek == today && !calendarOpen
    {
      weight := "";
      selectedWeek := today;
      calendarOpen := false;
    }

    /** `weekStart`: the Monday on or before the selected day. */
    function WeekStart(): (m: Day)
      reads this`selectedWeek
      ensures Weekday(m) == 1
      ensures DayNumber(m) <= DayNumber(selectedWeek) < DayNumber(m) + 7
    {
      MondayOf(selectedWeek)
    }

    method SetWeight(w: string)
      modifies this
      ensures weight == w && selectedWeek == old(selectedWeek) && calendarOpen == old(calendarOpen)
    {
      weight := w;
    }

    /** `resetToCurrentWeek()`. */
    method ResetToCurrentWeek(today: Day)
      modifies this
      ensures selectedWeek == today && weight == old(weight) && calendarOpen == old(calendarOpen)
    {
      selectedWeek := today;
    }

    /** `goToPreviousWeek()`: seven days back, so the week start moves back one week. */
    method GoToPreviousWeek()
      modifies this`selectedWeek
      ensures selectedWeek == PreviousWeek(old(selectedWeek))
      ensures DayNumber(WeekStart()) == DayNumber(old(WeekStart())) - 7
      ensures unchanged(this`weight, this`calendarOpen)
    {
      var d := selectedWeek;
      var p := PreviousWeek(d);
      PreviousWeekStart(d, p);
      selectedWeek := p;
    }

    /** `handleDateSelect(date)`: a chosen day is selected and the calendar closes; no day changes nothing. */
    method HandleDateSelect(date: Option<Day>)
      modifies this
      ensures date.None? ==> selectedWeek == old(selectedWeek) && calendarOpen == old(calendarOpen)
      ensures date.Some? ==> selectedWeek == date.value && !calendarOpen
      ensures weight == old(weight)
    {
      if date.Some? {
        selectedWeek := date.value;
        calendarOpen := false;
      }
    }

    /**
     * `handleSubmit`: an invalid weight calls nothing and changes nothing; a valid one
     * calls exactly one of `updateEntry` (the week's entry with the new weight) and
     * `addEntry` (a new entry on the week's Monday), then clears the weight.
     */
    method HandleSubmit(store: WeightEntryStore, newId: string, ok: bool) returns (call: SubmitCall)
      modifies this`weight, store
      ensures unchanged(this`selectedWeek, this`calendarOpen)
      ensures store.user == old(store.user) && store.goal == old(store.goal)
      ensures ValidWeight(old(weight)).None? ==> call == NoCall && weight == old(weight) && store.entries == old(store.entries)
      ensures ValidWeight(old(weight)).Some? ==>
                weight == "" &&
                var v := ValidWeight(old(weight)).value;
                store.entries == Upserted(old(store.entries), WeekStart(), v, store.user, newId, ok) &&
                match SelectedWeekEntry(old(store.entries), WeekStart())
                case Some(e) => call == UpdateCall(e.(weightKg := v))
                case None => call == AddCall(NewEntry("", WeekStart(), v))
    {
      var parsed := ValidWeight(weight);
      if parsed.None? {
        call := NoCall;
      } else {
        call := SaveWeight(store, parsed.value, newId, ok);
        weight := "";
      }
    }

    /** The valid-weight part of `handleSubmit`: one store call for the selected week. */
    method SaveWeight(store: WeightEntryStore, v: real, newId: string, ok: bool) returns (call: SubmitCall)
      modifies store
      ensures store.user == old(store.user) && store.goal == old(store.goal)
      ensures store.entries == Upserted(old(store.entries), WeekStart(), v, store.user, newId, ok)
      ensures match SelectedWeekEntry(old(store.entries), WeekStart())
              case Some(e) => call == UpdateCall(e.(weightKg := v))
              case None => call == AddCall(NewEntry("", WeekStart(), v))
    {
      var weekStart := WeekStart();
      var existing := SelectedWeekEntry(store.entries, weekStart);
      if existing.Some? {
        UpsertedFound(store.entries, weekStart, v, store.user, newId, ok, existing.value);
        var updated := existing.value.(weightKg := v);
        var _ := store.UpdateEntry(updated, ok);
        call := UpdateCall(updated);
      } else {
        UpsertedMissing(store.entries, weekStart, v, store.user, newId, ok);
        var entry := NewEntry("", weekStart, v);
        var _ := store.AddEntry(entry, newId, ok);
        call := AddCall(entry);
      }
    }
  }

  /** The week of a day seven days before `d` starts seven days before `d`'s week. */
  lemma PreviousWeekStart(d: Day, p: Day)
    requires DayNumber(p) == DayNumber(d) - 7
    ensures DayNumber(MondayOf(p)) == DayNumber(MondayOf(d)) - 7
  {
    MondaysWeekApart(MondayOf(p), MondayOf(d), p, d);
  }

  /** Two Mondays on or just before days a week apart are a week apart. */
  lemma MondaysWeekApart(a: Day, b: Day, p: Day, d: Day)
    requires Weekday(a) == 1 && Weekday(b) == 1
    requires DayNumber(a) <= DayNumber(p) < DayNumber(a) + 7
    requires DayNumber(b) <= DayNumber(d) < DayNumber(b) + 7
    requires DayNumber(p) == DayNumber(d) - 7
    ensures DayNumber(a) == DayNumber(b) - 7
  {
    OneWeekBack(DayNumber(a), DayNumber(b), DayNumber(p), DayNumber(d));
  }

  lemma OneWeekBack(x: int, y: int, dp: int, dd: int)
    requires (x + 4) % 7 == 1 && (y + 4) % 7 == 1
    requires x <= dp < x + 7 && y <= dd < y + 7 && dp == dd - 7
    ensures x == y - 7
  {
  }
}
