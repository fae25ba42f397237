# medalert-buddy core in Dafny

This project models the logic of **medalert-buddy**, a medication-reminder and
weight-tracking web app, and proves properties of that model. The model covers:

- **The reminder engine.** The reminder list and the response history live in a
  store class. The class has add, update, delete, dismiss and snooze operations, plus
  one run of the periodic trigger check with the current instant passed in.
- **The recurrence evaluator.** It decides which reminders are due on a calendar day.
  A proof shows that the calendar page's separate copy gives the same list.
- **The form, refill, time-picker and medicine-search logic** around the reminders.
- **The weight tracker.** This covers the entry store and the insight calculator
  (total and average change, best week, weeks to goal, status). It also covers the
  Monday-week upsert of the weekly form, the CSV rows, the goal progress bar, the chart
  domain and the history table.
- **The three sign-in screens.** Each has a validation chain and a submitting flag.

Conventions:

- A calendar day is a valid `(year, month, day)` triple with a day number counted from
  1970-01-01 (`CalendarDates`). date-fns `addDays`, `startOfWeek` (Monday),
  `differenceInWeeks` and `isSameDay` are defined on that day number.
- An instant is a whole number of local wall-clock milliseconds (`Clock`), so hours and
  minutes are plain divisions.
- Weights are `real`.
- JavaScript's `Math.floor/ceil/trunc`, `Number`, `parseInt`, `parseFloat`,
  `toLowerCase`, `padStart`, `split` and `join` are written out in `JsMath` and `Text`.
- Each object whose fields the app changes in place is a `class`:
  - the reminder store
  - the weight-entry store
  - each form and page component with its state fields

  Each handler is a method whose `ensures` gives the whole new state.
- Each remote call (a database write, a login) is replaced by a boolean or outcome
  parameter. Each generated id is a parameter.

The code fires only **active** reminders (`src/context/ReminderContext.tsx:201`), and
the model follows the code.

## Model

| member | source | states |
|---|---|---|
| CalendarDates.MondayOf | src/hooks/use-weight-form.tsx:19 | `startOfWeek(d, {weekStartsOn: 1})` is a Monday on or before `d` and less than a week before it |
| CalendarDates.AddDays | src/pages/Calendar.tsx:47 | `addDays(d, k)` is the day whose day number is `k` more |
| CalendarDates.PreviousWeek | src/hooks/use-weight-form.tsx:32-34 | `subWeeks(d, 1)` is exactly 7 days earlier, on the same weekday |
| CalendarDates.DifferenceInWeeks | src/hooks/use-weight-entries.tsx:269-272 | the whole number of weeks between two ordered days: `7w <= difference < 7w + 7` |
| CalendarDates.DayNumberInjective | src/pages/Calendar.tsx:113 | two days with the same day number are the same day, so `isSameDay` is date equality |
| Recurrence.RemindersForDate | src/context/ReminderContext.tsx:443-572 | the result holds exactly the reminders of the list that are due on the day |
| Recurrence.RemindersForDateKeepOrder | src/context/ReminderContext.tsx:443-572 | the due reminders keep their list order |
| Recurrence.DurationDays | src/context/ReminderContext.tsx:469-476 | daily length: 7/14/30/90 days, a truthy custom N, and 0 for a missing, unknown or falsy custom duration |
| Recurrence.WeeklyOccurrences | src/context/ReminderContext.tsx:495-504 | weekly count: 1/2/4/12, `ceil(N/7)` for a custom N, 0 otherwise |
| Recurrence.MonthlyOccurrences | src/context/ReminderContext.tsx:521-528 | monthly count: 1 for 30 days, 3 for 90 days, `ceil(N/30)` for a custom N, 0 otherwise |
| Recurrence.NeverDue | src/context/ReminderContext.tsx:449-460 | without a start day, before the start day, or with `as_needed` or an unknown frequency, nothing is due |
| Recurrence.OnceOnlyOnStart | src/context/ReminderContext.tsx:556-566 | `once` is due on its start day and on no other day |
| Recurrence.DailyDue | src/context/ReminderContext.tsx:464-483 | the daily family is due on every day from the start when `ongoing`, otherwise exactly on the start day and the `N - 1` days after it; it is never due without a known duration |
| Recurrence.WeeklyDue | src/context/ReminderContext.tsx:485-507 | weekly is due exactly on the start day plus `7k` days, for every `k` when `ongoing`, else for `k` below the occurrence count |
| Recurrence.MonthlyDue | src/context/ReminderContext.tsx:509-531 | monthly is due on the start's day of the month from the start on, limited to the first `MonthlyOccurrences` months unless `ongoing` |
| Recurrence.MonthlyShortNeverDue | src/context/ReminderContext.tsx:509-531 | a monthly reminder lasting 7 or 14 days, or with an unknown duration, is never due, not even on its start day |
| Recurrence.MonthlyThirtyDaysOnlyStart | src/context/ReminderContext.tsx:509-531 | a monthly reminder lasting 30 days is due on its start day only |
| CalendarView.CalendarRemindersForDate | src/pages/Calendar.tsx:16-123 | the calendar page's filter holds exactly the reminders its own test finds due |
| CalendarView.SameTest | src/pages/Calendar.tsx:16-123 | for every reminder and day, the page's test agrees with the reminder context's test |
| CalendarView.SameTables | src/pages/Calendar.tsx:38-84 | the page's inline duration, weekly and monthly tables give the same counts as the reminder context's tables |
| CalendarView.CopiesAgree | src/pages/Calendar.tsx:16-123 | the two copies of `getRemindersForDate` return the same list for every list and day |
| CalendarView.DotIffSomeDue | src/pages/Calendar.tsx:138-140 | a day gets a dot exactly when some reminder is due on it |
| CalendarView.DismissedNotActiveToday | src/pages/Calendar.tsx:190-194 | a reminder that has just been dismissed is not shown as active on any day |
| CalendarView.BadgeDestructive | src/pages/Calendar.tsx:231-234 | a destructive badge requires a supply at or below the threshold, and never shows when either number is 0 |
| Clock.FormatHHMM | src/context/ReminderContext.tsx:428-430 | zero-padded `HH:MM`: five characters, both parts digits with the given values |
| Clock.ParseTimeOfDay | src/context/ReminderContext.tsx:204-206 | `split(':').map(Number)` then `setHours`: non-negative parts, and no time at all without a colon |
| Clock.ParseFormatRoundTrip | src/context/ReminderContext.tsx:204-206 | a formatted `HH:MM` parses back to the same hour and minute |
| Clock.ShiftedTimeNamesItsMinute | src/context/ReminderContext.tsx:426-430 | a snoozed time names the minute that holds `now + minutes`, wrapping to the early hours past midnight |
| Reminders.FindById | src/context/ReminderContext.tsx:233-235 | finds the first record with the id, and finds nothing exactly when no record has it |
| Reminders.FindByIdUnique | src/context/ReminderContext.tsx:233-235 | with distinct ids, it finds exactly the record that carries the id |
| Reminders.ReplaceById | src/context/ReminderContext.tsx:342-346 | same length; records with the id become the update and all others stay |
| Reminders.ReplaceByIdKeepsIds | src/context/ReminderContext.tsx:342-346 | an update keeps every id in place, so distinct ids stay distinct |
| Reminders.ReplaceAbsent | src/context/ReminderContext.tsx:342-346 | an update whose id is not in the list changes nothing |
| Reminders.WithoutId | src/context/ReminderContext.tsx:348-351 | removes exactly the records with the id and keeps every other record |
| Reminders.WithoutIdKeepsOrder | src/context/ReminderContext.tsx:348-351 | the remaining records keep their order |
| Reminders.RefillReminders | src/context/ReminderContext.tsx:575-577 | keeps exactly the records with `refillTracking === true` |
| Reminders.RefillRemindersKeepOrder | src/context/ReminderContext.tsx:575-577 | the refill list keeps list order |
| Reminders.NewReminder | src/context/ReminderContext.tsx:311-316 | the appended record has the fresh id and is active; every other field comes from the form data |
| Reminders.AddKeepsIdsUnique | src/context/ReminderContext.tsx:311-340 | appending a record with a fresh id keeps ids distinct |
| Reminders.AfterDismiss | src/context/ReminderContext.tsx:361-395 | same length, and an unknown id changes nothing |
| Reminders.DismissedContents | src/context/ReminderContext.tsx:361-395 | the dismissed record becomes inactive and taken now, with one unit less supply exactly when tracking is on and supply is positive; all other records are untouched |
| Reminders.DismissedSupply | src/context/ReminderContext.tsx:381-388 | the supply drops by exactly one only in the refill case, so it never goes below zero |
| Reminders.DismissedMarksEveryCopy | src/context/ReminderContext.tsx:376-378 | with duplicate ids, every copy is marked taken |
| Reminders.SnoozedRecord | src/context/ReminderContext.tsx:426-436 | the snoozed record is active with the shifted time; every other field is unchanged |
| Reminders.AfterSnooze | src/context/ReminderContext.tsx:411-438 | same length, and an unknown id changes nothing |
| Reminders.SnoozedContents | src/context/ReminderContext.tsx:411-438 | only the snoozed record changes, only in activity and time, and its time names the minute of `now + minutes` |
| ReminderStore.InactiveNeverFires | src/context/ReminderContext.tsx:201 | an inactive reminder never fires |
| ReminderStore.FiresDuringItsMinute | src/context/ReminderContext.tsx:197-222 | an active `HH:MM` reminder that was never taken, or taken more than 120 s ago, fires exactly when the clock reads `HH:MM` |
| ReminderStore.TakenLatelyNeverFires | src/context/ReminderContext.tsx:213-216 | a reminder taken at most 120 s before the check does not fire, whatever its time |
| ReminderStore.FiresOnTwoChecks | src/context/ReminderContext.tsx:197-222 | firing leaves `lastTaken` alone, so two checks 30 s apart inside the minute both fire |
| ReminderStore.FiredIds | src/context/ReminderContext.tsx:199-221 | the ids fired are exactly those of reminders that pass the check |
| ReminderStore.HistoryAfter | src/context/ReminderContext.tsx:361-373 | one entry with the id, status and time goes in front when the id is known; otherwise the history is unchanged |
| ReminderStore.ChecksChangeNothing | src/context/ReminderContext.tsx:307-308 | with distinct ids, writing back the fired records (`isActive` set) changes no record |
| ReminderStore.CheckLeavesListUnchanged | src/context/ReminderContext.tsx:307-308 | a whole check leaves a list with distinct ids exactly as it was |
| ReminderStore.Store.GetReminderById | src/context/ReminderContext.tsx:233-235 | a record of the list with that id, or nothing exactly when the id is absent |
| ReminderStore.Store.GetRefillReminders | src/context/ReminderContext.tsx:575-577 | exactly the listed reminders that track refills |
| ReminderStore.Store.AddReminder | src/context/ReminderContext.tsx:311-340 | appends one active record with the fresh id and leaves the history as it was |
| ReminderStore.Store.UpdateReminder | src/context/ReminderContext.tsx:342-346 | the list becomes the replace-by-id of the old list |
| ReminderStore.Store.DeleteReminder | src/context/ReminderContext.tsx:348-351 | the list becomes the old list without the id |
| ReminderStore.Store.DismissReminder | src/context/ReminderContext.tsx:353-401 | history gets one "taken" entry; the list becomes `AfterDismiss`; the low-supply warning is raised exactly when the decremented supply is at or below a defined threshold |
| ReminderStore.Store.SnoozeReminder | src/context/ReminderContext.tsx:403-440 | history gets one "snoozed" entry; the list becomes `AfterSnooze` |
| ReminderStore.Store.CheckReminders | src/context/ReminderContext.tsx:197-222 | the loop fires exactly `FiredIds` of the list as the check began and writes each fired record back |
| MedicineSearch.FindMedicine | src/components/ReminderForm.tsx:67 | the first catalogue entry with the id, or nothing exactly when none has it |
| MedicineSearch.Search | src/components/MedicineSearch.tsx:19-29 | an empty term gives the first 10 entries; any other term gives exactly the entries whose name, category or description contains it, ignoring case |
| MedicineSearch.SearchKeepsOrder | src/components/MedicineSearch.tsx:24-28 | the result is an order-preserving sub-list of the catalogue |
| MedicineSearch.CaseDoesNotMatter | src/components/MedicineSearch.tsx:22-27 | terms that lower-case alike give identical results |
| MedicineSearch.LowerTermSameResult | src/components/MedicineSearch.tsx:22 | a lower-cased term gives the same result as the original |
| ReminderForm.OrDefault | src/components/ReminderForm.tsx:33-34 | `s \|\| fallback`: the fallback exactly when `s` is empty |
| ReminderForm.InitialFields | src/components/ReminderForm.tsx:26-51 | defaults for a new reminder; when editing, a stored time is restored as today at that `HH:MM` |
| ReminderForm.DisabledIffThresholdRejected | src/components/ReminderForm.tsx:54-98 | with a name and a dosage, the supply effect (whose error disables the button at line 396) disables submit exactly when the handler would reject the threshold |
| ReminderForm.Validate | src/components/ReminderForm.tsx:85-98 | blank name, then blank dosage, then tracking with threshold above supply; the first failure is reported, and none means submit is enabled |
| ReminderForm.GetTimeString | src/components/ReminderForm.tsx:75-80 | parses back to the hour and minute of the chosen time, to 08:00 with none, and is `NaN:NaN` for an invalid date |
| ReminderForm.ReminderData | src/components/ReminderForm.tsx:108-119 | supply and threshold are stored only with refill tracking, and the custom length only for `custom` |
| ReminderForm.EditedRecord | src/components/ReminderForm.tsx:122-126 | the form data with the edited record's id, activity and last-taken time |
| ReminderForm.SelectMedicine | src/components/ReminderForm.tsx:64-72 | a catalogue id copies that medicine's name; `custom` or an unknown id keeps the name; nothing else changes |
| ReminderForm.EditReplacesTheEditedReminder | src/components/ReminderForm.tsx:122-126 | an edit replaces exactly the edited reminder, keeps its id, activity and last-taken time, and keeps ids distinct |
| ReminderForm.ReminderFormPage.HandleMedicineSelect | src/components/ReminderForm.tsx:64-72 | the fields become `SelectMedicine` of the old fields |
| ReminderForm.ReminderFormPage.HandleSubmit | src/components/ReminderForm.tsx:82-134 | a failed check calls nothing; otherwise exactly one of update (the edited record) or add (a new record) happens, and the form closes |
| RefillTracker.Percentage | src/pages/RefillTracker.tsx:39-41 | 100 without a positive threshold; else the smaller of 100 and `supply / threshold · 30` (at most each, equal to one); within [0, 100] for a non-negative supply |
| RefillTracker.LowShowsAtMostThirty | src/pages/RefillTracker.tsx:41-42 | a low reminder with a positive threshold shows at most 30 % |
| RefillTracker.Refilled | src/pages/RefillTracker.tsx:22-28 | only the supply changes, to `(currentSupply \|\| 0) + amount` |
| RefillTracker.RefillRaisesSupply | src/pages/RefillTracker.tsx:22-28 | a positive refill strictly raises that reminder's supply and leaves every other reminder alone |
| RefillTracker.HandleRefill | src/pages/RefillTracker.tsx:16-30 | an amount that is NaN or not positive is refused with no update; otherwise the refilled record replaces the reminder |
| RefillTracker.RefillForm.SetAmount | src/pages/RefillTracker.tsx:122 | the field holds `parseInt` of the typed text, none for NaN |
| Text.ParseIntOfDigits | src/pages/RefillTracker.tsx:122 | `parseInt` reads a digit string as its decimal value |
| RefillTracker.RefillForm.HandleSubmit | src/pages/RefillTracker.tsx:108-112 | the amount is passed to the refill, and the field is reset to 30 every time |
| TimePicker.Clamp | src/components/ui/time-picker.tsx:29 | `max(lo, min(hi, n))` lies in range and is `n` when `n` is in range |
| TimePicker.SetHoursMeaning | src/components/ui/time-picker.tsx:28-29 | setting an hour in range gives that hour on the same day with the same minute |
| TimePicker.SetMinutesMeaning | src/components/ui/time-picker.tsx:45-46 | setting a minute in range gives that minute on the same day in the same hour |
| TimePicker.HourChangeShows | src/components/ui/time-picker.tsx:28-29 | after an hour is typed, the picker shows it clamped to [0, 23] and keeps the minute |
| TimePicker.MinuteChangeShows | src/components/ui/time-picker.tsx:45-46 | after a minute is typed, the picker shows it clamped to [0, 59] and keeps the hour |
| TimePicker.Picker.HandleHourChange | src/components/ui/time-picker.tsx:21-35 | text `parseInt` reads as NaN leaves the date; a number sets the clamped hour on the date or on now |
| TimePicker.Picker.HandleMinuteChange | src/components/ui/time-picker.tsx:38-48 | text `parseInt` reads as NaN leaves the date; a number sets the clamped minute on the date or on now |
| TimePicker.Picker.HourText | src/components/ui/time-picker.tsx:51 | two digits naming the hour, or empty without a date |
| TimePicker.Picker.MinuteText | src/components/ui/time-picker.tsx:52 | two digits naming the minute, or empty without a date |
| WeightData.ByDate | src/hooks/use-weight-entries.tsx:246-248 | a permutation of the entries in ascending date order |
| WeightData.ByDateDescending | src/components/WeightTable.tsx:23-24 | a permutation of the entries in descending date order |
| WeightData.OldestFirstIsFixed | src/hooks/use-weight-entries.tsx:246-248 | a list already in ascending date order is returned unchanged, ties included, as a stable sort returns it |
| WeightData.NewestFirstIsFixed | src/components/WeightTable.tsx:23-24 | a list already in descending date order is returned unchanged, ties included |
| WeightData.FirstIsOldest | src/hooks/use-weight-entries.tsx:246-252 | the first sorted entry is the oldest, the last the newest, and both are entries |
| WeightData.FirstIsNewest | src/pages/WeightTracker.tsx:37-40 | the first entry sorted newest first is an entry with the latest date |
| WeightData.LatestEntry | src/hooks/use-weight-entries.tsx:208-212 | an entry whose date is the latest |
| WeightInsights.UserEntries | src/hooks/use-weight-entries.tsx:233-237 | exactly the entries whose `user_id` is the signed-in user's; none without a user |
| WeightInsights.WeeklyChanges | src/hooks/use-weight-entries.tsx:255-261 | one change per adjacent pair, `prev − cur`, dated at the later week |
| WeightInsights.BestIndex | src/hooks/use-weight-entries.tsx:264-266 | the reduce picks a largest change, and the earliest of equals, since a tie does not replace the best |
| WeightInsights.BestWeek | src/hooks/use-weight-entries.tsx:264-266 | none exactly when there are no changes, otherwise a change that no other change exceeds |
| WeightInsights.TotalWeeks | src/hooks/use-weight-entries.tsx:269-272 | at least 1, so the average never divides by zero |
| WeightInsights.TotalWeeksSpan | src/hooks/use-weight-entries.tsx:269-272 | for dates in order, `TotalWeeks` is 1 exactly when they are under 14 days apart, and otherwise `w` with `7w <= days apart < 7w + 7` |
| WeightInsights.AverageChange | src/hooks/use-weight-entries.tsx:273 | its sign is the sign of `last − first`: positive for a gain, negative for a loss, zero for neither |
| WeightInsights.Average | src/hooks/use-weight-entries.tsx:273 | dividing a total by a positive number of weeks keeps the total's sign |
| WeightInsights.AverageTimesWeeks | src/hooks/use-weight-entries.tsx:273 | the average times the number of weeks gives back the total change |
| WeightInsights.PaceWeeks | src/hooks/use-weight-entries.tsx:285-290 | `ceil(\|remaining\| / \|average\|)` is at least one week |
| WeightInsights.PaceWeeksCover | src/hooks/use-weight-entries.tsx:285-290 | that many weeks at the average pace cover the distance and one week fewer does not: the fewest whole weeks that do |
| WeightInsights.GoalStatus | src/hooks/use-weight-entries.tsx:280-298 | corrected: on track (with `PaceWeeks`) exactly when within 0.1 or moving towards the target; gaining exactly when moving away |
| WeightInsights.StatusAsWrittenReachable | src/hooks/use-weight-entries.tsx:279-301 | as written the status is only ever on track or gaining, on track exactly when `remaining` and average share a sign |
| WeightInsights.FromSorted | src/hooks/use-weight-entries.tsx:246-313 | total is last minus first; best week present exactly from two entries and maximal; no goal gives `no_goal`; a zero average gives `no_change` |
| WeightInsights.Calculate | src/hooks/use-weight-entries.tsx:232-313 | no entries for the user gives `{0, 0, null, null, no_change}`; otherwise the insights of the user's entries in date order |
| WeightInsights.CorrectionKeepsFigures | src/hooks/use-weight-entries.tsx:246-313 | the corrected and the as-written insights have the same total change, average and best week: only the goal status and weeks to goal differ |
| WeightInsights.NeverSlowing | src/hooks/use-weight-entries.tsx:293-301 | the status is never `slowing` |
| WeightInsights.AsWrittenCallsLossGaining | src/hooks/use-weight-entries.tsx:280-298 | as written, a steady loss towards a lower goal is called `gaining` with no weeks to goal |
| WeightInsights.CorrectedCallsLossOnTrack | src/hooks/use-weight-entries.tsx:280-298 | corrected, the same loss is on track with `PaceWeeks` weeks |
| WeightInsights.LossExampleAsWritten | src/hooks/use-weight-entries.tsx:280-298 | entries 80, 79, 78 kg a week apart with goal 75 give `gaining`, null, as written |
| WeightInsights.LossExampleCorrected | src/hooks/use-weight-entries.tsx:280-298 | the same entries give on track with 3 weeks, corrected |
| WeightEntries.ReplaceEntry | src/hooks/use-weight-entries.tsx:161-165 | same length; the entry with the id becomes the update and the others stay |
| WeightEntries.ReplaceEntryKeepsIds | src/hooks/use-weight-entries.tsx:161-165 | replacing keeps every id in place |
| WeightEntries.WithoutEntry | src/hooks/use-weight-entries.tsx:193 | removes exactly the entries with the id |
| WeightEntries.WithoutEntryKeepsOrder | src/hooks/use-weight-entries.tsx:193 | the remaining entries keep their order |
| WeightEntries.GoalStartsAtLatest | src/hooks/use-weight-entries.tsx:201-221 | a new goal starts at the weight of the latest-dated entry, which is one of the entries |
| WeightEntries.WeightEntryStore.VisibleEntries | src/hooks/use-weight-entries.tsx:20-24 | no entries without a user, otherwise the stored entries |
| WeightEntries.WeightEntryStore.CurrentInsights | src/hooks/use-weight-entries.tsx:322 | the store's insights are never `slowing` |
| WeightEntries.WeightEntryStore.AddEntry | src/hooks/use-weight-entries.tsx:103-139 | no user or a failed write gives null and leaves the list; otherwise one entry with the user's id goes in front |
| WeightEntries.WeightEntryStore.UpdateEntry | src/hooks/use-weight-entries.tsx:141-174 | a stored update replaces by id |
| WeightEntries.WeightEntryStore.DeleteEntry | src/hooks/use-weight-entries.tsx:176-199 | a stored delete removes the id |
| WeightEntries.WeightEntryStore.SetWeightGoal | src/hooks/use-weight-entries.tsx:201-230 | null with no entries or no user; otherwise the goal starts at the latest entry's weight and is stored |
| WeightWeekForm.ValidWeight | src/hooks/use-weight-form.tsx:53-56 | a weight is accepted exactly when it is non-empty, numeric and positive |
| WeightWeekForm.DigitsAccepted | src/hooks/use-weight-form.tsx:53-56 | a positive digit string is accepted as its value |
| WeightWeekForm.RefusedWeights | src/hooks/use-weight-form.tsx:53-56 | "", "0" and "7a" are refused |
| WeightWeekForm.InWeekMeaning | src/hooks/use-weight-form.tsx:22-25 | an entry matches the selected week exactly when its date lies in that Monday-to-Sunday week |
| WeightWeekForm.SelectedWeekEntry | src/hooks/use-weight-form.tsx:22-25 | the first entry in the week, or nothing when no entry is in it |
| WeightWeekForm.HasEntryIffSelected | src/hooks/use-weight-form.tsx:43-48 | `hasEntryForSelectedWeek()` holds exactly when `selectedWeekEntry` is defined |
| WeightWeekForm.UpsertRecordsWeight | src/hooks/use-weight-form.tsx:60-75 | after a stored submit the week has an entry, and the one found carries the new weight |
| WeightWeekForm.UpdateRecordsWeight | src/hooks/use-weight-form.tsx:60-66 | after an update, the week's entry is the old one with the new weight |
| WeightWeekForm.UpdateChangesOnlyWeight | src/hooks/use-weight-form.tsx:60-66 | with distinct ids, an update changes only the matched entry's weight |
| WeightWeekForm.PreviousWeekStart | src/hooks/use-weight-form.tsx:32-34 | a day 7 days before another has its week start 7 days before the other's week start |
| WeightWeekForm.WeightForm.WeekStart | src/hooks/use-weight-form.tsx:19 | the Monday on or before the selected day |
| WeightWeekForm.WeightForm.SetWeight | src/hooks/use-weight-form.tsx:15 | only the weight text changes |
| WeightWeekForm.WeightForm.ResetToCurrentWeek | src/hooks/use-weight-form.tsx:28-30 | selects today and changes nothing else |
| WeightWeekForm.WeightForm.GoToPreviousWeek | src/hooks/use-weight-form.tsx:32-34 | selects the day 7 days back, so the week start also moves back exactly 7 days |
| WeightWeekForm.WeightForm.HandleDateSelect | src/hooks/use-weight-form.tsx:36-41 | no date changes nothing; a date is selected and the calendar closes |
| WeightWeekForm.WeightForm.HandleSubmit | src/hooks/use-weight-form.tsx:50-76 | an invalid weight calls nothing; otherwise exactly one of update (weight only) or add (at the week's Monday), the store gets the upsert, and the weight is cleared |
| WeightWeekForm.WeightForm.SaveWeight | src/hooks/use-weight-form.tsx:60-73 | the week's entry found gives an update with the new weight, otherwise an add at the week's Monday; the store ends with the upsert |
| WeightTrackerPage.EntryOwner | src/pages/WeightTracker.tsx:30 | the user id, else the email, else "anonymous" |
| WeightTrackerPage.CurrentWeight | src/pages/WeightTracker.tsx:37-40 | null exactly with no entries, otherwise the weight of an entry with the latest date |
| WeightTrackerPage.CurrentWeightOfSameDate | src/pages/WeightTracker.tsx:37-40 | when every entry has the same date, the current weight is that of the first entry in the list, as the stable sort leaves it first |
| WeightTrackerPage.TrackerPage.WeekStart | src/pages/WeightTracker.tsx:33 | the Monday on or before the selected day |
| WeightTrackerPage.TrackerPage.HandleSubmit | src/pages/WeightTracker.tsx:42-76 | an invalid weight changes nothing; otherwise an update of the week's entry or an add at the week's Monday with the fallback owner |
| WeightTrackerPage.TrackerPage.SaveWeight | src/pages/WeightTracker.tsx:53-74 | the week's entry found gives an update with the new weight, otherwise an add at the week's Monday naming the fallback owner; the store ends with the upsert |
| WeightTrackerPage.DataRow | src/pages/WeightTracker.tsx:120-130 | three fields, the first the number `entries.length − k` |
| WeightTrackerPage.DataRows | src/pages/WeightTracker.tsx:119-131 | one data row per entry, in the given order |
| WeightTrackerPage.CsvRows | src/pages/WeightTracker.tsx:117-131 | `entries.length + 1` rows: the header, then the data rows |
| WeightTrackerPage.RowTexts | src/pages/WeightTracker.tsx:133 | each row's fields joined with ',' |
| WeightTrackerPage.ExportToCsv | src/pages/WeightTracker.tsx:110-133 | nothing exactly when there are no entries |
| WeightTrackerPage.WeekRangeOneComma | src/pages/WeightTracker.tsx:126 | the `MMM d - MMM d, yyyy` range holds exactly one comma and no newline |
| WeightTrackerPage.CsvShape | src/pages/WeightTracker.tsx:117-133 | the lines hold no newline; the header has 2 commas and every data line 3, one more field than the header |
| WeightGoalView.StatusColor | src/components/WeightGoalCard.tsx:46-58 | green exactly for `on_track`, yellow exactly for `slowing`, red exactly for `gaining` |
| WeightGoalView.Progress | src/components/WeightGoalCard.tsx:34-59 | the percentage lies in [0, 100]; 0 and primary colour without a goal and a current weight; 0 when start equals target; otherwise the clamped share of the change achieved |
| WeightGoalView.ProgressEnds | src/components/WeightGoalCard.tsx:38-42 | the raw progress is 0 at the start weight and 100 at the target |
| WeightGoalView.ProgressGrowsTowardsTarget | src/components/WeightGoalCard.tsx:38-42 | the progress strictly grows as the weight moves the way the trend icon of lines 117-120 points: down for a goal below the start, up otherwise |
| WeightGoalView.NeverYellow | src/components/WeightGoalCard.tsx:50-51 | the store's insights never colour the bar yellow |
| WeightGoalView.GoalTarget | src/components/WeightGoalCard.tsx:26-31 | a goal is passed on exactly when the text parses to a number above 0 |
| WeightGoalView.GoalTargetExamples | src/components/WeightGoalCard.tsx:26-31 | "72kg" gives 72; "-5" and "" give nothing |
| WeightGoalView.GoalCard.ClearTarget | src/components/WeightGoalCard.tsx:154 | the field is emptied |
| WeightGoalView.GoalCard.HandleSetGoal | src/components/WeightGoalCard.tsx:26-31 | a refused text sets no goal; an accepted one goes to `setWeightGoal` |
| WeightChartView.ChartEntries | src/components/WeightChart.tsx:26-28 | the entries in date order, the last `filterCount` of them (`min(n, filterCount)` for a positive count, all for 0) |
| WeightChartView.ChartKeepsOrder | src/components/WeightChart.tsx:26-28 | the shown entries are an order-preserving sub-list of the sorted entries |
| WeightChartView.ChartShowsLatest | src/components/WeightChart.tsx:26-28 | every entry cut off is no later than every entry shown |
| WeightChartView.WeekLabels | src/components/WeightChart.tsx:30-34 | label `i` is "Week i+1", one per point |
| WeightChartView.WeekLabel | src/components/WeightChart.tsx:31 | "Week " followed by the number's digits |
| WeightChartView.SeqMin | src/components/WeightChart.tsx:38 | the least weight, which is one of them |
| WeightChartView.SeqMax | src/components/WeightChart.tsx:39 | the greatest weight, which is one of them |
| WeightChartView.MinWeight | src/components/WeightChart.tsx:38 | 50 with no data, else at least 2 below every weight and tight within 3 |
| WeightChartView.MaxWeight | src/components/WeightChart.tsx:39 | 100 with no data, else at least 2 above every weight and tight within 3 |
| WeightChartView.DomainBounds | src/components/WeightChart.tsx:37-44 | `yMin < yMax`; every weight and a truthy goal lie within; a goal only widens the domain |
| WeightChartView.Render | src/components/WeightChart.tsx:46-61 | loading wins over the empty message; a plot has one label per point and a non-empty domain |
| WeightTableView.TableEntries | src/components/WeightTable.tsx:23-25 | the first `filterCount` entries sorted newest first |
| WeightTableView.Rows | src/components/WeightTable.tsx:55-66 | row `i` is numbered `entries.length − i` and ends 6 days after its start |
| WeightTableView.FirstRowIsNewest | src/components/WeightTable.tsx:23-25 | the first row is numbered with the total and shows an entry with the latest date |
| WeightTableView.NumbersCountDown | src/components/WeightTable.tsx:62 | row numbers fall by one from row to row |
| WeightTableView.Render | src/components/WeightTable.tsx:27-41 | loading shows no rows; no entries shows the empty message; otherwise the rows |
| AuthPage.SignInError | src/pages/Auth.tsx:40-53 | empty field, then a missing '@', then a password under 6 characters; none exactly when all pass |
| AuthPage.RegisterError | src/pages/Auth.tsx:76-89 | the same chain with the name also required |
| AuthPage.SignInAccepts | src/pages/Auth.tsx:40-53 | sign-in is accepted exactly when the email has '@' and the password has at least 6 characters |
| AuthPage.Page.TogglePasswordVisibility | src/pages/Auth.tsx:114-116 | flips `showPassword` and nothing else |
| AuthPage.Page.HandleSignIn | src/pages/Auth.tsx:37-71 | `login` is called exactly when the checks pass, with the flag up during the call and down after; it navigates only on success |
| AuthPage.Page.HandleRegister | src/pages/Auth.tsx:73-112 | `register` is called exactly when the checks pass; on success the login tab opens with the registered email and the register fields are cleared |
| SignInPage.Check | src/pages/SignIn.tsx:22-30 | an empty email or one without '@' is refused; then an empty or short password |
| SignInPage.AcceptsLikeAuthPage | src/pages/SignIn.tsx:22-30 | this page accepts exactly the credentials the auth page accepts |
| SignInPage.Page.TogglePasswordVisibility | src/pages/SignIn.tsx:50-52 | flips `showPassword` |
| SignInPage.Page.HandleSignIn | src/pages/SignIn.tsx:18-48 | `login` is called exactly when both checks pass, and `isSubmitting` is false afterwards |
| LoginFormView.Check | src/components/LoginForm.tsx:20-28 | the email needs both '@' and '.', and the password at least 6 characters |
| LoginFormView.StricterThanSignIn | src/components/LoginForm.tsx:20-28 | what this form accepts the sign-in page accepts, and "a@b" with "secret" shows the converse fails |
| LoginFormView.Form.HandleLogin | src/components/LoginForm.tsx:18-44 | `login` is called only after both checks pass, and the flag is cleared whatever the outcome |

## Left out

- Notifications, audio, haptics, toasts, the service worker and the native plugin are
  foreign calls. A fired reminder is reported as an id from `CheckReminders`.
- Persistence (localStorage, Supabase queries, the realtime subscription) and the
  authentication calls are remote. A write's success is an `ok` parameter, and the row
  the database returns is taken to be the row sent. A login or register result is a
  `CallOutcome` parameter.
- Timers, React effects, URL-parameter handlers and navigation are not modelled. One trigger
  check is `CheckReminders(now)`, and a navigation is a returned flag.
- Generated ids (`uuidv4`, `Date.now()`) are parameters. The intervals of the `every_8h`
  and `every_12h` notifications are not modelled.
- Time zones and daylight saving are left out. An instant is local wall-clock milliseconds, so the
  millisecond `weekDiff` of the weekly rule cannot drift.
- Date-only ISO strings are left out. `startDate` is the calendar day the stored ISO
  string falls on.
- Floating point is left out. Weights and percentages are `real`, and `toFixed` or
  `Math.round` display rounding is not modelled.
- The number-to-text conversion of a weight in the CSV is a parameter, `weightText`.
- `Number` (`Text.ParseNumber`) is modelled on unsigned decimal notation only. `parseInt`
  and `parseFloat` (`Text.ParseInt`, `Text.ParseFloat`) also take one leading `-` or `+`.
  Exponents, hexadecimal, surrounding whitespace and `Infinity` are not modelled for any
  of them, and a sign is not modelled for `Number`; text they would accept reads as not
  a number.
- String lengths: JavaScript's `.length` counts UTF-16 code units, and the model's `|s|`
  counts characters. A character outside the Basic Multilingual Plane counts twice in
  JavaScript and once here. So a password of three emoji passes the `length < 6` checks
  of `src/pages/Auth.tsx`, `src/pages/SignIn.tsx` and `src/components/LoginForm.tsx`,
  and the model refuses it.
- `toLowerCase` and the `trim` behind the blank checks are modelled on ASCII letters and
  ASCII whitespace only.
- Reminders.Reminder: `customDuration` is an integer. A fractional custom length, which
  `Number` in the form allows, is not modelled.
- ReminderForm.FormFields: the custom duration, supply and threshold inputs
  (`src/components/ReminderForm.tsx` lines 311, 364 and 381) are modelled as already-parsed
  integers; the `Number(e.target.value)` setters are not. A cleared input, which reads as 0,
  is an ordinary value here. A non-numeric one, which reads as NaN and makes
  `alertAt > currentSupply` false, is not modelled.
- `durationValue` in `getRemindersForDate` is computed but never used, so it is left
  out.
- WeightEntries.WeightEntryStore.CurrentInsights: uses the corrected goal status of the
  finding below, not the hook's as-written one. For a steady loss towards a lower goal
  the hook reports `gaining` with no weeks to goal, and the model reports on track.
  `CorrectionKeepsFigures` shows that every other figure is the hook's own.
- WeightData.ByDate: states the order of two entries with the same date only when the
  input is already in date order, where `OldestFirstIsFixed` keeps it. It does not state
  in general that ties keep their input order, as the stable JavaScript sort does; the
  model's sort is a permutation in date order, and the lemmas that use it hold for any
  order of ties.
- WeightData.ByDateDescending: the same holds for ties in the newest-first sort, with
  `NewestFirstIsFixed`.
- The WeightTracker page's week navigation, date selection and week matching are the
  same code as the weekly form hook. They are modelled once, in `WeightWeekForm`.
  `WeightTrackerPage` models the page's own submit, owner fallback, current weight and
  CSV rows.
- The CSV Blob download, the status labels and icons of `getStatusContent`, and the
  insight card's text and emojis are display only.
- The layout, dashboard, reminder list, reminder history, index and login-route pages
  are display and routing only.
- `src/data/medicines.ts` is a catalogue. It is a `seq<Medicine>` parameter of the search
  and of the form.

## Findings

| source | as written | input that shows it | evidently intended | confidence | as-written member | corrected member |
|---|---|---|---|---|---|---|
| src/hooks/use-weight-entries.tsx:280-298 | `remaining = last − target` and `average = (last − first) / weeks`. The same sign is labelled on track, and opposite signs `gaining`. A loss towards a lower goal has remaining > 0 and average < 0, so it is called `gaining` with `weeks_to_goal` null. | entries 80, 79 and 78 kg one week apart, goal 75 kg | `on_track` with `weeks_to_goal` 3: moving towards the target is on track | not executed | WeightInsights.LossExampleAsWritten | WeightInsights.LossExampleCorrected |

The rest of the model, including the goal card and the entry store, uses the corrected
`WeightInsights.Insights`. The as-written status is `WeightInsights.GoalStatusAsWritten`
and `WeightInsights.InsightsAsWritten`. `AsWrittenCallsLossGaining` and
`CorrectedCallsLossOnTrack` state the discrepancy for every steady loss towards a lower
goal.
