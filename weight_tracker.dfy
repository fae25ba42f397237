/**
 * The weight tracker page: the current weight shown at the top, its own copy of the
 * weekly submit (which names an owner for a new entry that the store then ignores), and
 * the rows and text of the CSV export.
 */
module WeightTrackerPage {
  import opened Wrappers
  import opened Text
  import opened CalendarDates
  import opened WeightData
  import opened WeightEntries
  import opened WeightWeekForm

  /** The signed-in account as the page sees it. */
  datatype User = User(id: string, email: string, name: string)

  /** `user?.id || user?.email || "anonymous"`. */
  function EntryOwner(user: Option<User>): (owner: string)
    ensures owner != ""
    ensures user.Some? && user.value.id != "" ==> owner == user.value.id
    ensures user.Some? && user.value.id == "" && user.value.email != "" ==> owner == user.value.email
    ensures owner != "anonymous" ==> user.Some? && (owner == user.value.id || owner == user.value.email)
  {
    if user.Some? && user.value.id != "" then user.value.id
    else if user.Some? && user.value.email != "" then user.value.email
    else "anonymous"
  }

  /** `currentWeight`: the weight of the latest-dated entry, or none without entries. */
  function CurrentWeight(entries: seq<WeightEntry>): (w: Option<real>)
    ensures w.None? <==> entries == []
    ensures w.Some? ==> exists e :: e in entries && e.weightKg == w.value &&
                                     forall x :: x in entries ==> DayNumber(x.weekStart) <= DayNumber(e.weekStart)
  {
    if |entries| > 0 then
      FirstIsNewest(entries);
      Some(ByDateDescending(entries)[0].weightKg)
    else None
  }

  /**
   * All entries dated alike: the stable newest-first sort keeps their order, so the
   * current weight is that of the first entry in the list.
   */
  lemma CurrentWeightOfSameDate(entries: seq<WeightEntry>)
    requires entries != []
    requires forall i :: 0 <= i < |entries| ==> entries[i].weekStart == entries[0].weekStart
    ensures CurrentWeight(entries) == Some(entries[0].weightKg)
  {
    NewestFirstIsFixed(entries);
  }

  class TrackerPage {
    var weight: string
    var selectedWeek: Day
    const user: Option<User>

    constructor (today: Day, signedIn: Option<User>)
      ensures weight == "" && selectedWeek == today && user == signedIn
    {
      weight := "";
      selectedWeek := today;
      user := signedIn;
    }

    function WeekStart(): (m: Day)
      reads this`selectedWeek
      ensures Weekday(m) == 1
      ensures DayNumber(m) <= DayNumber(selectedWeek) < DayNumber(m) + 7
    {
      MondayOf(selectedWeek)
    }

    /**
     * The page's `handleSubmit`: the same upsert as the weekly form, except that a new
     * entry names `EntryOwner(user)`; the store still files it under its own user.
     */
    method HandleSubmit(store: WeightEntryStore, newId: string, ok: bool) returns (call: SubmitCall)
      modifies this`weight, store
      ensures unchanged(this`selectedWeek)
      ensures store.user == old(store.user) && store.goal == old(store.goal)
      ensures ValidWeight(old(weight)).None? ==> call == NoCall && weight == old(weight) && store.entries == old(store.entries)
      ensures ValidWeight(old(weight)).Some? ==>
                weight == "" &&
                var v := ValidWeight(old(weight)).value;
                store.entries == Upserted(old(store.entries), WeekStart(), v, store.user, newId, ok) &&
                match SelectedWeekEntry(old(store.entries), WeekStart())
                case Some(e) => call == UpdateCall(e.(weightKg := v))
                case None => call == AddCall(NewEntry(EntryOwner(user), WeekStart(), v))
    {
      var parsed := ValidWeight(weight);
      if parsed.None? {
        call := NoCall;
      } else {
        call := SaveWeight(store, parsed.value, newId, ok);
        weight := "";
      }
    }

    /** The valid-weight part of `handleSubmit`: one store call for the selected week. */
    method SaveWeight(store: WeightEntryStore, v: real, newId: string, ok: bool) returns (call: SubmitCall)
      modifies store
      ensures store.user == old(store.user) && store.goal == old(store.goal)
      ensures store.entries == Upserted(old(store.entries), WeekStart(), v, store.user, newId, ok)
      ensures match SelectedWeekEntry(old(store.entries), WeekStart())
              case Some(e) => call == UpdateCall(e.(weightKg := v))
              case None => call == AddCall(NewEntry(EntryOwner(user), WeekStart(), v))
    {
      var weekStart := WeekStart();
      var existing := SelectedWeekEntry(store.entries, weekStart);
      if existing.Some? {
        UpsertedFound(store.entries, weekStart, v, store.user, newId, ok, existing.value);
        var updated := existing.value.(weightKg := v);
        var _ := store.UpdateEntry(updated, ok);
        call := UpdateCall(updated);
      } else {
        UpsertedMissing(store.entries, weekStart, v, store.user, newId, ok);
        var entry := NewEntry(EntryOwner(user), weekStart, v);
        var _ := store.AddEntry(entry, newId, ok);
        call := AddCall(entry);
      }
    }
  }

  // ----- CSV export -----

  /** Text with no field separator and no line break in it. */
  predicate Plain(s: string) {
    ',' !in s && '\n' !in s
  }

  lemma PlainDigits(s: string)
    requires AllDigits(s)
    ensures Plain(s)
  {
    assert forall i :: 0 <= i < |s| ==> s[i] != ',' && s[i] != '\n' by {
      forall i | 0 <= i < |s| ensures s[i] != ',' && s[i] != '\n' {
        assert IsDigit(s[i]);
      }
    }
  }

  lemma PlainConcat(a: string, b: string)
    requires Plain(a) && Plain(b)
    ensures Plain(a + b)
  {
  }

  lemma PadDigits(s: string, width: nat)
    requires AllDigits(s)
    ensures AllDigits(PadStart(s, width, '0'))
  {
    var r := PadStart(s, width, '0');
    forall i | 0 <= i < |r| ensures IsDigit(r[i]) {
      if i >= |r| - |s| {
        assert r[i] == r[|r| - |s|..][i - (|r| - |s|)];
      }
    }
  }

  lemma PlainMonthDay(d: Day)
    ensures Plain(MonthDay(d))
  {
    PlainDigits(NatToString(d.day));
    PlainConcat(MonthAbbrev(d.month) + " ", NatToString(d.day));
  }

  lemma PlainYear(y: int)
    ensures Plain(YearText(y))
  {
    if y < 0 {
      PadDigits(NatToString(-y), 4);
      PlainDigits(PadStart(NatToString(-y), 4, '0'));
      PlainConcat("-", PadStart(NatToString(-y), 4, '0'));
    } else {
      PadDigits(NatToString(y), 4);
      PlainDigits(PadStart(NatToString(y), 4, '0'));
    }
  }

  /** `${format(start, "MMM d")} - ${format(start + 6 days, "MMM d, yyyy")}`. */
  function WeekRange(start: Day): string {
    var end := AddDays(start, 6);
    RangeText(MonthDay(start), MonthDay(end), YearText(end.year))
  }

  function RangeText(from: string, to: string, year: string): string {
    from + " - " + to + ", " + year
  }

  /** The date range holds exactly one comma, the one before the year, and no line break. */
  lemma WeekRangeOneComma(start: Day)
    ensures CountChar(WeekRange(start), ',') == 1 && '\n' !in WeekRange(start)
  {
    var end := AddDays(start, 6);
    PlainMonthDay(start);
    PlainMonthDay(end);
    PlainYear(end.year);
    RangeOneComma(MonthDay(start), MonthDay(end), YearText(end.year));
  }

  lemma {:induction false} RangeOneComma(from: string, to: string, year: string)
    requires Plain(from) && Plain(to) && Plain(year)
    ensures CountChar(RangeText(from, to, year), ',') == 1 && '\n' !in RangeText(from, to, year)
  {
    PlainConcat(from + " - ", to);
    var left := from + " - " + to;
    assert RangeText(from, to, year) == left + ", " + year;
    CountCharAppend(left + ", ", year, ',');
    CountCharAppend(left, ", ", ',');
    CountCharAbsent(left, ',');
    CountCharAbsent(year, ',');
    assert CountChar(", ", ',') == 1 by {
      assert ", "[1..] == " ";
      assert " "[1..] == "";
    }
  }

  function Header(): seq<string> {
    ["Week", "Date Range", "Weight (kg)"]
  }

  /** Row `k` of the data: numbered from the number of entries down, in the list's own order. */
  function DataRow(entries: seq<WeightEntry>, k: nat, weightText: real -> string): (row: seq<string>)
    requires k < |entries|
    ensures |row| == 3 && AllDigits(row[0]) && DigitsValue(row[0]) == |entries| - k
  {
    var number := NatToString(|entries| - k);
    DigitsValueOfNatToString(|entries| - k);
    [number, WeekRange(entries[k].weekStart), weightText(entries[k].weightKg)]
  }

  /** The data rows, one per entry in the list's order. */
  function DataRows(entries: seq<WeightEntry>, weightText: real -> string): (rows: seq<seq<string>>)
    ensures |rows| == |entries|
    ensures forall k :: 0 <= k < |entries| ==> rows[k] == DataRow(entries, k, weightText)
  {
    seq(|entries|, k requires 0 <= k < |entries| => DataRow(entries, k, weightText))
  }

  /** `csvData`: the header, then one row per entry. */
  function CsvRows(entries: seq<WeightEntry>, weightText: real -> string): (rows: seq<seq<string>>)
    ensures |rows| == |entries| + 1 && rows[0] == Header()
    ensures rows[1..] == DataRows(entries, weightText)
  {
    var data := DataRows(entries, weightText);
    assert ([Header()] + data)[1..] == data;
    [Header()] + data
  }

  /** Each row joined with "," and no quoting. */
  function RowTexts(rows: seq<seq<string>>): (lines: seq<string>)
    ensures |lines| == |rows|
    ensures forall i :: 0 <= i < |rows| ==> lines[i] == Join(rows[i], ",")
  {
    seq(|rows|, i requires 0 <= i < |rows| => Join(rows[i], ","))
  }

  /** `exportToCSV()`'s text, or none when there is nothing to export. */
  function ExportToCsv(entries: seq<WeightEntry>, weightText: real -> string): (csv: Option<string>)
    ensures csv.None? <==> entries == []
  {
    if |entries| == 0 then None
    else Some(Join(RowTexts(CsvRows(entries, weightText)), "\n"))
  }

  /**
   * With weight texts that hold no comma or line break, the export has one line per entry
   * below the header, the header has two commas and every data line three: the comma
   * inside the date range makes one field more than the header names.
   */
  lemma {:induction false} CsvShape(entries: seq<WeightEntry>, weightText: real -> string)
    requires entries != []
    requires forall k :: 0 <= k < |entries| ==> Plain(weightText(entries[k].weightKg))
    ensures var lines := RowTexts(CsvRows(entries, weightText));
      CountChar(ExportToCsv(entries, weightText).value, '\n') == |entries| &&
      CountChar(lines[0], ',') == 2 &&
      forall k :: 1 <= k < |lines| ==> CountChar(lines[k], ',') == 3
  {
    var rows := CsvRows(entries, weightText);
    var lines := RowTexts(rows);
    var data := rows[1..];
    HeaderRow(rows[0]);
    forall j | 0 <= j < |data|
      ensures DataRowShaped(data[j])
    {
      DataRowsShape(entries, weightText, data, j);
    }
    assert rows == [rows[0]] + data;
    LineShapes(rows[0], data, rows, lines);
    NewlineCount(lines);
  }

  /** A data row's fields: a number, a date range with one comma, a weight without any. */
  predicate DataRowShaped(row: seq<string>) {
    |row| == 3 &&
    '\n' !in row[0] && CountChar(row[0], ',') == 0 &&
    '\n' !in row[1] && CountChar(row[1], ',') == 1 &&
    '\n' !in row[2] && CountChar(row[2], ',') == 0
  }

  lemma LineShapes(header: seq<string>, data: seq<seq<string>>, rows: seq<seq<string>>, lines: seq<string>)
    requires rows == [header] + data && '\n' !in Join(header, ",")
    requires forall j :: 0 <= j < |data| ==> DataRowShaped(data[j])
    requires |lines| == |rows| && forall k :: 0 <= k < |rows| ==> lines[k] == Join(rows[k], ",")
    ensures forall k :: 0 <= k < |lines| ==> '\n' !in lines[k]
    ensures forall k :: 1 <= k < |lines| ==> CountChar(lines[k], ',') == 3
  {
    forall k | 1 <= k < |lines|
      ensures '\n' !in lines[k] && CountChar(lines[k], ',') == 3
    {
      assert rows[k] == data[k - 1];
      ThreeFieldLine(data[k - 1], 1);
    }
  }

  /** Lines without line breaks joined by "\n": one break fewer than there are lines. */
  lemma NewlineCount(lines: seq<string>)
    requires |lines| >= 1 && forall k :: 0 <= k < |lines| ==> '\n' !in lines[k]
    ensures CountChar(Join(lines, "\n"), '\n') == |lines| - 1
  {
    CountCharJoin(lines, '\n');
    SumCountAbsent(lines, '\n');
  }

  lemma HeaderRow(row: seq<string>)
    requires row == Header()
    ensures '\n' !in Join(row, ",") && CountChar(Join(row, ","), ',') == 2
  {
    HeaderShape();
  }

  lemma HeaderShape()
    ensures '\n' !in Join(Header(), ",") && CountChar(Join(Header(), ","), ',') == 2
  {
    var h := Header();
    PlainFields(h[0], h[1], h[2]);
    ThreeFields(h[0], h[1], h[2]);
    assert h == [h[0], h[1], h[2]];
  }

  lemma PlainFields(a: string, b: string, c: string)
    requires a == "Week" && b == "Date Range" && c == "Weight (kg)"
    ensures Plain(a) && Plain(b) && Plain(c)
    ensures CountChar(a, ',') == 0 && CountChar(b, ',') == 0 && CountChar(c, ',') == 0
  {
    PlainWord(a);
    PlainWord(b);
    PlainWord(c);
  }

  /** Letters, spaces and parentheses hold no comma and no line break. */
  lemma PlainWord(s: string)
    requires forall i :: 0 <= i < |s| ==> 'A' <= s[i] <= 'z' || s[i] == ' ' || s[i] == '(' || s[i] == ')'
    ensures Plain(s) && CountChar(s, ',') == 0
  {
    CountCharAbsent(s, ',');
  }

  lemma DataRowsShape(entries: seq<WeightEntry>, weightText: real -> string, data: seq<seq<string>>, k: nat)
    requires data == DataRows(entries, weightText) && k < |data|
    requires forall k :: 0 <= k < |entries| ==> Plain(weightText(entries[k].weightKg))
    ensures DataRowShaped(data[k])
  {
    DataRowShape(entries, weightText, k);
  }

  lemma DataRowShape(entries: seq<WeightEntry>, weightText: real -> string, k: nat)
    requires k < |entries| && Plain(weightText(entries[k].weightKg))
    ensures DataRowShaped(DataRow(entries, k, weightText))
  {
    var row := DataRow(entries, k, weightText);
    PlainDigits(row[0]);
    CountCharAbsent(row[0], ',');
    WeekRangeOneComma(entries[k].weekStart);
    CountCharAbsent(row[2], ',');
  }

  /** A three-field line: two separators plus the commas of its fields. */
  lemma ThreeFieldLine(row: seq<string>, n: nat)
    requires |row| == 3 && '\n' !in row[0] && '\n' !in row[1] && '\n' !in row[2]
    requires CountChar(row[0], ',') + CountChar(row[1], ',') + CountChar(row[2], ',') == n
    ensures '\n' !in Join(row, ",") && CountChar(Join(row, ","), ',') == 2 + n
  {
    assert row == [row[0], row[1], row[2]];
    ThreeFields(row[0], row[1], row[2]);
  }

  /** A three-field line: two separators plus the commas of its fields. */
  lemma {:induction false} ThreeFields(a: string, b: string, c: string)
    ensures CountChar(Join([a, b, c], ","), ',') == 2 + CountChar(a, ',') + CountChar(b, ',') + CountChar(c, ',')
    ensures '\n' !in a && '\n' !in b && '\n' !in c ==> '\n' !in Join([a, b, c], ",")
  {
    var row := [a, b, c];
    assert row[1..] == [b, c] && row[1..][1..] == [c] && row[1..][1..][1..] == [];
    CountCharJoin(row, ',');
    assert SumCount(row, ',') == CountChar(a, ',') + SumCount([b, c], ',');
    assert SumCount([b, c], ',') == CountChar(b, ',') + SumCount([c], ',');
    assert SumCount([c], ',') == CountChar(c, ',') + SumCount([], ',');
    if '\n' !in a && '\n' !in b && '\n' !in c {
      JoinAvoids(row, ',', '\n');
    }
  }
}
