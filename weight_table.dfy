/**
 * The weight history table: the newest `filterCount` entries, each with its row number,
 * its week's first and last day and its weight, or the loading or empty message.
 */
module WeightTableView {
  import opened Seqs
  import opened CalendarDates
  import opened WeightData

  /** One table row: the number shown, the week's Monday and Sunday, the weight. */
  datatype Row = Row(number: int, weekStart: Day, weekEnd: Day, weightKg: real)

  /** `[...entries].sort(newest first).slice(0, filterCount)`. */
  function TableEntries(entries: seq<WeightEntry>, filterCount: int): (shown: seq<WeightEntry>)
    ensures 0 <= filterCount ==> |shown| == if filterCount < |entries| then filterCount else |entries|
    ensures |shown| <= |entries| && shown == ByDateDescending(entries)[..|shown|]
    ensures SortedBy(shown, Newest)
  {
    var sorted := ByDateDescending(entries);
    var k := SliceIndex(|sorted|, filterCount);
    assert SortedBy(sorted[..k], Newest);
    sorted[..k]
  }

  /** The rows: row `i` is numbered `entries.length - i` and ends six days after it starts. */
  function Rows(entries: seq<WeightEntry>, filterCount: int): (rows: seq<Row>)
    ensures |rows| == |TableEntries(entries, filterCount)|
    ensures forall i :: 0 <= i < |rows| ==>
      var e := TableEntries(entries, filterCount)[i];
      rows[i].number == |entries| - i && rows[i].weekStart == e.weekStart && rows[i].weightKg == e.weightKg &&
      DayNumber(rows[i].weekEnd) == DayNumber(e.weekStart) + 6
  {
    var shown := TableEntries(entries, filterCount);
    seq(|shown|, i requires 0 <= i < |shown| =>
      Row(|entries| - i, shown[i].weekStart, AddDays(shown[i].weekStart, 6), shown[i].weightKg))
  }

  /** The first row is the newest entry, numbered with the total count even when rows are cut. */
  lemma FirstRowIsNewest(entries: seq<WeightEntry>, filterCount: int)
    requires entries != [] && filterCount >= 1
    ensures var rows := Rows(entries, filterCount);
      rows != [] && rows[0].number == |entries| &&
      forall e :: e in entries ==> DayNumber(e.weekStart) <= DayNumber(rows[0].weekStart)
  {
    FirstIsNewest(entries);
  }

  /** Row numbers count down one at a time from the number of entries. */
  lemma NumbersCountDown(entries: seq<WeightEntry>, filterCount: int, i: nat)
    requires i + 1 < |Rows(entries, filterCount)|
    ensures var rows := Rows(entries, filterCount);
      rows[i].number == rows[i + 1].number + 1 && rows[i + 1].number >= 1
  {
  }

  datatype TableView = Loading | NoEntries | Table(rows: seq<Row>)

  /** What the table renders: loading first, then the empty message, then the rows. */
  function Render(entries: seq<WeightEntry>, filterCount: int, isLoading: bool): (v: TableView)
    ensures isLoading <==> v == Loading
    ensures v == NoEntries <==> !isLoading && entries == []
    ensures v.Table? ==> v.rows == Rows(entries, filterCount)
  {
    if isLoading then Loading
    else if |entries| == 0 then NoEntries
    else Table(Rows(entries, filterCount))
  }
}
