/**
 * The weight chart: the entries it plots (the latest `filterCount` in date order), their
 * "Week n" labels, the y-axis domain, and which of loading, empty and chart is shown.
 */
module WeightChartView {
  import opened Wrappers
  import opened JsMath
  import opened Text
  import opened Seqs
  import opened CalendarDates
  import opened WeightData

  /** `[...entries].sort(ascending).slice(-filterCount)`. */
  function ChartEntries(entries: seq<WeightEntry>, filterCount: int): (shown: seq<WeightEntry>)
    ensures filterCount >= 1 ==> |shown| == if filterCount < |entries| then filterCount else |entries|
    ensures filterCount == 0 ==> shown == ByDate(entries)
    ensures SortedBy(shown, Oldest)
    ensures |shown| <= |entries| && shown == ByDate(entries)[|entries| - |shown|..]
  {
    var sorted := ByDate(entries);
    var k := SliceIndex(|sorted|, -filterCount);
    SortedSuffix(sorted, k);
    sorted[k..]
  }

  lemma SortedSuffix(s: seq<WeightEntry>, k: nat)
    requires k <= |s| && SortedBy(s, Oldest)
    ensures SortedBy(s[k..], Oldest)
  {
  }

  /** The chart keeps the latest weeks in order: a sub-list of the date-sorted entries. */
  lemma ChartKeepsOrder(entries: seq<WeightEntry>, filterCount: int)
    ensures IsSubsequence(ChartEntries(entries, filterCount), ByDate(entries))
  {
    var shown := ChartEntries(entries, filterCount);
    TailIsSubsequence(ByDate(entries), shown);
  }

  lemma TailIsSubsequence(s: seq<WeightEntry>, t: seq<WeightEntry>)
    requires |t| <= |s| && t == s[|s| - |t|..]
    ensures IsSubsequence(t, s)
  {
    SuffixIsSubsequence(s, |s| - |t|);
  }

  /** Every plotted week is dated no earlier than any week left off the chart. */
  lemma ChartShowsLatest(entries: seq<WeightEntry>, filterCount: int, i: nat, j: nat)
    requires var n := |entries| - |ChartEntries(entries, filterCount)|; i < n <= j < |entries|
    ensures DayNumber(ByDate(entries)[i].weekStart) <= DayNumber(ByDate(entries)[j].weekStart)
  {
  }

  /** `Week ${index + 1}` for each plotted point. */
  function WeekLabels(count: nat): (labels: seq<string>)
    ensures |labels| == count
    ensures forall i :: 0 <= i < count ==> labels[i] == WeekLabel(i + 1)
  {
    seq(count, i requires 0 <= i < count => WeekLabel(i + 1))
  }

  function WeekLabel(n: nat): (text: string)
    ensures |text| > 5 && text[..5] == "Week " && AllDigits(text[5..]) && DigitsValue(text[5..]) == n
  {
    var digits := NatToString(n);
    DigitsValueOfNatToString(n);
    assert ("Week " + digits)[5..] == digits;
    "Week " + digits
  }

  function Weights(s: seq<WeightEntry>): (w: seq<real>)
    ensures |w| == |s| && forall i :: 0 <= i < |s| ==> w[i] == s[i].weightKg
  {
    seq(|s|, i requires 0 <= i < |s| => s[i].weightKg)
  }

  /** `Math.min(...w)`. */
  function SeqMin(w: seq<real>): (m: real)
    requires w != []
    ensures m in w && forall i :: 0 <= i < |w| ==> m <= w[i]
  {
    if |w| == 1 then w[0] else MinReal(w[0], SeqMin(w[1..]))
  }

  /** `Math.max(...w)`. */
  function SeqMax(w: seq<real>): (m: real)
    requires w != []
    ensures m in w && forall i :: 0 <= i < |w| ==> w[i] <= m
  {
    if |w| == 1 then w[0] else MaxReal(w[0], SeqMax(w[1..]))
  }

  /** `minWeight`: two below the lightest weight, rounded down; 50 without data. */
  function MinWeight(w: seq<real>): (lo: int)
    ensures w == [] ==> lo == 50
    ensures forall i :: 0 <= i < |w| ==> lo as real <= w[i] - 2.0
    ensures w != [] ==> exists i :: 0 <= i < |w| && w[i] - 3.0 < lo as real
  {
    if w == [] then 50 else Floor(SeqMin(w) - 2.0)
  }

  /** `maxWeight`: two above the heaviest weight, rounded up; 100 without data. */
  function MaxWeight(w: seq<real>): (hi: int)
    ensures w == [] ==> hi == 100
    ensures forall i :: 0 <= i < |w| ==> w[i] + 2.0 <= hi as real
    ensures w != [] ==> exists i :: 0 <= i < |w| && hi as real < w[i] + 3.0
  {
    if w == [] then 100 else Ceil(SeqMax(w) + 2.0)
  }

  /** `goalWeight && goalWeight < minWeight ? Math.floor(goalWeight - 2) : minWeight`. */
  function YMin(w: seq<real>, goalWeight: Option<real>): int {
    if TruthyReal(goalWeight) && goalWeight.value < MinWeight(w) as real then Floor(goalWeight.value - 2.0) else MinWeight(w)
  }

  /** `goalWeight && goalWeight > maxWeight ? Math.ceil(goalWeight + 2) : maxWeight`. */
  function YMax(w: seq<real>, goalWeight: Option<real>): int {
    if TruthyReal(goalWeight) && goalWeight.value > MaxWeight(w) as real then Ceil(goalWeight.value + 2.0) else MaxWeight(w)
  }

  /**
   * The domain holds every plotted weight and a non-zero goal, a goal only widens it, and
   * its lower end never exceeds its upper end.
   */
  lemma {:induction false} DomainBounds(w: seq<real>, goalWeight: Option<real>)
    ensures YMin(w, goalWeight) <= MinWeight(w) <= MaxWeight(w) <= YMax(w, goalWeight)
    ensures YMin(w, goalWeight) < YMax(w, goalWeight)
    ensures forall i :: 0 <= i < |w| ==> YMin(w, goalWeight) as real <= w[i] <= YMax(w, goalWeight) as real
    ensures TruthyReal(goalWeight) ==> YMin(w, goalWeight) as real <= goalWeight.value <= YMax(w, goalWeight) as real
    ensures !TruthyReal(goalWeight) ==> YMin(w, goalWeight) == MinWeight(w) && YMax(w, goalWeight) == MaxWeight(w)
  {
    if w != [] {
      assert MinWeight(w) as real <= w[0] - 2.0 && w[0] + 2.0 <= MaxWeight(w) as real;
    }
  }

  datatype ChartView = Loading | NoEntries | Plot(points: seq<WeightEntry>, labels: seq<string>, yMin: int, yMax: int)

  /** What the chart renders: loading first, then the empty message, then the plot. */
  function Render(entries: seq<WeightEntry>, goal: Option<WeightGoal>, filterCount: int, isLoading: bool): (v: ChartView)
    ensures isLoading <==> v == Loading
    ensures v == NoEntries <==> !isLoading && entries == []
    ensures v.Plot? ==> v.points == ChartEntries(entries, filterCount) && |v.labels| == |v.points| && v.yMin < v.yMax
  {
    var shown := ChartEntries(entries, filterCount);
    var w := Weights(shown);
    var goalWeight := if goal.Some? then Some(goal.value.targetWeight) else None;
    DomainBounds(w, goalWeight);
    if isLoading then Loading
    else if |entries| == 0 then NoEntries
    else Plot(shown, WeekLabels(|shown|), YMin(w, goalWeight), YMax(w, goalWeight))
  }
}
