/**
 * The weight insight calculator: over the signed-in user's entries in date order, the
 * total change, the average change per week, the week with the largest loss, and a
 * status with the projected number of weeks to the goal.
 */
module WeightInsights {
  import opened Wrappers
  import opened JsMath
  import opened Seqs
  import opened CalendarDates
  import opened WeightData

  datatype InsightStatus = OnTrack | Slowing | Gaining | NoChange | NoGoal

  /** One week's change; positive means weight lost since the week before. */
  datatype WeeklyChange = WeeklyChange(weekStart: Day, change: real)

  datatype WeightInsight = WeightInsight(
    totalChange: real,
    averageWeeklyChange: real,
    bestWeek: Option<WeeklyChange>,
    weeksToGoal: Option<int>,
    status: InsightStatus)

  /** The entries whose `user_id` is the signed-in user's id; none without a user. */
  function UserEntries(entries: seq<WeightEntry>, user: Option<string>): (out: seq<WeightEntry>)
    ensures forall i :: 0 <= i < |out| ==> user.Some? && out[i].userId == user.value && out[i] in entries
    ensures forall i :: 0 <= i < |entries| && user.Some? && entries[i].userId == user.value ==> entries[i] in out
  {
    match user
    case None => []
    case Some(id) => Filter(entries, (e: WeightEntry) => e.userId == id)
  }

  /** Each entry after the first against the one before it: `prev.weight_kg - entry.weight_kg`. */
  function WeeklyChanges(sorted: seq<WeightEntry>): (cs: seq<WeeklyChange>)
    requires sorted != []
    ensures |cs| == |sorted| - 1
    ensures forall i :: 0 <= i < |cs| ==>
      cs[i] == WeeklyChange(sorted[i + 1].weekStart, sorted[i].weightKg - sorted[i + 1].weightKg)
  {
    seq(|sorted| - 1, i requires 0 <= i < |sorted| - 1 =>
      WeeklyChange(sorted[i + 1].weekStart, sorted[i].weightKg - sorted[i + 1].weightKg))
  }

  /**
   * The index `reduce((best, cur) => cur.change > best.change ? cur : best, cs[0])` ends on:
   * a largest change, and the earliest of them, since a tie does not replace the best.
   */
  function BestIndex(cs: seq<WeeklyChange>): (k: nat)
    requires cs != []
    ensures k < |cs|
    ensures forall j :: 0 <= j < |cs| ==> cs[j].change <= cs[k].change
    ensures forall j :: 0 <= j < k ==> cs[j].change < cs[k].change
  {
    if |cs| == 1 then 0
    else
      var b := BestIndex(cs[..|cs| - 1]);
      assert forall j :: 0 <= j < |cs| - 1 ==> cs[..|cs| - 1][j] == cs[j];
      if cs[|cs| - 1].change > cs[b].change then |cs| - 1 else b
  }

  function BestWeek(cs: seq<WeeklyChange>): (b: Option<WeeklyChange>)
    ensures b.None? <==> cs == []
    ensures b.Some? ==> b.value in cs && forall j :: 0 <= j < |cs| ==> cs[j].change <= b.value.change
  {
    if cs == [] then None else Some(cs[BestIndex(cs)])
  }

  /** `Math.max(1, differenceInWeeks(last, first))`. */
  function TotalWeeks(last: Day, first: Day): (w: int)
    ensures w >= 1
  {
    var d := DifferenceInWeeks(last, first);
    if d >= 1 then d else 1
  }

  /** For dates in order, one week stands for any span under a fortnight; more weeks are whole weeks spanned. */
  lemma TotalWeeksSpan(last: Day, first: Day)
    requires DayNumber(first) <= DayNumber(last)
    ensures TotalWeeks(last, first) == 1 <==> DayNumber(last) - DayNumber(first) < 14
    ensures TotalWeeks(last, first) > 1 ==>
      7 * TotalWeeks(last, first) <= DayNumber(last) - DayNumber(first) < 7 * TotalWeeks(last, first) + 7
  {
  }

  /**
   * The goal branch of `calculateInsights` as written (reached with a goal and a non-zero
   * average): `remaining = last - target`, and `average` is negative while weight is lost.
   */
  function GoalStatusAsWritten(remaining: real, average: real): (r: (Option<int>, InsightStatus))
  {
    if Abs(remaining) < 0.1 then (Some(0), OnTrack)
    else if remaining > 0.0 && average > 0.0 then (Some(Ceil(remaining / Abs(average))), OnTrack)
    else if remaining < 0.0 && average < 0.0 then (Some(Ceil(Abs(remaining) / Abs(average))), OnTrack)
    else if average == 0.0 then (None, NoChange)
    else if (remaining > 0.0 && average < 0.0) || (remaining < 0.0 && average > 0.0) then (None, Gaining)
    else (None, if average > 0.0 then OnTrack else Slowing)
  }

  /**
   * The goal branch as evidently intended: on track when the average moves the weight
   * towards the target, with the weeks the current pace needs; "gaining" when it moves away.
   */
  function GoalStatus(remaining: real, average: real): (r: (Option<int>, InsightStatus))
    requires average != 0.0
    ensures r.1 == OnTrack <==> Abs(remaining) < 0.1 || (remaining > 0.0) != (average > 0.0)
    ensures r.1 == Gaining <==> Abs(remaining) >= 0.1 && (remaining > 0.0) == (average > 0.0)
    ensures r.0.Some? <==> r.1 == OnTrack
    ensures r.0.Some? && Abs(remaining) >= 0.1 ==> r.0.value == PaceWeeks(remaining, average)
  {
    if Abs(remaining) < 0.1 then (Some(0), OnTrack)
    else if remaining > 0.0 && average < 0.0 then (Some(PaceWeeks(remaining, average)), OnTrack)
    else if remaining < 0.0 && average > 0.0 then (Some(PaceWeeks(remaining, average)), OnTrack)
    else (None, Gaining)
  }

  /** `Math.ceil(|remaining| / |average|)`: the fewest whole weeks at this pace that cover the distance. */
  function PaceWeeks(remaining: real, average: real): (w: int)
    requires average != 0.0 && remaining != 0.0
    ensures w >= 1
  {
    QuotientSign(Abs(remaining), Abs(average));
    Ceil(Abs(remaining) / Abs(average))
  }

  /** `PaceWeeks` weeks at the average pace cover the distance, and one week fewer does not. */
  lemma PaceWeeksCover(remaining: real, average: real)
    requires average != 0.0 && remaining != 0.0
    ensures var w := PaceWeeks(remaining, average);
      (w - 1) as real * Abs(average) < Abs(remaining) <= w as real * Abs(average)
  {
    var q := Abs(remaining) / Abs(average);
    CeilBounds(Abs(remaining), Abs(average), q, Ceil(q));
  }

  lemma CeilBounds(d: real, a: real, q: real, c: int)
    requires d > 0.0 && a > 0.0 && q == d / a
    requires c as real - 1.0 < q <= c as real
    ensures c >= 1
    ensures (c - 1) as real * a < d <= c as real * a
  {
    assert d == q * a;
    assert (c - 1) as real < q;
    MulStrict((c - 1) as real, q, a);
    MulMono(q, c as real, a);
  }

  lemma MulStrict(a: real, b: real, c: real)
    requires a < b && c > 0.0
    ensures a * c < b * c
  {
  }

  lemma MulMono(a: real, b: real, c: real)
    requires a <= b && c > 0.0
    ensures a * c <= b * c
  {
  }

  /** The status and projection given the goal (if any) and the average, either as written or corrected. */
  function GoalPart(goal: Option<WeightGoal>, last: real, average: real, corrected: bool): (Option<int>, InsightStatus) {
    if goal.Some? && average != 0.0 then
      var remaining := last - goal.value.targetWeight;
      if corrected then GoalStatus(remaining, average) else GoalStatusAsWritten(remaining, average)
    else if goal.None? then (None, NoGoal)
    else (None, NoChange)
  }

  /** The insight computed from the user's entries in date order. */
  function FromSorted(sorted: seq<WeightEntry>, goal: Option<WeightGoal>, corrected: bool): (ins: WeightInsight)
    requires sorted != []
    ensures ins.totalChange == sorted[|sorted| - 1].weightKg - sorted[0].weightKg
    ensures ins.averageWeeklyChange == AverageChange(sorted)
    ensures ins.bestWeek.None? <==> |sorted| < 2
    ensures ins.bestWeek.Some? ==>
      ins.bestWeek.value in WeeklyChanges(sorted) &&
      forall k :: 0 <= k < |WeeklyChanges(sorted)| ==> WeeklyChanges(sorted)[k].change <= ins.bestWeek.value.change
    ensures goal.None? ==> ins.status == NoGoal && ins.weeksToGoal.None?
    ensures goal.Some? && ins.averageWeeklyChange == 0.0 ==> ins.status == NoChange && ins.weeksToGoal.None?
    ensures goal.Some? && ins.averageWeeklyChange != 0.0 && corrected ==>
      (ins.weeksToGoal, ins.status) == GoalStatus(sorted[|sorted| - 1].weightKg - goal.value.targetWeight, ins.averageWeeklyChange)
    ensures goal.Some? && ins.averageWeeklyChange != 0.0 && !corrected ==>
      (ins.weeksToGoal, ins.status) == GoalStatusAsWritten(sorted[|sorted| - 1].weightKg - goal.value.targetWeight, ins.averageWeeklyChange)
  {
    var first, last := sorted[0], sorted[|sorted| - 1];
    var average := AverageChange(sorted);
    var goalPart := GoalPart(goal, last.weightKg, average, corrected);
    WeightInsight(last.weightKg - first.weightKg, average, BestWeek(WeeklyChanges(sorted)), goalPart.0, goalPart.1)
  }

  /** `totalChange / totalWeeks`: its sign is the sign of the total change. */
  function AverageChange(sorted: seq<WeightEntry>): (a: real)
    requires sorted != []
    ensures a < 0.0 <==> sorted[|sorted| - 1].weightKg < sorted[0].weightKg
    ensures a == 0.0 <==> sorted[|sorted| - 1].weightKg == sorted[0].weightKg
  {
    Average(sorted[|sorted| - 1].weightKg - sorted[0].weightKg, TotalWeeks(sorted[|sorted| - 1].weekStart, sorted[0].weekStart))
  }

  /** A total change spread over a positive number of weeks keeps its sign. */
  function Average(total: real, weeks: int): (a: real)
    requires weeks >= 1
    ensures a < 0.0 <==> total < 0.0
    ensures a == 0.0 <==> total == 0.0
  {
    QuotientSign(total, weeks as real);
    total / weeks as real
  }

  lemma QuotientSign(t: real, w: real)
    requires w > 0.0
    ensures t / w < 0.0 <==> t < 0.0
    ensures t / w == 0.0 <==> t == 0.0
  {
    DivThenMul(t, w);
    if t / w < 0.0 {
      MulStrict(t / w, 0.0, w);
    } else {
      MulMono(0.0, t / w, w);
    }
  }

  /** The average over the weeks spanned adds up to the total change. */
  lemma AverageTimesWeeks(total: real, weeks: int)
    requires weeks >= 1
    ensures Average(total, weeks) * weeks as real == total
  {
    DivThenMul(total, weeks as real);
  }

  lemma DivThenMul(t: real, w: real)
    requires w != 0.0
    ensures t / w * w == t
  {
  }

  /** `calculateInsights()`, with the goal branch as written or corrected. */
  function Calculate(entries: seq<WeightEntry>, user: Option<string>, goal: Option<WeightGoal>, corrected: bool): (ins: WeightInsight)
    ensures UserEntries(entries, user) == [] ==> ins == WeightInsight(0.0, 0.0, None, None, NoChange)
    ensures UserEntries(entries, user) != [] ==> ins == FromSorted(ByDate(UserEntries(entries, user)), goal, corrected)
  {
    var userEntries := UserEntries(entries, user);
    if userEntries == [] then WeightInsight(0.0, 0.0, None, None, NoChange)
    else FromSorted(ByDate(userEntries), goal, corrected)
  }

  /** `calculateInsights()` exactly as the source computes it. */
  function InsightsAsWritten(entries: seq<WeightEntry>, user: Option<string>, goal: Option<WeightGoal>): WeightInsight {
    Calculate(entries, user, goal, false)
  }

  /** `calculateInsights()` with the goal status corrected; the rest of the model uses this one. */
  function Insights(entries: seq<WeightEntry>, user: Option<string>, goal: Option<WeightGoal>): WeightInsight {
    Calculate(entries, user, goal, true)
  }

  /** The correction touches only the goal status and the weeks to goal; the figures are the hook's own. */
  lemma CorrectionKeepsFigures(entries: seq<WeightEntry>, user: Option<string>, goal: Option<WeightGoal>)
    ensures var c, w := Insights(entries, user, goal), InsightsAsWritten(entries, user, goal);
      c.totalChange == w.totalChange && c.averageWeeklyChange == w.averageWeeklyChange && c.bestWeek == w.bestWeek
  {
  }

  /** The written chain never reports "slowing", nor "no_change" once the average is non-zero. */
  lemma StatusAsWrittenReachable(remaining: real, average: real)
    requires average != 0.0
    ensures GoalStatusAsWritten(remaining, average).1 in {OnTrack, Gaining}
    ensures GoalStatusAsWritten(remaining, average).1 == OnTrack <==> Abs(remaining) < 0.1 || (remaining > 0.0) == (average > 0.0)
    ensures GoalStatusAsWritten(remaining, average).0.Some? <==> GoalStatusAsWritten(remaining, average).1 == OnTrack
  {
  }

  /** Neither variant of the calculator ever reports "slowing". */
  lemma {:induction false} NeverSlowing(entries: seq<WeightEntry>, user: Option<string>, goal: Option<WeightGoal>, corrected: bool)
    ensures Calculate(entries, user, goal, corrected).status != Slowing
  {
    var userEntries := UserEntries(entries, user);
    if userEntries != [] {
      SortedNeverSlowing(ByDate(userEntries), goal, corrected);
    }
  }

  lemma SortedNeverSlowing(sorted: seq<WeightEntry>, goal: Option<WeightGoal>, corrected: bool)
    requires sorted != []
    ensures FromSorted(sorted, goal, corrected).status != Slowing
  {
    var average := AverageChange(sorted);
    if goal.Some? && average != 0.0 && !corrected {
      StatusAsWrittenReachable(sorted[|sorted| - 1].weightKg - goal.value.targetWeight, average);
    }
  }

  /**
   * As written, a history whose weight fell, still above a lower goal, is reported as
   * "gaining" with no projection: the average of a loss is negative, and the chain treats
   * a positive average as the loss.
   */
  lemma AsWrittenCallsLossGaining(sorted: seq<WeightEntry>, goal: WeightGoal)
    requires sorted != []
    requires sorted[|sorted| - 1].weightKg < sorted[0].weightKg
    requires sorted[|sorted| - 1].weightKg - goal.targetWeight >= 0.1
    ensures FromSorted(sorted, Some(goal), false).status == Gaining
    ensures FromSorted(sorted, Some(goal), false).weeksToGoal.None?
  {
  }

  /** Corrected, the same history is on track, with the number of weeks the current pace needs. */
  lemma CorrectedCallsLossOnTrack(sorted: seq<WeightEntry>, goal: WeightGoal)
    requires sorted != []
    requires sorted[|sorted| - 1].weightKg < sorted[0].weightKg
    requires sorted[|sorted| - 1].weightKg - goal.targetWeight >= 0.1
    ensures var ins := FromSorted(sorted, Some(goal), true);
      ins.averageWeeklyChange < 0.0 && ins.status == OnTrack &&
      ins.weeksToGoal == Some(PaceWeeks(sorted[|sorted| - 1].weightKg - goal.targetWeight, ins.averageWeeklyChange))
  {
    var ins := FromSorted(sorted, Some(goal), true);
    CorrectedStatus(sorted, goal);
    PaceFromStatus(ins.weeksToGoal, ins.status, sorted[|sorted| - 1].weightKg - goal.targetWeight, ins.averageWeeklyChange);
  }

  lemma CorrectedStatus(sorted: seq<WeightEntry>, goal: WeightGoal)
    requires sorted != []
    requires sorted[|sorted| - 1].weightKg < sorted[0].weightKg
    ensures var ins := FromSorted(sorted, Some(goal), true);
      ins.averageWeeklyChange < 0.0 &&
      (ins.weeksToGoal, ins.status) == GoalStatus(sorted[|sorted| - 1].weightKg - goal.targetWeight, ins.averageWeeklyChange)
  {
  }

  lemma PaceFromStatus(weeks: Option<int>, status: InsightStatus, remaining: real, average: real)
    requires remaining >= 0.1 && average < 0.0 && (weeks, status) == GoalStatus(remaining, average)
    ensures weeks == Some(PaceWeeks(remaining, average))
  {
    TowardsLowerGoal(remaining, average);
  }

  lemma TowardsLowerGoal(remaining: real, average: real)
    requires remaining >= 0.1 && average < 0.0
    ensures GoalStatus(remaining, average) == (Some(PaceWeeks(remaining, average)), OnTrack)
  {
  }

  /** The example history: 80, 79 and 78 kg on three consecutive weeks, all the user's. */
  predicate LossExample(a: WeightEntry, b: WeightEntry, c: WeightEntry) {
    a.userId == "u" && b.userId == "u" && c.userId == "u" &&
    a.weightKg == 80.0 && b.weightKg == 79.0 && c.weightKg == 78.0 &&
    DayNumber(b.weekStart) == DayNumber(a.weekStart) + 7 && DayNumber(c.weekStart) == DayNumber(b.weekStart) + 7
  }

  /** The example's entries are the user's and already in date order. */
  lemma ExampleInOrder(a: WeightEntry, b: WeightEntry, c: WeightEntry)
    requires LossExample(a, b, c)
    ensures ByDate(UserEntries([a, b, c], Some("u"))) == [a, b, c]
  {
    AllMine([a, b, c], "u");
    OldestFirstIsFixed([a, b, c]);
  }

  /** As written, the example with a 75 kg goal is reported as "gaining". */
  lemma {:induction false} LossExampleAsWritten(a: WeightEntry, b: WeightEntry, c: WeightEntry, goal: WeightGoal)
    requires LossExample(a, b, c) && goal.targetWeight == 75.0
    ensures InsightsAsWritten([a, b, c], Some("u"), Some(goal)).status == Gaining
    ensures InsightsAsWritten([a, b, c], Some("u"), Some(goal)).weeksToGoal.None?
  {
    ExampleInOrder(a, b, c);
    AsWrittenCallsLossGaining([a, b, c], goal);
  }

  /** Corrected, the example is on track and three weeks from the goal. */
  lemma {:induction false} LossExampleCorrected(a: WeightEntry, b: WeightEntry, c: WeightEntry, goal: WeightGoal)
    requires LossExample(a, b, c) && goal.targetWeight == 75.0
    ensures Insights([a, b, c], Some("u"), Some(goal)).status == OnTrack
    ensures Insights([a, b, c], Some("u"), Some(goal)).weeksToGoal == Some(3)
  {
    ExampleInOrder(a, b, c);
    CorrectedCallsLossOnTrack([a, b, c], goal);
    ExampleAverage(a, b, c);
    PaceOfExample(AverageChange([a, b, c]));
  }

  lemma PaceOfExample(average: real)
    requires average == -1.0
    ensures PaceWeeks(3.0, average) == 3
  {
  }

  lemma ExampleAverage(a: WeightEntry, b: WeightEntry, c: WeightEntry)
    requires a.weightKg == 80.0 && c.weightKg == 78.0
    requires DayNumber(b.weekStart) == DayNumber(a.weekStart) + 7 && DayNumber(c.weekStart) == DayNumber(b.weekStart) + 7
    ensures AverageChange([a, b, c]) == -1.0
  {
    var s := [a, b, c];
    assert TotalWeeks(s[|s| - 1].weekStart, s[0].weekStart) == 2;
  }

  /** A filter on the user id keeps a list whose every entry is that user's. */
  lemma {:induction false} AllMine(s: seq<WeightEntry>, u: string)
    requires forall i :: 0 <= i < |s| ==> s[i].userId == u
    ensures UserEntries(s, Some(u)) == s
  {
    if s != [] {
      AllMine(s[1..], u);
      assert [s[0]] + s[1..] == s;
    }
  }

}
