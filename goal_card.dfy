/**
 * The weight goal card: the progress bar's percentage and colour, the direction icon, and
 * the guard in front of setting a new target.
 */
module WeightGoalView {
  import opened Wrappers
  import opened JsMath
  import opened Text
  import opened CalendarDates
  import opened WeightData
  import opened WeightInsights
  import opened WeightEntries

  datatype BarColor = Green | Yellow | Red | Primary

  /** The switch on the insight status. */
  function StatusColor(s: InsightStatus): (c: BarColor)
    ensures c == Green <==> s == OnTrack
    ensures c == Yellow <==> s == Slowing
    ensures c == Red <==> s == Gaining
  {
    match s
    case OnTrack => Green
    case Slowing => Yellow
    case Gaining => Red
    case _ => Primary
  }

  /** `goal && currentWeight`: a goal, and a current weight that is neither missing nor zero. */
  predicate ShowsProgress(goal: Option<WeightGoal>, current: Option<real>) {
    goal.Some? && current.Some? && current.value != 0.0
  }

  /** The fraction of the way from the start weight to the target, as a percentage: unclamped. */
  function RawProgress(g: WeightGoal, current: real): real
    requires g.startWeight != g.targetWeight
  {
    (g.startWeight - current) / (g.startWeight - g.targetWeight) * 100.0
  }

  /**
   * The card's `progressPercent` and `progressColor`: both stay at 0 and the primary colour
   * unless a goal and a current weight are shown; then the percentage is the progress
   * clamped to [0, 100] (0 when start and target coincide) and the colour follows the status.
   */
  method Progress(goal: Option<WeightGoal>, insights: WeightInsight, current: Option<real>) returns (percent: real, color: BarColor)
    ensures 0.0 <= percent <= 100.0
    ensures !ShowsProgress(goal, current) ==> percent == 0.0 && color == Primary
    ensures ShowsProgress(goal, current) ==> color == StatusColor(insights.status)
    ensures ShowsProgress(goal, current) && goal.value.startWeight == goal.value.targetWeight ==> percent == 0.0
    ensures ShowsProgress(goal, current) && goal.value.startWeight != goal.value.targetWeight ==>
      percent == MinReal(100.0, MaxReal(0.0, RawProgress(goal.value, current.value)))
  {
    percent := 0.0;
    color := Primary;
    if ShowsProgress(goal, current) {
      var g := goal.value;
      var totalChangeNeeded := g.startWeight - g.targetWeight;
      var changeAchieved := g.startWeight - current.value;
      if Abs(totalChangeNeeded) > 0.0 {
        percent := MinReal(100.0, MaxReal(0.0, changeAchieved / totalChangeNeeded * 100.0));
      }
      match insights.status
      case OnTrack => color := Green;
      case Slowing => color := Yellow;
      case Gaining => color := Red;
      case _ => color := Primary;
    }
  }

  /** At the start weight the unclamped progress is 0, and at the target it is 100. */
  lemma ProgressEnds(g: WeightGoal)
    requires g.startWeight != g.targetWeight
    ensures RawProgress(g, g.startWeight) == 0.0
    ensures RawProgress(g, g.targetWeight) == 100.0
  {
    var d := g.startWeight - g.targetWeight;
    assert d / d == 1.0;
  }

  /**
   * The progress grows as the weight moves the way the trend icon points: down for a
   * goal below the start, up otherwise.
   */
  lemma {:induction false} ProgressGrowsTowardsTarget(g: WeightGoal, a: real, b: real)
    requires g.startWeight != g.targetWeight
    requires if TrendDown(g) then b < a else a < b
    ensures RawProgress(g, a) < RawProgress(g, b)
  {
    var d := g.startWeight - g.targetWeight;
    assert RawProgress(g, b) - RawProgress(g, a) == (a - b) / d * 100.0;
    if d > 0.0 {
      assert (a - b) / d > 0.0;
    } else {
      assert (a - b) / d > 0.0;
    }
  }

  /** Fed the hook's insights, the bar is never yellow: the calculator never reports slowing. */
  lemma NeverYellow(store: WeightEntryStore)
    ensures StatusColor(store.CurrentInsights().status) != Yellow
  {
  }

  /** The icon between current and goal points down exactly for a goal below the start. */
  predicate TrendDown(g: WeightGoal) {
    g.targetWeight < g.startWeight
  }

  /** `parseFloat(targetWeight)`, kept only when it is a number above zero. */
  function GoalTarget(text: string): (t: Option<real>)
    ensures t.Some? <==> ParseFloat(text).Some? && ParseFloat(text).value > 0.0
    ensures t.Some? ==> t == ParseFloat(text)
  {
    match ParseFloat(text)
    case Some(v) => if v > 0.0 then Some(v) else None
    case None => None
  }

  /** Leading digits are enough for `parseFloat`: "72kg" sets a goal of 72; "-5" sets none. */
  lemma GoalTargetExamples()
    ensures GoalTarget("72kg") == Some(72.0)
    ensures GoalTarget("-5").None?
    ensures GoalTarget("").None?
  {
    assert DigitRun("72kg") == 2 by {
      assert "72kg"[1..] == "2kg" && "2kg"[1..] == "kg";
      assert DigitRun("kg") == 0;
    }
    assert "72kg"[..2] == "72";
    assert DigitsValue("72") == 72 by { assert "72"[..1] == "7"; }
    assert "-5"[1..] == "5";
    assert DigitRun("5") == 1 by { assert "5"[1..] == ""; }
    assert "5"[..1] == "5";
  }

  class GoalCard {
    var targetWeight: string

    constructor (initial: string)
      ensures targetWeight == initial
    {
      targetWeight := initial;
    }

    /** "Update Goal" empties the text field. */
    method ClearTarget()
      modifies this
      ensures targetWeight == ""
    {
      targetWeight := "";
    }

    /** `handleSetGoal()` with `onSetGoal` the hook's `setWeightGoal` on day `today`. */
    method HandleSetGoal(store: WeightEntryStore, today: Day) returns (newGoal: Option<WeightGoal>)
      modifies store
      ensures store.user == old(store.user) && store.entries == old(store.entries)
      ensures GoalTarget(targetWeight).None? ==> newGoal.None? && store.goal == old(store.goal)
      ensures GoalTarget(targetWeight).Some? && (store.entries == [] || store.user.None?) ==>
        newGoal.None? && store.goal == old(store.goal)
      ensures GoalTarget(targetWeight).Some? && store.entries != [] && store.user.Some? ==>
        newGoal == Some(WeightGoal(store.user.value, GoalTarget(targetWeight).value, today, LatestEntry(store.entries).weightKg)) &&
        store.goal == newGoal
    {
      var weightValue := GoalTarget(targetWeight);
      if weightValue.Some? {
        newGoal := store.SetWeightGoal(weightValue.value, today);
      } else {
        newGoal := None;
      }
    }
  }
}
