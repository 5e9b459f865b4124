/** The weight-loss projection of components/WeightPredictor.tsx: a fixed 500 kcal daily
    deficit, 7700 kcal per kilogram, and a projection curve sampled at 11 points. */
module WeightPredictor {
  import opened Types

  const DailyDeficit: real := 500.0
  const KcalPerKg: real := 7700.0
  /** Number of intervals of the curve; it has Points + 1 samples. */
  const Points: int := 10

  /** Math.ceil on an exact real: the least integer not below x. */
  function Ceil(x: real): (n: int)
    ensures n as real - 1.0 < x <= n as real
  {
    -((-x).Floor)
  }

  function Min(a: int, b: int): int
  {
    if a <= b then a else b
  }

  function WeightToLose(user: UserProfile): real
  {
    user.weight - user.targetWeight
  }

  /** Days at the fixed deficit until the weight to lose is burnt off; 0 when nothing is to lose. */
  function DaysToGoal(weightToLose: real): (days: int)
    ensures weightToLose <= 0.0 ==> days == 0
    ensures weightToLose > 0.0 ==> days >= 1
    ensures weightToLose > 0.0 ==>
      days as real - 1.0 < weightToLose * KcalPerKg / DailyDeficit <= days as real
  {
    if weightToLose > 0.0 then Ceil(weightToLose * KcalPerKg / DailyDeficit) else 0
  }

  /** The branch that shows "goal reached" instead of the chart. */
  predicate GoalMet(user: UserProfile)
  {
    WeightToLose(user) <= 0.0
  }

  /** Math.ceil(daysToGoal / points): the spacing of the samples, in days. */
  function Step(days: int): (step: int)
    requires days > 0
    ensures step >= 1
    ensures days <= Points * step < days + Points
  {
    Ceil(days as real / Points as real)
  }

  /** One point of the curve; the weight is unrounded (toFixed is not modelled). */
  datatype Sample = Sample(day: int, weight: real)

  /** Sample i: day min(i * step, daysToGoal), weight the start weight less what that many
      days of deficit burn. */
  function SampleAt(weight: real, days: int, i: int): Sample
    requires days > 0
  {
    var day := Min(i * Step(days), days);
    Sample(day, weight - (day as real * DailyDeficit) / KcalPerKg)
  }

  /** The value predictionData holds: empty when there are no days to go. */
  function Projection(weight: real, days: int): seq<Sample>
  {
    if days <= 0 then []
    else seq(Points + 1, i requires 0 <= i <= Points => SampleAt(weight, days, i))
  }

  /** The loop of the predictionData memo, pushing one sample per iteration. */
  method PredictionData(weight: real, daysToGoal: int) returns (data: seq<Sample>)
    ensures data == Projection(weight, daysToGoal)
    ensures daysToGoal <= 0 ==> data == []
    ensures daysToGoal > 0 ==>
      |data| == Points + 1 && data[0] == Sample(0, weight) && data[Points].day == daysToGoal
  {
    if daysToGoal <= 0 {
      return [];
    }
    data := [];
    var step := Ceil(daysToGoal as real / Points as real);
    var i := 0;
    while i <= Points
      invariant 0 <= i <= Points + 1
      invariant |data| == i
      invariant forall k :: 0 <= k < i ==> data[k] == SampleAt(weight, daysToGoal, k)
    {
      var day := Min(i * step, daysToGoal);
      var weightLost := (day as real * DailyDeficit) / KcalPerKg;
      data := data + [Sample(day, weight - weightLost)];
      i := i + 1;
    }
    ProjectionShape(weight, daysToGoal);
  }

  lemma MulMonotone(i: int, j: int, step: int)
    requires 0 <= i <= j && step >= 0
    ensures i * step <= j * step
  {
    assert j * step == i * step + (j - i) * step;
  }

  /** What the chart is drawn from: 11 samples, days from 0 up to exactly daysToGoal and never
      decreasing, each weight the start weight less the deficit burnt by that day, so the weights
      never increase. */
  lemma ProjectionShape(weight: real, days: int)
    requires days > 0
    ensures var s := Projection(weight, days);
      && |s| == Points + 1
      && s[0] == Sample(0, weight)
      && s[Points].day == days
      && (forall i :: 0 <= i < |s| ==> 0 <= s[i].day <= days)
      && (forall i :: 0 <= i < |s| ==> s[i].weight == weight - s[i].day as real * DailyDeficit / KcalPerKg)
      && (forall i, j :: 0 <= i <= j < |s| ==> s[i].day <= s[j].day && s[j].weight <= s[i].weight)
  {
    var s := Projection(weight, days);
    var step := Step(days);
    assert s[Points].day == days;
    forall i | 0 <= i < |s|
      ensures 0 <= s[i].day <= days
    {
      MulMonotone(0, i, step);
    }
    forall i, j | 0 <= i <= j < |s|
      ensures s[i].day <= s[j].day && s[j].weight <= s[i].weight
    {
      MulMonotone(i, j, step);
      assert s[i].day as real * DailyDeficit <= s[j].day as real * DailyDeficit;
    }
  }

  /** The goal-met view is shown exactly when there are no days to go, which is exactly when the
      projection is empty. */
  lemma GoalMetIffNoProjection(user: UserProfile)
    ensures GoalMet(user) <==> DaysToGoal(WeightToLose(user)) == 0
    ensures GoalMet(user) <==> Projection(user.weight, DaysToGoal(WeightToLose(user))) == []
  {
  }

  /** 7.7 kg to lose at 500 kcal a day: 118.58 days, so 119, in steps of 12 days. */
  lemma ProjectionExample(weight: real)
    ensures DaysToGoal(7.7) == 119
    ensures Step(119) == 12
    ensures Projection(weight, 119)[9].day == 108 && Projection(weight, 119)[Points].day == 119
  {
    assert 7.7 * KcalPerKg / DailyDeficit == 118.58;
    assert DaysToGoal(7.7) == 119;
  }
}
