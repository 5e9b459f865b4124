/** The derived metrics App.tsx recomputes on every render: BMI and its colour band,
    BMR (Mifflin-St Jeor), TDEE, the calorie target, consumed and remaining calories,
    the consumed-percent bar and label, and the glasses approximation sent to the
    advice gateway. */
module Metrics {
  import opened Types

  /** Math.round on an exact real: the nearest integer, halves rounded up. */
  function JsRound(x: real): (n: int)
    ensures n as real - 0.5 <= x < n as real + 0.5
  {
    (x + 0.5).Floor
  }

  // ---------------------------------------------------------------- BMI

  /** weight / (height in metres)^2, dividing by the height in metres twice (the same value
      as dividing once by its square, over exact reals). */
  function Bmi(p: UserProfile): (bmi: real)
    requires p.height > 0.0
    ensures bmi * (p.height / 100.0) * (p.height / 100.0) == p.weight
    ensures p.weight >= 0.0 ==> bmi >= 0.0
  {
    var hMeter := p.height / 100.0;
    p.weight / hMeter / hMeter
  }

  lemma BmiIncreasesWithWeight(p: UserProfile, q: UserProfile)
    requires p.height == q.height > 0.0
    requires p.weight <= q.weight
    ensures Bmi(p) <= Bmi(q)
  {
    var hMeter := p.height / 100.0;
    assert p.weight / hMeter <= q.weight / hMeter;
  }

  lemma BmiDecreasesWithHeight(p: UserProfile, q: UserProfile)
    requires 0.0 < p.height <= q.height
    requires p.weight == q.weight >= 0.0
    ensures Bmi(q) <= Bmi(p)
  {
    var hp, hq := p.height / 100.0, q.height / 100.0;
    assert p.weight / hq <= p.weight / hp;
    assert p.weight / hq / hq <= p.weight / hp / hq;
    assert p.weight / hp / hq <= p.weight / hp / hp;
  }

  /** The colour of the BMI chip on the dashboard. */
  datatype BmiBand = Emerald | Amber | Rose

  function Band(bmi: real): (b: BmiBand)
    ensures b == Emerald <==> bmi < 23.0
    ensures b == Amber <==> 23.0 <= bmi < 25.0
    ensures b == Rose <==> 25.0 <= bmi
  {
    if bmi < 23.0 then Emerald else if bmi < 25.0 then Amber else Rose
  }

  function BandRank(b: BmiBand): nat
  {
    match b
    case Emerald => 0
    case Amber => 1
    case Rose => 2
  }

  /** A larger BMI never gets a milder colour. */
  lemma BandMonotonic(x: real, y: real)
    requires x <= y
    ensures BandRank(Band(x)) <= BandRank(Band(y))
  {
  }

  // ------------------------------------------------------ energy budget

  /** Mifflin-St Jeor: 10 weight + 6.25 height - 5 age, then +5 for men and -161 otherwise. */
  function Bmr(p: UserProfile): real
  {
    if p.gender == Male then
      10.0 * p.weight + 6.25 * p.height - 5.0 * p.age + 5.0
    else
      10.0 * p.weight + 6.25 * p.height - 5.0 * p.age - 161.0
  }

  /** BMR is affine in the body: each kilogram adds 10 kcal, each centimetre 6.25 kcal, each
      year takes 5 kcal away, and a body of zero weight, height and age is left with the
      gender constant. */
  lemma BmrSlopes(p: UserProfile, d: real)
    ensures Bmr(p.(weight := p.weight + d)) == Bmr(p) + 10.0 * d
    ensures Bmr(p.(height := p.height + d)) == Bmr(p) + 6.25 * d
    ensures Bmr(p.(age := p.age + d)) == Bmr(p) - 5.0 * d
    ensures Bmr(p.(weight := 0.0, height := 0.0, age := 0.0)) == if p.gender == Male then 5.0 else -161.0
  {
  }

  /** For the same body, the two gender branches differ by exactly 166 kcal. */
  lemma BmrGenderGap(p: UserProfile)
    ensures Bmr(p.(gender := Male)) - Bmr(p.(gender := Female)) == 166.0
  {
  }

  function Tdee(p: UserProfile): real
  {
    Bmr(p) * p.activityLevel
  }

  /** The activity multiplier scales the gender gap too: for the same body and activity, men's
      TDEE exceeds women's by 166 times the activity level. */
  lemma TdeeGenderGap(p: UserProfile)
    ensures Tdee(p.(gender := Male)) - Tdee(p.(gender := Female)) == 166.0 * p.activityLevel
  {
    BmrGenderGap(p);
  }

  /** Math.floor(TDEE - 500): the largest integer not above TDEE less the 500 kcal deficit. */
  function TargetCalories(p: UserProfile): (target: int)
    ensures target as real <= Tdee(p) - 500.0 < target as real + 1.0
  {
    (Tdee(p) - 500.0).Floor
  }

  /** A worked example: a sedentary 25-year-old man of 170 cm and 70 kg. */
  lemma EnergyBudgetExample()
    ensures var p := UserProfile("", 25.0, Male, 170.0, 70.0, 70.0, 1.2);
      Bmr(p) == 1642.5 && Tdee(p) == 1971.0 && TargetCalories(p) == 1471
  {
    var p := UserProfile("", 25.0, Male, 170.0, 70.0, 70.0, 1.2);
    assert Bmr(p) == 1642.5;
    assert Tdee(p) == 1971.0;
    assert Tdee(p) - 500.0 == 1471.0;
  }

  // ------------------------------------------------------ eaten today

  /** foods.reduce((acc, curr) => acc + curr.calories, 0), folded from the left. */
  function ConsumedCalories(foods: seq<FoodItem>): (total: real)
    ensures (forall i :: 0 <= i < |foods| ==> foods[i].calories >= 0.0) ==> total >= 0.0
  {
    if foods == [] then 0.0
    else ConsumedCalories(foods[..|foods| - 1]) + foods[|foods| - 1].calories
  }

  lemma ConsumedAppend(foods: seq<FoodItem>, f: FoodItem)
    ensures ConsumedCalories(foods + [f]) == ConsumedCalories(foods) + f.calories
  {
    assert (foods + [f])[..|foods|] == foods;
  }

  lemma {:induction false} ConsumedConcat(a: seq<FoodItem>, b: seq<FoodItem>)
    ensures ConsumedCalories(a + b) == ConsumedCalories(a) + ConsumedCalories(b)
  {
    if b == [] {
      assert a + b == a;
    } else {
      var b' := b[..|b| - 1];
      var last := b[|b| - 1];
      assert a + b == (a + b') + [last];
      assert b == b' + [last];
      ConsumedAppend(a + b', last);
      ConsumedAppend(b', last);
      ConsumedConcat(a, b');
    }
  }

  /** Math.max(0, target - consumed). */
  function RemainingCalories(target: int, consumed: real): (remaining: real)
    ensures remaining >= 0.0
    ensures consumed <= target as real ==> remaining == target as real - consumed
    ensures target as real <= consumed ==> remaining == 0.0
  {
    if 0.0 >= target as real - consumed then 0.0 else target as real - consumed
  }

  /** The "what else can I eat" button is shown exactly while something is left. */
  lemma SuggestionOfferedIffUnderTarget(target: int, consumed: real)
    ensures RemainingCalories(target, consumed) > 0.0 <==> consumed < target as real
  {
  }

  /** Width of the consumed bar: consumed / target * 100, capped at 100. */
  function PercentBar(consumed: real, target: int): (width: real)
    requires target != 0
    ensures width <= 100.0
    ensures target > 0 && consumed >= 0.0 ==> width >= 0.0
    ensures target > 0 && consumed <= target as real ==> width == consumed / target as real * 100.0
    ensures target > 0 && consumed >= target as real ==> width == 100.0
  {
    var pct := consumed / target as real * 100.0;
    if pct <= 100.0 then pct else 100.0
  }

  /** The percentage printed above the bar: Math.round(consumed / target * 100), not capped. */
  function PercentLabel(consumed: real, target: int): (shown: int)
    requires target != 0
    ensures shown as real - 0.5 <= consumed / target as real * 100.0 < shown as real + 0.5
  {
    JsRound(consumed / target as real * 100.0)
  }

  /** Below the target the printed label is the bar width rounded to a whole percent. */
  lemma LabelRoundsBar(consumed: real, target: int)
    requires target > 0 && 0.0 <= consumed <= target as real
    ensures PercentBar(consumed, target) - 0.5 < PercentLabel(consumed, target) as real
    ensures PercentLabel(consumed, target) as real <= PercentBar(consumed, target) + 0.5
    ensures 0 <= PercentLabel(consumed, target) <= 100
  {
  }

  /** Math.round(waterIntake / 250): the glass count sent to the advice gateway. */
  function GlassesApprox(waterIntake: real): (glasses: int)
    ensures glasses as real - 0.5 <= waterIntake / 250.0 < glasses as real + 0.5
  {
    JsRound(waterIntake / 250.0)
  }

  lemma GlassesApproxExact(k: int)
    ensures GlassesApprox(250.0 * k as real) == k
  {
    assert 250.0 * k as real / 250.0 == k as real;
  }
}
