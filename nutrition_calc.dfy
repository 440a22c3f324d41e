/** Daily statistics, goal percentages and the gauge colour (lib/nutrition-calc.ts),
    with the sums and selections the statistics pages share. */
module NutritionCalc {
  import opened Types
  import opened Time
  import opened Sequences

  /** JavaScript `Math.round`: the nearest integer, halves rounded up. */
  function Round(x: real): (r: int)
    ensures r as real - 0.5 <= x < r as real + 0.5
  {
    (x + 0.5).Floor
  }

  /** The sum of one nutrition field over `ms`, added left to right as
      `forEach` and `reduce` do. */
  function Sum(ms: seq<Meal>, f: Macro): real
    decreases |ms|
  {
    if |ms| == 0 then 0.0 else Sum(ms[..|ms| - 1], f) + MacroOf(ms[|ms| - 1].nutrition, f)
  }

  lemma {:induction false} SumConcat(a: seq<Meal>, b: seq<Meal>, f: Macro)
    ensures Sum(a + b, f) == Sum(a, f) + Sum(b, f)
    decreases |b|
  {
    if |b| == 0 {
      assert a + b == a;
    } else {
      var b' := b[..|b| - 1];
      assert (a + b)[..|a + b| - 1] == a + b';
      SumConcat(a, b', f);
    }
  }

  /** Taking one meal out of a sequence takes its value out of the sum. */
  lemma SumRemove(b: seq<Meal>, j: int, f: Macro)
    requires 0 <= j < |b|
    ensures Sum(b, f) == Sum(b[..j] + b[j + 1..], f) + MacroOf(b[j].nutrition, f)
  {
    assert b == (b[..j] + [b[j]]) + b[j + 1..];
    SumConcat(b[..j] + [b[j]], b[j + 1..], f);
    SumConcat(b[..j], b[j + 1..], f);
    assert (b[..j] + [b[j]])[..j] == b[..j];
  }

  lemma SumSnoc(ms: seq<Meal>, m: Meal)
    ensures forall f :: Sum(ms + [m], f) == Sum(ms, f) + MacroOf(m.nutrition, f)
  {
    assert (ms + [m])[..|ms|] == ms;
  }

  /** A sum does not depend on the order of the meals. */
  lemma {:induction false} SumPermutation(a: seq<Meal>, b: seq<Meal>, f: Macro)
    requires multiset(a) == multiset(b)
    ensures Sum(a, f) == Sum(b, f)
    decreases |a|
  {
    if |a| == 0 {
      assert |b| == |multiset(b)| == 0;
    } else {
      var j := RemoveLast(a, b);
      SumPermutation(a[..|a| - 1], b[..j] + b[j + 1..], f);
      SumRemove(b, j, f);
    }
  }

  /** The last meal of `a` sits somewhere in its rearrangement `b`; without
      it, the rest of both are still rearrangements of each other. */
  lemma RemoveLast(a: seq<Meal>, b: seq<Meal>) returns (j: int)
    requires multiset(a) == multiset(b) && |a| > 0
    ensures 0 <= j < |b| && b[j] == a[|a| - 1]
    ensures multiset(a[..|a| - 1]) == multiset(b[..j] + b[j + 1..])
  {
    var a', x := a[..|a| - 1], a[|a| - 1];
    assert a == a' + [x];
    assert x in multiset(b);
    j :| 0 <= j < |b| && b[j] == x;
    assert b == b[..j] + [x] + b[j + 1..];
    assert multiset(a') == multiset(a) - multiset{x};
    assert multiset(b[..j] + b[j + 1..]) == multiset(b) - multiset{x};
  }

  /** The meals captured on calendar day `date`, in input order. */
  function OnDay(ms: seq<Meal>, date: int): seq<Meal> {
    Filter(ms, (m: Meal) => DayKey(m.capturedAt) == date)
  }

  /** The meals of type `t`, in input order. */
  function OfType(ms: seq<Meal>, t: MealType): seq<Meal> {
    Filter(ms, (m: Meal) => m.mealType == t)
  }

  /** How many meals have type `t`. */
  function CountOf(ms: seq<Meal>, t: MealType): nat {
    |OfType(ms, t)|
  }

  lemma OfTypeSnoc(ms: seq<Meal>, m: Meal, t: MealType)
    ensures OfType(ms + [m], t) == OfType(ms, t) + (if m.mealType == t then [m] else [])
  {
    FilterSnoc(ms, m, (m: Meal) => m.mealType == t);
  }

  lemma CountOfSnoc(ms: seq<Meal>, m: Meal, t: MealType)
    ensures CountOf(ms + [m], t) == CountOf(ms, t) + (if m.mealType == t then 1 else 0)
  {
    FilterSnoc(ms, m, (m: Meal) => m.mealType == t);
  }

  /** Every meal has exactly one of the five types, so the five counts add up to the number of meals. */
  lemma {:induction false} CountsPartition(ms: seq<Meal>)
    ensures CountOf(ms, Breakfast) + CountOf(ms, Lunch) + CountOf(ms, Snack)
          + CountOf(ms, Dinner) + CountOf(ms, LateNight) == |ms|
    decreases |ms|
  {
    if |ms| > 0 {
      var ms' := ms[..|ms| - 1];
      assert ms == ms' + [ms[|ms| - 1]];
      CountsPartition(ms');
      forall t: MealType ensures CountOf(ms, t) == CountOf(ms', t) + (if ms[|ms| - 1].mealType == t then 1 else 0) {
        CountOfSnoc(ms', ms[|ms| - 1], t);
      }
    }
  }

  /** The per-type counts of `ms`. */
  function MealCountsOf(ms: seq<Meal>): (c: MealCounts)
    ensures forall t :: c.Get(t) == CountOf(ms, t)
  {
    MealCounts(CountOf(ms, Breakfast), CountOf(ms, Lunch), CountOf(ms, Snack),
               CountOf(ms, Dinner), CountOf(ms, LateNight))
  }

  /** Counting one more meal increments the count of its type. */
  lemma CountsStep(ms: seq<Meal>, m: Meal)
    ensures MealCountsOf(ms + [m]) == MealCountsOf(ms).Increment(m.mealType)
  {
    forall t ensures CountOf(ms + [m], t) == CountOf(ms, t) + (if m.mealType == t then 1 else 0) {
      CountOfSnoc(ms, m, t);
    }
  }

  /** What `calculateDailyStats(meals, date)` returns. */
  function DailyStatsOf(meals: seq<Meal>, date: int): DailyStats {
    var dayMeals := OnDay(meals, date);
    DailyStats(
      date,
      Round(Sum(dayMeals, Calories)),
      Round(Sum(dayMeals, Protein)),
      Round(Sum(dayMeals, Carbohydrates)),
      Round(Sum(dayMeals, Fat)),
      MealCountsOf(dayMeals),
      dayMeals)
  }

  /** `calculateDailyStats`: select the day's meals, then add up their
      nutrition and count their types in one pass. */
  method CalculateDailyStats(meals: seq<Meal>, date: int) returns (stats: DailyStats)
    ensures stats == DailyStatsOf(meals, date)
  {
    var dayMeals := OnDay(meals, date);
    var totalCalories, totalProtein, totalCarbs, totalFat := 0.0, 0.0, 0.0, 0.0;
    var mealCounts := ZeroCounts;
    var i := 0;
    while i < |dayMeals|
      invariant 0 <= i <= |dayMeals|
      invariant totalCalories == Sum(dayMeals[..i], Calories)
      invariant totalProtein == Sum(dayMeals[..i], Protein)
      invariant totalCarbs == Sum(dayMeals[..i], Carbohydrates)
      invariant totalFat == Sum(dayMeals[..i], Fat)
      invariant mealCounts == MealCountsOf(dayMeals[..i])
    {
      var meal := dayMeals[i];
      assert dayMeals[..i + 1] == dayMeals[..i] + [meal];
      SumSnoc(dayMeals[..i], meal);
      totalCalories := totalCalories + meal.nutrition.calories;
      totalProtein := totalProtein + meal.nutrition.protein;
      totalCarbs := totalCarbs + meal.nutrition.carbohydrates;
      totalFat := totalFat + meal.nutrition.fat;
      CountsStep(dayMeals[..i], meal);
      mealCounts := mealCounts.Increment(meal.mealType);
      i := i + 1;
    }
    assert dayMeals[..i] == dayMeals;
    stats := DailyStats(date, Round(totalCalories), Round(totalProtein), Round(totalCarbs),
                        Round(totalFat), mealCounts, dayMeals);
  }

  /** The day's meals are exactly the input meals captured on `date`, in
      input order; each type has a count and the counts add up to their number. */
  lemma DailyStatsMeals(meals: seq<Meal>, date: int)
    ensures var s := DailyStatsOf(meals, date);
      && s.date == date
      && (forall m :: m in s.meals <==> m in meals && DayKey(m.capturedAt) == date)
      && (forall t :: s.mealCounts.Get(t) == CountOf(s.meals, t))
      && s.mealCounts.Total() == |s.meals|
  {
    FilterMembers(meals, (m: Meal) => DayKey(m.capturedAt) == date);
    CountsPartition(OnDay(meals, date));
  }

  /** A day without meals has all totals and all counts zero. */
  lemma {:induction false} EmptyDay(meals: seq<Meal>, date: int)
    requires forall i :: 0 <= i < |meals| ==> DayKey(meals[i].capturedAt) != date
    ensures var s := DailyStatsOf(meals, date);
      && s.meals == []
      && s.totalCalories == 0 && s.totalProtein == 0 && s.totalCarbs == 0 && s.totalFat == 0
      && s.mealCounts == ZeroCounts
  {
    FilterNoneKept(meals, (m: Meal) => DayKey(m.capturedAt) == date);
  }

  /** Rounding happens once, after summing: two meals of 0.4 kcal make a day of 1 kcal. */
  lemma RoundAfterSumming(a: Meal, b: Meal, date: int)
    requires a.nutrition.calories == 0.4 && b.nutrition.calories == 0.4
    requires DayKey(a.capturedAt) == date && DayKey(b.capturedAt) == date
    ensures DailyStatsOf([a, b], date).totalCalories == 1
    ensures Round(a.nutrition.calories) + Round(b.nutrition.calories) == 0
  {
    FilterAllKept([a, b], (m: Meal) => DayKey(m.capturedAt) == date);
    assert [a, b][..1] == [a];
    assert [a][..0] == [];
    assert Sum([a], Calories) == 0.4;
    assert Sum([a, b], Calories) == 0.8;
  }

  /** The share of a goal reached, as a whole percentage; a goal of zero gives 0. */
  function CalculatePercentage(current: real, goal: real): (r: int)
    ensures goal == 0.0 ==> r == 0
    ensures goal != 0.0 ==> r as real - 0.5 <= current / goal * 100.0 < r as real + 0.5
  {
    if goal == 0.0 then 0 else Round((current / goal) * 100.0)
  }

  lemma PercentageExample()
    ensures CalculatePercentage(100.0, 200.0) == 50
  {
  }

  const Green: string := "#10b981"
  const Yellow: string := "#f59e0b"
  const Red: string := "#ef4444"

  /** The gauge colour: green below 90 %, yellow from 90 % up to and including 105 %, red above. */
  function GetColorByPercentage(percentage: real): (colour: string)
    ensures colour == Green <==> percentage < 90.0
    ensures colour == Yellow <==> 90.0 <= percentage <= 105.0
    ensures colour == Red <==> percentage > 105.0
  {
    if percentage < 90.0 then Green
    else if percentage <= 105.0 then Yellow
    else Red
  }
}
