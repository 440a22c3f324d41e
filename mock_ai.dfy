/** The demo meal history (`generateMockMealHistory` in lib/mock-ai.ts).
    `Math.random` is the parameter `rnd`: `rnd(k)` is the k-th value drawn. */
module MockAi {
  import opened Types
  import opened Time
  import opened MealClassifier
  import opened NutritionCalc

  /** The number of days the home page asks for, the parameter's default. */
  const DefaultHistoryDays := 7

  /** Draws per generated meal: base calories, protein, carbohydrates, fat, fiber, confidence. */
  const DrawsPerMeal := 6

  function Digit(d: int): char
    requires 0 <= d < 10
  {
    "0123456789"[d]
  }

  /** The decimal text of `n`, as a template literal prints it. */
  function NatToString(n: nat): (s: string)
    ensures |s| >= 1
    ensures n >= 10 ==> |s| >= 2
  {
    if n < 10 then [Digit(n)] else NatToString(n / 10) + [Digit(n % 10)]
  }

  /** Different numbers print differently. */
  lemma {:induction false} NatToStringInjective(a: nat, b: nat)
    requires NatToString(a) == NatToString(b)
    ensures a == b
    decreases a
  {
    if a >= 10 && b >= 10 {
      var sa, sb := NatToString(a), NatToString(b);
      assert sa[..|sa| - 1] == NatToString(a / 10);
      assert sb[..|sb| - 1] == NatToString(b / 10);
      NatToStringInjective(a / 10, b / 10);
      assert Digit(a % 10) == sa[|sa| - 1] == sb[|sb| - 1] == Digit(b % 10);
    }
  }

  /** The id of the i-th generated meal: `meal-${i}`. */
  function MockMealId(i: nat): string {
    "meal-" + NatToString(i)
  }

  lemma MockMealIdInjective(i: nat, j: nat)
    requires i != j
    ensures MockMealId(i) != MockMealId(j)
  {
    if MockMealId(i) == MockMealId(j) {
      assert MockMealId(i)[5..] == NatToString(i);
      assert MockMealId(j)[5..] == NatToString(j);
      NatToStringInjective(i, j);
    }
  }

  /** The picture of the i-th generated meal, one of five cycled through. */
  function MockImageIndex(i: nat): (k: int)
    ensures 1 <= k <= 5
  {
    (i % 5) + 1
  }

  function MockImageUrl(i: nat): string {
    "/mock-images/meal-" + NatToString(MockImageIndex(i)) + ".jpg"
  }

  /** The clock time of the three meals of a day: 08:30, 13:00 and 19:30. */
  function MealSlotTime(slot: int): (t: int)
    requires 0 <= slot < 3
    ensures 0 <= t < MsPerDay
  {
    if slot == 0 then 8 * MsPerHour + 30 * MsPerMinute
    else if slot == 1 then 13 * MsPerHour
    else 19 * MsPerHour + 30 * MsPerMinute
  }

  /** The meal type each of the three daily slots is classified as. */
  function MealSlotType(slot: int): MealType
    requires 0 <= slot < 3
  {
    if slot == 0 then Breakfast else if slot == 1 then Lunch else Dinner
  }

  /** When the i-th generated meal is captured: `i / 3` days before `now`,
      at the clock time of slot `i % 3`. */
  function MockCapturedAt(i: nat, now: int): int {
    (DayKey(now) - i / 3) * MsPerDay + MealSlotTime(i % 3)
  }

  /** The nutrition of a generated meal, from the six draws starting at `rnd(k)`. */
  function MockNutrition(k: nat, rnd: nat -> real): NutritionData {
    NutritionData(
      Round(300.0 + rnd(k) * 500.0) as real,
      Round(15.0 + rnd(k + 1) * 30.0) as real,
      Round(40.0 + rnd(k + 2) * 60.0) as real,
      Round(10.0 + rnd(k + 3) * 30.0) as real,
      Some(Round(3.0 + rnd(k + 4) * 10.0) as real),
      None,
      None,
      ["Mock food item"],
      0.85 + rnd(k + 5) * 0.15)
  }

  /** The i-th generated meal. */
  function MockMeal(i: nat, now: int, rnd: nat -> real): Meal {
    var capturedAt := MockCapturedAt(i, now);
    Meal(MockMealId(i), MockImageUrl(i), None, ClassifyMealByTime(capturedAt),
         capturedAt, capturedAt, MockNutrition(DrawsPerMeal * i, rnd))
  }

  /** Moving the clock back `i / 3` days and setting the slot's time lands on `MockCapturedAt(i, now)`. */
  lemma SlotTimestamp(i: nat, now: int)
    ensures i % 3 == 0 ==> SetHours(SubDays(now, i / 3), 8, 30, 0, 0) == MockCapturedAt(i, now)
    ensures i % 3 == 1 ==> SetHours(SubDays(now, i / 3), 13, 0, 0, 0) == MockCapturedAt(i, now)
    ensures i % 3 == 2 ==> SetHours(SubDays(now, i / 3), 19, 30, 0, 0) == MockCapturedAt(i, now)
  {
  }

  /** The first `n` generated meals. */
  function MockMeals(n: nat, now: int, rnd: nat -> real): (ms: seq<Meal>)
    ensures |ms| == n
    ensures forall i :: 0 <= i < n ==> ms[i] == MockMeal(i, now, rnd)
  {
    seq(n, (i: int) requires i >= 0 => MockMeal(i, now, rnd))
  }

  lemma MockMealsSnoc(n: nat, now: int, rnd: nat -> real)
    ensures MockMeals(n + 1, now, rnd) == MockMeals(n, now, rnd) + [MockMeal(n, now, rnd)]
  {
  }

  /** The list `generateMockMealHistory(days)` returns: three meals per day. */
  function MockMealHistory(days: int, now: int, rnd: nat -> real): (ms: seq<Meal>)
    ensures |ms| == if days > 0 then 3 * days else 0
  {
    MockMeals(if days > 0 then 3 * days else 0, now, rnd)
  }

  /** `generateMockMealHistory(days)`: a loop that moves a copy of the clock
      back `i / 3` days, sets its time by `i % 3`, and appends a meal. */
  method GenerateMockMealHistory(days: int, now: int, rnd: nat -> real) returns (meals: seq<Meal>)
    ensures meals == MockMealHistory(days, now, rnd)
  {
    meals := [];
    var i := 0;
    while i < days * 3
      invariant 0 <= i && (days > 0 ==> i <= days * 3) && (days <= 0 ==> i == 0)
      invariant meals == MockMeals(i, now, rnd)
    {
      var daysAgo := i / 3;
      var capturedAt := SubDays(now, daysAgo);
      var mealIndex := i % 3;
      if mealIndex == 0 { capturedAt := SetHours(capturedAt, 8, 30, 0, 0); }
      if mealIndex == 1 { capturedAt := SetHours(capturedAt, 13, 0, 0, 0); }
      if mealIndex == 2 { capturedAt := SetHours(capturedAt, 19, 30, 0, 0); }
      SlotTimestamp(i, now);
      assert capturedAt == MockCapturedAt(i, now);

      var baseCalories := 300.0 + rnd(DrawsPerMeal * i) * 500.0;
      var nutrition := NutritionData(
        Round(baseCalories) as real,
        Round(15.0 + rnd(DrawsPerMeal * i + 1) * 30.0) as real,
        Round(40.0 + rnd(DrawsPerMeal * i + 2) * 60.0) as real,
        Round(10.0 + rnd(DrawsPerMeal * i + 3) * 30.0) as real,
        Some(Round(3.0 + rnd(DrawsPerMeal * i + 4) * 10.0) as real),
        None,
        None,
        ["Mock food item"],
        0.85 + rnd(DrawsPerMeal * i + 5) * 0.15);
      assert nutrition == MockNutrition(DrawsPerMeal * i, rnd);
      var meal := Meal(
        "meal-" + NatToString(i),
        "/mock-images/meal-" + NatToString((i % 5) + 1) + ".jpg",
        None,
        ClassifyMealByTime(capturedAt),
        capturedAt,
        capturedAt,
        nutrition);
      assert meal == MockMeal(i, now, rnd);
      MockMealsSnoc(i, now, rnd);
      meals := meals + [meal];
      i := i + 1;
    }
    assert i == if days > 0 then 3 * days else 0;
  }

  /** The ids of the generated meals are pairwise distinct. */
  lemma MockIdsDistinct(days: int, now: int, rnd: nat -> real)
    ensures var ms := MockMealHistory(days, now, rnd);
      forall i, j :: 0 <= i < j < |ms| ==> ms[i].id != ms[j].id
  {
    var ms := MockMealHistory(days, now, rnd);
    forall i, j | 0 <= i < j < |ms| ensures ms[i].id != ms[j].id {
      MockMealIdInjective(i, j);
    }
  }

  /** Meal i is captured i / 3 days before `now`, at the clock time of its
      daily slot, was created at the same instant, and is classified as the
      breakfast, lunch or dinner of that day. */
  lemma MockMealTiming(i: nat, now: int, rnd: nat -> real)
    ensures var m := MockMeal(i, now, rnd);
      && DayKey(m.capturedAt) == DayKey(now) - i / 3
      && TimeOfDay(m.capturedAt) == MealSlotTime(i % 3)
      && m.createdAt == m.capturedAt
      && m.mealType == MealSlotType(i % 3)
      && m.id == MockMealId(i)
      && m.imageUrl == "/mock-images/meal-" + NatToString(MockImageIndex(i)) + ".jpg"
  {
    var m := MockMeal(i, now, rnd);
    DayAndTime(DayKey(now) - i / 3, MealSlotTime(i % 3));
    assert m.capturedAt == (DayKey(now) - i / 3) * MsPerDay + MealSlotTime(i % 3);
    var h := HourOf(m.capturedAt);
    if i % 3 == 0 {
      assert h == 8;
    } else if i % 3 == 1 {
      assert h == 13;
    } else {
      assert h == 19;
    }
  }

  /** With every draw in [0, 1), the generated nutrition lies in the ranges the generator aims at. */
  lemma MockNutritionRanges(i: nat, rnd: nat -> real)
    requires forall k: nat :: 0.0 <= rnd(k) < 1.0
    ensures var n := MockNutrition(DrawsPerMeal * i, rnd);
      && 300.0 <= n.calories <= 800.0
      && 15.0 <= n.protein <= 45.0
      && 40.0 <= n.carbohydrates <= 100.0
      && 10.0 <= n.fat <= 40.0
      && n.fiber.Some? && 3.0 <= n.fiber.value <= 13.0
      && 0.85 <= n.confidence < 1.0
  {
    var k := DrawsPerMeal * i;
    RoundWithin(300.0 + rnd(k) * 500.0, 300, 800);
    RoundWithin(15.0 + rnd(k + 1) * 30.0, 15, 45);
    RoundWithin(40.0 + rnd(k + 2) * 60.0, 40, 100);
    RoundWithin(10.0 + rnd(k + 3) * 30.0, 10, 40);
    RoundWithin(3.0 + rnd(k + 4) * 10.0, 3, 13);
  }

  /** Rounding a value in [lo, hi) gives a whole number in [lo, hi]. */
  lemma RoundWithin(x: real, lo: int, hi: int)
    requires lo as real <= x < hi as real
    ensures lo <= Round(x) <= hi
  {
  }
}
