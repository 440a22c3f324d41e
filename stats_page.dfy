/** The statistics computed by the statistics page (app/stats/page.tsx):
    totals and daily averages over a chosen date range, and calories for
    each of the last seven calendar days. */
module StatsPage {
  import opened Types
  import opened Time
  import opened Sequences
  import opened NutritionCalc

  /** The range selector: '7d', '30d' or 'all'. */
  datatype DateRange = Last7Days | Last30Days | AllTime

  /** Number of days of the chart, ending today. */
  const ChartLength := 7

  /** Whether meal `m` is kept by the range filter: captured at or after the
      same instant seven (thirty) days before `now`; everything for 'all'. */
  predicate InRange(range: DateRange, now: int, m: Meal) {
    match range
    case Last7Days => m.capturedAt >= SubDays(now, 7)
    case Last30Days => m.capturedAt >= SubDays(now, 30)
    case AllTime => true
  }

  /** The meals the range keeps, in stored order. */
  function RangeMeals(meals: seq<Meal>, range: DateRange, now: int): seq<Meal> {
    Filter(meals, (m: Meal) => InRange(range, now, m))
  }

  /** The divisor of the averages: the range's length in days, or for 'all'
      one day per three meals, but at least one. */
  function DaysCount(range: DateRange, mealCount: nat): (d: real)
    ensures d >= 1.0
    ensures range == Last7Days ==> d == 7.0
    ensures range == Last30Days ==> d == 30.0
    ensures range == AllTime && mealCount < 3 ==> d == 1.0
    ensures range == AllTime && mealCount >= 3 ==> d * 3.0 == mealCount as real
  {
    match range
    case Last7Days => 7.0
    case Last30Days => 30.0
    case AllTime => if 1.0 >= mealCount as real / 3.0 then 1.0 else mealCount as real / 3.0
  }

  /** What the page's statistics memo holds. `chartDays` are the day numbers
      the chart's weekday labels are printed from. */
  datatype RangeStats = RangeStats(
    totalMeals: int,
    avgCalories: real,
    avgProtein: real,
    avgCarbs: real,
    avgFat: real,
    totalProtein: real,
    totalCarbs: real,
    totalFat: real,
    chartDays: seq<int>,
    chartCalories: seq<int>)

  /** The k-th chart day (k = 0 is six days ago, k = 6 is today). */
  function ChartDay(now: int, k: int): int {
    DayKey(SubDays(now, ChartLength - 1 - k))
  }

  /** The chart's days, oldest first. */
  function ChartDays(now: int): seq<int> {
    seq(ChartLength, (k: int) => ChartDay(now, k))
  }

  /** The chart's bars: each chart day's rounded calories over all stored meals. */
  function ChartCalories(meals: seq<Meal>, now: int): seq<int> {
    seq(ChartLength, (k: int) => DailyStatsOf(meals, ChartDay(now, k)).totalCalories)
  }

  /** The statistics for `meals` over `range` when the clock reads `now`. */
  function RangeStatsOf(meals: seq<Meal>, range: DateRange, now: int): RangeStats {
    var filtered := RangeMeals(meals, range, now);
    var days := DaysCount(range, |filtered|);
    RangeStats(
      |filtered|,
      Sum(filtered, Calories) / days,
      Sum(filtered, Protein) / days,
      Sum(filtered, Carbohydrates) / days,
      Sum(filtered, Fat) / days,
      Sum(filtered, Protein),
      Sum(filtered, Carbohydrates),
      Sum(filtered, Fat),
      ChartDays(now),
      ChartCalories(meals, now))
  }

  /** The memo's computation: filter by range, add up, divide, then walk the
      last seven days from the oldest and take each day's rounded calories. */
  method ComputeRangeStats(meals: seq<Meal>, range: DateRange, now: int) returns (stats: RangeStats)
    ensures stats == RangeStatsOf(meals, range, now)
  {
    var filteredMeals := meals;
    if range == Last7Days {
      var sevenDaysAgo := SubDays(now, 7);
      filteredMeals := Filter(meals, (m: Meal) => m.capturedAt >= sevenDaysAgo);
    } else if range == Last30Days {
      var thirtyDaysAgo := SubDays(now, 30);
      filteredMeals := Filter(meals, (m: Meal) => m.capturedAt >= thirtyDaysAgo);
    } else {
      FilterAllKept(meals, (m: Meal) => InRange(range, now, m));
    }
    assert filteredMeals == RangeMeals(meals, range, now) by {
      if range != AllTime {
        FilterSamePredicate(meals, (m: Meal) => InRange(range, now, m),
          (m: Meal) => m.capturedAt >= SubDays(now, if range == Last7Days then 7 else 30));
      }
    }

    var totalCalories := Sum(filteredMeals, Calories);
    var totalProtein := Sum(filteredMeals, Protein);
    var totalCarbs := Sum(filteredMeals, Carbohydrates);
    var totalFat := Sum(filteredMeals, Fat);

    var daysCount := DaysCount(range, |filteredMeals|);

    var chartDays: seq<int> := [];
    var chartCalories: seq<int> := [];
    var i := ChartLength - 1;
    while i >= 0
      invariant -1 <= i <= ChartLength - 1
      invariant |chartDays| == |chartCalories| == ChartLength - 1 - i
      invariant forall k :: 0 <= k < |chartDays| ==> chartDays[k] == ChartDay(now, k)
      invariant forall k :: 0 <= k < |chartCalories| ==>
        chartCalories[k] == DailyStatsOf(meals, ChartDay(now, k)).totalCalories
    {
      var date := SubDays(now, i);
      var dayStats := CalculateDailyStats(meals, DayKey(date));
      chartDays := chartDays + [DayKey(date)];
      chartCalories := chartCalories + [dayStats.totalCalories];
      i := i - 1;
    }

    assert chartDays == ChartDays(now);
    assert chartCalories == ChartCalories(meals, now);
    stats := RangeStats(
      |filteredMeals|,
      totalCalories / daysCount,
      totalProtein / daysCount,
      totalCarbs / daysCount,
      totalFat / daysCount,
      totalProtein,
      totalCarbs,
      totalFat,
      chartDays,
      chartCalories);
  }

  /** A meal is counted exactly when it is stored and the range keeps it;
      the count never exceeds the number of stored meals, and 'all' counts every meal. */
  lemma RangeMembers(meals: seq<Meal>, range: DateRange, now: int)
    ensures forall m :: m in RangeMeals(meals, range, now) <==> m in meals && InRange(range, now, m)
    ensures RangeStatsOf(meals, range, now).totalMeals <= |meals|
    ensures range == AllTime ==> RangeMeals(meals, range, now) == meals
  {
    FilterMembers(meals, (m: Meal) => InRange(range, now, m));
    if range == AllTime {
      FilterAllKept(meals, (m: Meal) => InRange(range, now, m));
    }
  }

  /** Every meal of the last seven days is also a meal of the last thirty days. */
  lemma RangesNested(meals: seq<Meal>, now: int)
    ensures forall m :: m in RangeMeals(meals, Last7Days, now) ==> m in RangeMeals(meals, Last30Days, now)
  {
    RangeMembers(meals, Last7Days, now);
    RangeMembers(meals, Last30Days, now);
  }

  /** Each average times the number of days gives back the range's total. */
  lemma AveragesScaleBack(meals: seq<Meal>, range: DateRange, now: int)
    ensures var s := RangeStatsOf(meals, range, now);
      var days := DaysCount(range, s.totalMeals);
      && s.avgCalories * days == Sum(RangeMeals(meals, range, now), Calories)
      && s.avgProtein * days == s.totalProtein
      && s.avgCarbs * days == s.totalCarbs
      && s.avgFat * days == s.totalFat
  {
    var s := RangeStatsOf(meals, range, now);
    var days := DaysCount(range, s.totalMeals);
    MultiplyBack(s.avgCalories, Sum(RangeMeals(meals, range, now), Calories), days);
    MultiplyBack(s.avgProtein, s.totalProtein, days);
    MultiplyBack(s.avgCarbs, s.totalCarbs, days);
    MultiplyBack(s.avgFat, s.totalFat, days);
  }

  lemma MultiplyBack(average: real, total: real, days: real)
    requires days != 0.0 && average == total / days
    ensures average * days == total
  {
  }

  /** The chart covers seven consecutive days ending today, and its calories
      come from all stored meals whatever the selected range. */
  lemma ChartShape(meals: seq<Meal>, range: DateRange, other: DateRange, now: int)
    ensures var s := RangeStatsOf(meals, range, now);
      && |s.chartDays| == ChartLength && |s.chartCalories| == ChartLength
      && s.chartDays[ChartLength - 1] == DayKey(now)
      && (forall k :: 0 <= k < ChartLength - 1 ==> s.chartDays[k + 1] == s.chartDays[k] + 1)
      && s.chartCalories == RangeStatsOf(meals, other, now).chartCalories
  {
    var s := RangeStatsOf(meals, range, now);
    forall k | 0 <= k < ChartLength - 1 ensures s.chartDays[k + 1] == s.chartDays[k] + 1 {
      assert s.chartDays[k] == DayKey(SubDays(now, ChartLength - 1 - k));
    }
  }
}
