/** The meal timeline (components/meals/MealTimeline.tsx): meals of the
    selected type, grouped by calendar day, days newest first, each day
    with its nutrition totals and its meals newest first. */
module MealTimeline {
  import opened Types
  import opened Time
  import opened Sequences
  import opened NutritionCalc
  import opened ArraySort

  /** The `filter` prop: `'all'` or one meal type. */
  datatype MealFilter = AllMeals | OnlyType(t: MealType)

  /** The meals the filter lets through, in input order. */
  function FilterMeals(meals: seq<Meal>, filter: MealFilter): seq<Meal> {
    match filter
    case AllMeals => meals
    case OnlyType(t) => OfType(meals, t)
  }

  /** A meal is shown exactly when the filter admits its type; a type filter
      shows as many meals as there are of that type. */
  lemma FilterMealsMembers(meals: seq<Meal>, filter: MealFilter)
    ensures forall m :: m in FilterMeals(meals, filter) <==>
      m in meals && (filter.OnlyType? ==> m.mealType == filter.t)
    ensures filter.OnlyType? ==> |FilterMeals(meals, filter)| == CountOf(meals, filter.t)
  {
    if filter.OnlyType? {
      FilterMembers(meals, (m: Meal) => m.mealType == filter.t);
    }
  }

  /** The calendar days on which the meals were captured. */
  function DaysOf(ms: seq<Meal>): set<int> {
    set m | m in ms :: DayKey(m.capturedAt)
  }

  lemma DaysOfSnoc(ms: seq<Meal>, m: Meal)
    ensures DaysOf(ms + [m]) == DaysOf(ms) + {DayKey(m.capturedAt)}
  {
    assert forall x :: x in ms + [m] <==> x in ms || x == m;
  }

  /** Adding one more meal to the grouping appends it to its own day's group
      and leaves every other day's group as it was. */
  lemma OnDaySnoc(ms: seq<Meal>, m: Meal, d: int)
    ensures OnDay(ms + [m], d) == OnDay(ms, d) + (if DayKey(m.capturedAt) == d then [m] else [])
  {
    FilterSnoc(ms, m, (m: Meal) => DayKey(m.capturedAt) == d);
  }

  /** The `reduce` into a record keyed by day: each meal is appended to the
      group of its day, a group being created the first time its day is met.
      `keys` is the record's key order, the order in which days were first met. */
  method GroupByDay(ms: seq<Meal>) returns (groups: map<int, seq<Meal>>, keys: seq<int>)
    ensures groups.Keys == DaysOf(ms)
    ensures forall d :: d in groups ==> groups[d] == OnDay(ms, d)
    ensures NoDuplicates(keys)
    ensures forall d :: d in keys <==> d in groups
  {
    groups := map[];
    keys := [];
    var i := 0;
    while i < |ms|
      invariant 0 <= i <= |ms|
      invariant groups.Keys == DaysOf(ms[..i])
      invariant forall d :: d in groups ==> groups[d] == OnDay(ms[..i], d)
      invariant NoDuplicates(keys)
      invariant forall d :: d in keys <==> d in groups
    {
      var meal := ms[i];
      var dateKey := DayKey(meal.capturedAt);
      assert ms[..i + 1] == ms[..i] + [meal];
      DaysOfSnoc(ms[..i], meal);
      if dateKey !in groups {
        OnDayNone(ms[..i], dateKey);
        groups := groups[dateKey := []];
        keys := keys + [dateKey];
      }
      forall d | d in groups ensures OnDay(ms[..i + 1], d) == OnDay(ms[..i], d) + (if d == dateKey then [meal] else []) {
        OnDaySnoc(ms[..i], meal, d);
      }
      groups := groups[dateKey := groups[dateKey] + [meal]];
      i := i + 1;
    }
    assert ms[..i] == ms;
  }

  /** A day on which no meal was captured has no meals. */
  lemma OnDayNone(ms: seq<Meal>, d: int)
    requires d !in DaysOf(ms)
    ensures OnDay(ms, d) == []
  {
    forall i | 0 <= i < |ms| ensures DayKey(ms[i].capturedAt) != d {
      assert ms[i] in ms;
    }
    FilterNoneKept(ms, (m: Meal) => DayKey(m.capturedAt) == d);
  }

  /** `calculateDayTotals`: the four nutrition sums of one day's meals. */
  datatype DayTotals = DayTotals(calories: real, protein: real, carbs: real, fat: real)

  function CalculateDayTotals(dayMeals: seq<Meal>): (t: DayTotals)
    ensures dayMeals == [] ==> t == DayTotals(0.0, 0.0, 0.0, 0.0)
  {
    DayTotals(Sum(dayMeals, Calories), Sum(dayMeals, Protein),
              Sum(dayMeals, Carbohydrates), Sum(dayMeals, Fat))
  }

  /** The totals do not depend on the order of the day's meals, so totalling
      before the meals are sorted gives the totals of the sorted list. */
  lemma DayTotalsPermutation(a: seq<Meal>, b: seq<Meal>)
    requires multiset(a) == multiset(b)
    ensures CalculateDayTotals(a) == CalculateDayTotals(b)
  {
    SumPermutation(a, b, Calories);
    SumPermutation(a, b, Protein);
    SumPermutation(a, b, Carbohydrates);
    SumPermutation(a, b, Fat);
  }

  /** Totalling two lists of meals one after the other adds their totals. */
  lemma DayTotalsConcat(a: seq<Meal>, b: seq<Meal>)
    ensures var ta, tb := CalculateDayTotals(a), CalculateDayTotals(b);
      CalculateDayTotals(a + b) ==
        DayTotals(ta.calories + tb.calories, ta.protein + tb.protein, ta.carbs + tb.carbs, ta.fat + tb.fat)
  {
    SumConcat(a, b, Calories);
    SumConcat(a, b, Protein);
    SumConcat(a, b, Carbohydrates);
    SumConcat(a, b, Fat);
  }

  /** One day of the timeline: its key, its totals and its meals as listed. */
  datatype DaySection = DaySection(day: int, totals: DayTotals, meals: seq<Meal>)

  /** What the timeline shows: the empty state (whose message depends on
      whether a type filter is active), or the day sections in order. */
  datatype Timeline = EmptyState(filtered: bool) | Days(sections: seq<DaySection>)

  /** A day section is well formed when it lists exactly the given day's
      meals, newest first, with the totals of those meals. */
  ghost predicate SectionOf(s: DaySection, ms: seq<Meal>) {
    && multiset(s.meals) == multiset(OnDay(ms, s.day))
    && SortedDescending(s.meals, (m: Meal) => m.capturedAt)
    && s.totals == CalculateDayTotals(s.meals)
  }

  /** No meals, no days. */
  lemma DaysOfEmpty(ms: seq<Meal>)
    ensures DaysOf(ms) == {} <==> ms == []
  {
    if ms != [] {
      assert DayKey(ms[0].capturedAt) in DaysOf(ms);
    }
  }

  /** `Object.keys(groupedMeals).sort(...)`: the day keys, newest first. As
      no key repeats, the order is strict. */
  method SortDates(keys: seq<int>) returns (sortedDates: seq<int>)
    requires NoDuplicates(keys)
    ensures |sortedDates| == |keys|
    ensures forall d :: d in sortedDates <==> d in keys
    ensures forall i, j :: 0 <= i < j < |sortedDates| ==> sortedDates[i] > sortedDates[j]
  {
    var dates := new int[|keys|](i requires 0 <= i < |keys| => keys[i]);
    assert dates[..] == keys;
    SortDescendingBy(dates, (d: int) => d);
    sortedDates := dates[..];
    NoDuplicatesPermutation(keys, sortedDates);
    StrictlyDescending(sortedDates);
    assert forall d :: d in sortedDates <==> d in multiset(sortedDates);
    assert forall d :: d in keys <==> d in multiset(keys);
    assert |sortedDates| == |multiset(sortedDates)| == |multiset(keys)| == |keys|;
  }

  /** `dayMeals.sort(...)`: one day's meals, newest first. */
  method SortDayMeals(dayMeals: seq<Meal>) returns (listed: seq<Meal>)
    ensures multiset(listed) == multiset(dayMeals)
    ensures SortedDescending(listed, (m: Meal) => m.capturedAt)
  {
    var cells := new Meal[|dayMeals|](i requires 0 <= i < |dayMeals| => dayMeals[i]);
    assert cells[..] == dayMeals;
    SortDescendingBy(cells, (m: Meal) => m.capturedAt);
    listed := cells[..];
  }

  /** Render the timeline for `meals` under `filter`. */
  method RenderTimeline(meals: seq<Meal>, filter: MealFilter) returns (view: Timeline)
    ensures view.EmptyState? <==> FilterMeals(meals, filter) == []
    ensures view.EmptyState? ==> view.filtered == filter.OnlyType?
    ensures view.Days? ==>
      && (forall i, j :: 0 <= i < j < |view.sections| ==> view.sections[i].day > view.sections[j].day)
      && (forall d :: d in DaysOf(FilterMeals(meals, filter)) <==>
            exists i :: 0 <= i < |view.sections| && view.sections[i].day == d)
      && (forall i :: 0 <= i < |view.sections| ==> SectionOf(view.sections[i], FilterMeals(meals, filter)))
  {
    var filteredMeals := FilterMeals(meals, filter);
    var groupedMeals, keys := GroupByDay(filteredMeals);
    var sortedDates := SortDates(keys);

    DaysOfEmpty(filteredMeals);
    if |sortedDates| == 0 {
      assert groupedMeals.Keys == {};
      return EmptyState(filter != AllMeals);
    }
    assert sortedDates[0] in sortedDates;
    assert sortedDates[0] in groupedMeals.Keys;

    var sections: seq<DaySection> := [];
    var k := 0;
    while k < |sortedDates|
      invariant 0 <= k <= |sortedDates|
      invariant |sections| == k
      invariant forall i :: 0 <= i < k ==> sections[i].day == sortedDates[i]
      invariant forall i :: 0 <= i < k ==> SectionOf(sections[i], filteredMeals)
    {
      var dateKey := sortedDates[k];
      var dayMeals := groupedMeals[dateKey];
      var dayTotals := CalculateDayTotals(dayMeals);
      var listed := SortDayMeals(dayMeals);
      DayTotalsPermutation(dayMeals, listed);
      var section := DaySection(dateKey, dayTotals, listed);
      assert SectionOf(section, filteredMeals);
      ghost var done := sections;
      sections := sections + [section];
      assert forall i :: 0 <= i < k ==> sections[i] == done[i];
      k := k + 1;
    }
    view := Days(sections);
    assert forall d :: d in DaysOf(filteredMeals) <==> d in sortedDates;
  }
  /** Distinct integers in non-increasing order are strictly decreasing. */
  lemma StrictlyDescending(s: seq<int>)
    requires SortedDescending(s, (d: int) => d)
    requires NoDuplicates(s)
    ensures forall i, j :: 0 <= i < j < |s| ==> s[i] > s[j]
  {
  }
}
