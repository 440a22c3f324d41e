/** The home page's meal state (app/page.tsx): loading or seeding on mount,
    adding an analysed meal, deleting a meal, and the recent-meals strip. */
module HomePage {
  import opened Types
  import opened Time
  import opened Sequences
  import opened MealClassifier
  import opened NutritionCalc
  import opened Storage
  import opened MockAi

  /** How many meals the recent-meals strip shows. */
  const RecentCount := 3

  class HomePage {
    /** The shared storage service. */
    const store: StorageService
    /** The `meals` state, newest first. */
    var meals: seq<Meal>

    /** The page before its mount effect has run: no meals in state. */
    constructor (store: StorageService)
      ensures this.store == store && meals == []
    {
      this.store := store;
      meals := [];
    }

    /** The state shows what storage holds. */
    predicate InSync()
      reads this, store
    {
      meals == store.GetMeals()
    }

    /** The mount effect. With no stored meals and no seeded flag, generate a
        week of demo meals, save them one by one (each in front of the
        previous), set the flag and show the demo meals; otherwise show the
        stored meals. `writeOk` says whether the storage writes go through. */
    method Mount(now: int, rnd: nat -> real, writeOk: bool) returns (seeded: bool)
      modifies this`meals, store`meals, store`demoSeeded
      ensures seeded <==> old(store.GetMeals()) == [] && !old(store.IsDemoSeeded())
      ensures seeded ==> meals == MockMealHistory(DefaultHistoryDays, now, rnd)
      ensures seeded && store.available && writeOk ==>
        store.GetMeals() == Reversed(meals) && store.IsDemoSeeded()
      ensures seeded && !(store.available && writeOk) ==>
        store.meals == old(store.meals) && store.demoSeeded == old(store.demoSeeded)
      ensures !seeded ==> meals == old(store.GetMeals()) && InSync()
      ensures !seeded ==> store.meals == old(store.meals) && store.demoSeeded == old(store.demoSeeded)
    {
      var storedMeals := store.GetMeals();
      if |storedMeals| == 0 && !store.IsDemoSeeded() {
        var demoMeals := GenerateMockMealHistory(DefaultHistoryDays, now, rnd);
        SaveEach(demoMeals, writeOk);
        store.MarkDemoSeeded(writeOk);
        meals := demoMeals;
        seeded := true;
      } else {
        meals := storedMeals;
        seeded := false;
      }
    }

    /** `demoMeals.forEach(meal => storage.saveMeal(meal))`: as each save puts
        its meal in front, the list ends up stored back to front. */
    method SaveEach(demoMeals: seq<Meal>, writeOk: bool)
      modifies store`meals
      ensures store.available && writeOk ==> store.GetMeals() == Reversed(demoMeals) + old(store.GetMeals())
      ensures !(store.available && writeOk) ==> store.meals == old(store.meals)
    {
      var k := 0;
      while k < |demoMeals|
        invariant 0 <= k <= |demoMeals|
        invariant store.available && writeOk ==> store.GetMeals() == Reversed(demoMeals[..k]) + old(store.GetMeals())
        invariant !(store.available && writeOk) ==> store.meals == old(store.meals)
      {
        assert demoMeals[..k + 1] == demoMeals[..k] + [demoMeals[k]];
        ReversedSnoc(demoMeals[..k], demoMeals[k]);
        store.SaveMeal(demoMeals[k], writeOk);
        k := k + 1;
      }
      assert demoMeals[..k] == demoMeals;
    }

    /** `handleAnalysisComplete`: a new meal captured now, classified by the
        current time, saved in front of the stored list and shown in front of
        the current state. Its id (a fresh UUID in the app) is a parameter. */
    method HandleAnalysisComplete(id: string, imageUrl: string, nutrition: NutritionData, now: int, writeOk: bool)
      modifies this`meals, store`meals
      ensures var m := Meal(id, imageUrl, None, ClassifyMealByTime(now), now, now, nutrition);
        && meals == [m] + old(meals)
        && store.meals == SetItem(store.available, writeOk, old(store.meals), [m] + old(store.GetMeals()))
      ensures meals[0].mealType == ClassifyMealByTime(now) && meals[0].capturedAt == now
      ensures OnDay(meals, DayKey(now)) == [meals[0]] + OnDay(old(meals), DayKey(now))
      ensures RecentMeals()[0] == meals[0]
      ensures old(InSync()) && store.available && writeOk ==> InSync()
    {
      var newMeal := Meal(id, imageUrl, None, ClassifyMealByTime(now), now, now, nutrition);
      store.SaveMeal(newMeal, writeOk);
      meals := [newMeal] + meals;
      FilterCons(newMeal, old(meals), (m: Meal) => DayKey(m.capturedAt) == DayKey(now));
    }

    /** `handleDeleteMeal`: delete in storage and drop the meals carrying `id`
        from the state. */
    method HandleDeleteMeal(id: string, writeOk: bool)
      modifies this`meals, store`meals
      ensures meals == WithoutId(old(meals), id)
      ensures store.meals == SetItem(store.available, writeOk, old(store.meals), WithoutId(old(store.GetMeals()), id))
      ensures old(InSync()) && store.available && writeOk ==> InSync()
    {
      store.DeleteMeal(id, writeOk);
      meals := WithoutId(meals, id);
    }

    /** `meals.slice(0, 3)`: the newest three meals, or all of them when fewer. */
    function RecentMeals(): (r: seq<Meal>)
      reads this
      ensures |r| == if |meals| < RecentCount then |meals| else RecentCount
      ensures forall i :: 0 <= i < |r| ==> r[i] == meals[i]
    {
      if |meals| < RecentCount then meals else meals[..RecentCount]
    }
  }

  /** After seeding, storage holds the demo week oldest first: a later mount
      that reads it back shows the dinner of six days ago at the head of the
      list, and so in the recent-meals strip. */
  lemma SeededStoreStartsWithOldest(now: int, rnd: nat -> real)
    ensures var stored := Reversed(MockMealHistory(DefaultHistoryDays, now, rnd));
      && |stored| == 3 * DefaultHistoryDays
      && stored[0] == MockMeal(3 * DefaultHistoryDays - 1, now, rnd)
      && DayKey(stored[0].capturedAt) == DayKey(now) - (DefaultHistoryDays - 1)
      && stored[0].mealType == Dinner
  {
    MockMealTiming(3 * DefaultHistoryDays - 1, now, rnd);
  }
}
