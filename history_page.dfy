/** The history page's meal state (app/history/page.tsx): the stored meals,
    deletion, and the per-type counts on the filter badges. */
module HistoryPage {
  import opened Types
  import opened NutritionCalc
  import opened Storage

  /** The badge counts: every meal, and the meals of each type. */
  datatype HistoryCounts = HistoryCounts(all: int, perType: MealCounts)

  class HistoryPage {
    /** The shared storage service. */
    const store: StorageService
    /** The `meals` state, newest first. */
    var meals: seq<Meal>

    /** The page before its mount effect has run: no meals in state. */
    constructor (store: StorageService)
      ensures this.store == store && meals == []
    {
      this.store := store;
      meals := [];
    }

    /** The state shows what storage holds. */
    predicate InSync()
      reads this, store
    {
      meals == store.GetMeals()
    }

    /** The mount effect: show what storage holds. */
    method Mount()
      modifies this`meals
      ensures meals == store.GetMeals()
      ensures InSync()
    {
      meals := store.GetMeals();
    }

    /** `handleDeleteMeal`: delete in storage and drop the meals carrying `id`
        from the state. */
    method HandleDeleteMeal(id: string, writeOk: bool)
      modifies this`meals, store`meals
      ensures meals == WithoutId(old(meals), id)
      ensures store.meals == SetItem(store.available, writeOk, old(store.meals), WithoutId(old(store.GetMeals()), id))
      ensures old(InSync()) && store.available && writeOk ==> InSync()
    {
      store.DeleteMeal(id, writeOk);
      meals := WithoutId(meals, id);
    }

    /** `mealCounts`: each type's badge counts the meals of that type, and
        since every meal has exactly one type the five badges add up to 'all'. */
    function MealCountsView(): (c: HistoryCounts)
      reads this
      ensures c.all == |meals|
      ensures forall t :: c.perType.Get(t) == CountOf(meals, t)
      ensures c.perType.Total() == c.all
    {
      CountsPartition(meals);
      HistoryCounts(|meals|, MealCountsOf(meals))
    }
  }

  /** Deleting a meal lowers the 'all' badge by the number of meals carrying
      its id and leaves the badge of every type it does not have unchanged. */
  lemma DeleteUpdatesCounts(meals: seq<Meal>, id: string, t: MealType)
    requires forall i :: 0 <= i < |meals| && meals[i].id == id ==> meals[i].mealType != t
    ensures CountOf(WithoutId(meals, id), t) == CountOf(meals, t)
    ensures |WithoutId(meals, id)| == |meals| - |CarryingId(meals, id)|
  {
    WithoutIdOfType(meals, id, t);
    DeleteLength(meals, id);
  }

  /** Deleting meals none of which has type `t` keeps the meals of type `t` as they were. */
  lemma {:induction false} WithoutIdOfType(meals: seq<Meal>, id: string, t: MealType)
    requires forall i :: 0 <= i < |meals| && meals[i].id == id ==> meals[i].mealType != t
    ensures OfType(WithoutId(meals, id), t) == OfType(meals, t)
    decreases |meals|
  {
    if |meals| > 0 {
      var ms, m := meals[..|meals| - 1], meals[|meals| - 1];
      assert meals == ms + [m];
      WithoutIdOfType(ms, id, t);
      WithoutIdSnoc(ms, m, id);
      OfTypeSnoc(ms, m, t);
      if m.id != id {
        OfTypeSnoc(WithoutId(ms, id), m, t);
      } else {
        assert WithoutId(meals, id) == WithoutId(ms, id);
        assert OfType(meals, t) == OfType(ms, t);
      }
    }
  }
}
