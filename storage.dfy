/** The persistence service (lib/storage.ts): three independent browser
    storage keys, each read with a fallback default and written on a
    best-effort basis. */
module Storage {
  import opened Types
  import opened Sequences

  /** What a storage key holds: nothing (or the empty string), text that
      does not parse as JSON, or a parsed value. */
  datatype Slot<T> = Absent | Corrupt | Present(value: T)

  datatype StorageKey = MealsKey | ProfileKey | DemoSeededKey

  /** The key names, in the order `Object.values(STORAGE_KEYS)` lists them. */
  const StorageKeys: seq<StorageKey> := [MealsKey, ProfileKey, DemoSeededKey]

  function KeyName(k: StorageKey): string {
    match k
    case MealsKey => "nutrition-app-meals"
    case ProfileKey => "nutrition-app-profile"
    case DemoSeededKey => "nutrition-app-demo-seeded"
  }

  /** Each slot lives under its own key name, so writing one never touches another. */
  lemma KeyNamesDistinct(a: StorageKey, b: StorageKey)
    requires a != b
    ensures KeyName(a) != KeyName(b)
  {
  }

  const DefaultProfile := UserProfile("user-1", "User", 2000.0, 150.0, 250.0, 65.0)

  /** `getItem(key, defaultValue)`: the stored value, or the default when
      there is no `window`, the key is empty, or its text fails to parse. */
  function GetItem<T>(available: bool, slot: Slot<T>, default: T): (r: T)
    ensures available && slot.Present? ==> r == slot.value
    ensures !available || slot.Absent? || slot.Corrupt? ==> r == default
  {
    if !available then default
    else match slot
      case Absent => default
      case Corrupt => default
      case Present(v) => v
  }

  /** The slot after `setItem(key, value)`: the value when there is a
      `window` and the write succeeds; otherwise the write is dropped
      without an error reaching the caller. */
  function SetItem<T>(available: bool, writeOk: bool, slot: Slot<T>, value: T): (r: Slot<T>)
    ensures available && writeOk ==> r == Present(value)
    ensures !available || !writeOk ==> r == slot
  {
    if !available then slot
    else if writeOk then Present(value)
    else slot
  }

  /** A successful write is read back unchanged, whatever the slot held before. */
  lemma WriteThenRead<T>(slot: Slot<T>, value: T, default: T)
    ensures GetItem(true, SetItem(true, true, slot, value), default) == value
  {
  }

  /** `{ ...current, ...patch }`: every field present in the patch replaces the current one. */
  function MergeProfile(current: UserProfile, patch: ProfilePatch): (r: UserProfile)
    ensures r.id == (if patch.id.Some? then patch.id.value else current.id)
    ensures r.name == (if patch.name.Some? then patch.name.value else current.name)
    ensures r.dailyCalorieGoal == (if patch.dailyCalorieGoal.Some? then patch.dailyCalorieGoal.value else current.dailyCalorieGoal)
    ensures r.proteinGoal == (if patch.proteinGoal.Some? then patch.proteinGoal.value else current.proteinGoal)
    ensures r.carbsGoal == (if patch.carbsGoal.Some? then patch.carbsGoal.value else current.carbsGoal)
    ensures r.fatGoal == (if patch.fatGoal.Some? then patch.fatGoal.value else current.fatGoal)
  {
    UserProfile(
      Pick(patch.id, current.id),
      Pick(patch.name, current.name),
      Pick(patch.dailyCalorieGoal, current.dailyCalorieGoal),
      Pick(patch.proteinGoal, current.proteinGoal),
      Pick(patch.carbsGoal, current.carbsGoal),
      Pick(patch.fatGoal, current.fatGoal))
  }

  function Pick<V>(patched: Option<V>, current: V): V {
    if patched.Some? then patched.value else current
  }

  const EmptyPatch := ProfilePatch(None, None, None, None, None, None)

  /** An empty patch changes nothing, and applying the same patch twice is applying it once. */
  lemma MergeLaws(current: UserProfile, patch: ProfilePatch)
    ensures MergeProfile(current, EmptyPatch) == current
    ensures MergeProfile(MergeProfile(current, patch), patch) == MergeProfile(current, patch)
  {
  }

  /** The meals without the one(s) carrying `id`, in their original order. */
  function WithoutId(ms: seq<Meal>, id: string): seq<Meal> {
    Filter(ms, (m: Meal) => m.id != id)
  }

  /** After deleting `id` no meal carries it; every other meal is kept exactly
      as often as before; and if no meal had that id, nothing changes. */
  lemma {:induction false} WithoutIdRemoves(ms: seq<Meal>, id: string)
    ensures forall m :: m in WithoutId(ms, id) ==> m.id != id
    ensures forall m: Meal :: m.id != id ==> multiset(WithoutId(ms, id))[m] == multiset(ms)[m]
    ensures (forall i :: 0 <= i < |ms| ==> ms[i].id != id) ==> WithoutId(ms, id) == ms
  {
    var p := (m: Meal) => m.id != id;
    FilterMembers(ms, p);
    forall m: Meal | m.id != id ensures multiset(WithoutId(ms, id))[m] == multiset(ms)[m] {
      FilterMultiset(ms, p, m);
    }
    if forall i :: 0 <= i < |ms| ==> ms[i].id != id {
      FilterAllKept(ms, p);
    }
  }

  /** Deleting from a list with one more meal at the end deletes from the list
      and keeps that meal unless it carries the id. */
  lemma WithoutIdSnoc(ms: seq<Meal>, m: Meal, id: string)
    ensures WithoutId(ms + [m], id) == WithoutId(ms, id) + (if m.id != id then [m] else [])
  {
    FilterSnoc(ms, m, (m: Meal) => m.id != id);
  }

  /** The meals carrying `id`: the ones a delete removes. */
  function CarryingId(ms: seq<Meal>, id: string): seq<Meal> {
    Filter(ms, (m: Meal) => m.id == id)
  }

  lemma CarryingIdSnoc(ms: seq<Meal>, m: Meal, id: string)
    ensures CarryingId(ms + [m], id) == CarryingId(ms, id) + (if m.id == id then [m] else [])
  {
    FilterSnoc(ms, m, (m: Meal) => m.id == id);
  }

  /** A delete shortens the list by exactly the number of meals carrying the id. */
  lemma {:induction false} DeleteLength(ms: seq<Meal>, id: string)
    ensures |WithoutId(ms, id)| == |ms| - |CarryingId(ms, id)|
    decreases |ms|
  {
    if |ms| > 0 {
      var rest, m := ms[..|ms| - 1], ms[|ms| - 1];
      assert ms == rest + [m];
      DeleteLength(rest, id);
      WithoutIdSnoc(rest, m, id);
      CarryingIdSnoc(rest, m, id);
    }
  }

  /** With distinct ids, at most one meal carries a given id, and one does
      exactly when the id occurs. */
  lemma {:induction false} CarryingIdCount(ms: seq<Meal>, id: string)
    requires forall i, j :: 0 <= i < j < |ms| ==> ms[i].id != ms[j].id
    ensures |CarryingId(ms, id)| == if exists i :: 0 <= i < |ms| && ms[i].id == id then 1 else 0
    decreases |ms|
  {
    if |ms| > 0 {
      var rest, m := ms[..|ms| - 1], ms[|ms| - 1];
      assert ms == rest + [m];
      assert forall i :: 0 <= i < |rest| ==> rest[i] == ms[i];
      CarryingIdCount(rest, id);
      CarryingIdSnoc(rest, m, id);
      if m.id == id {
        assert forall i :: 0 <= i < |rest| ==> rest[i].id != id;
        assert ms[|ms| - 1].id == id;
      } else {
        assert (exists i :: 0 <= i < |ms| && ms[i].id == id) <==>
               (exists i :: 0 <= i < |rest| && rest[i].id == id);
      }
    }
  }

  /** With distinct ids, deleting an id that occurs removes exactly one meal,
      and deleting one that does not occur removes none. */
  lemma DeleteUniqueId(ms: seq<Meal>, id: string)
    requires forall i, j :: 0 <= i < j < |ms| ==> ms[i].id != ms[j].id
    ensures |WithoutId(ms, id)| == if exists i :: 0 <= i < |ms| && ms[i].id == id then |ms| - 1 else |ms|
  {
    DeleteLength(ms, id);
    CarryingIdCount(ms, id);
  }

  /** The storage service: one field per key, and whether a browser `window` exists. */
  class StorageService {
    const available: bool
    var meals: Slot<seq<Meal>>
    var profile: Slot<UserProfile>
    var demoSeeded: Slot<bool>

    /** A service over a medium that currently holds the given slots. */
    constructor (available: bool, meals: Slot<seq<Meal>>, profile: Slot<UserProfile>, demoSeeded: Slot<bool>)
      ensures this.available == available && this.meals == meals
      ensures this.profile == profile && this.demoSeeded == demoSeeded
    {
      this.available := available;
      this.meals := meals;
      this.profile := profile;
      this.demoSeeded := demoSeeded;
    }

    /** `getMeals()`: the stored list, newest first, or `[]`. */
    function GetMeals(): (r: seq<Meal>)
      reads this
      ensures available && meals.Present? ==> r == meals.value
      ensures !available || !meals.Present? ==> r == []
    {
      GetItem(available, meals, [])
    }

    /** `saveMeal(meal)`: put the meal in front of the stored list and write the list back. */
    method SaveMeal(meal: Meal, writeOk: bool)
      modifies this`meals
      ensures meals == SetItem(available, writeOk, old(meals), [meal] + old(GetMeals()))
      ensures available && writeOk ==> GetMeals() == [meal] + old(GetMeals())
      ensures available && writeOk ==> |GetMeals()| == |old(GetMeals())| + 1 && GetMeals()[0] == meal
      ensures !available || !writeOk ==> meals == old(meals)
    {
      var stored := GetMeals();
      stored := [meal] + stored;
      meals := SetItem(available, writeOk, meals, stored);
    }

    /** `deleteMeal(id)`: write back the stored list without the meals carrying `id`. */
    method DeleteMeal(id: string, writeOk: bool)
      modifies this`meals
      ensures meals == SetItem(available, writeOk, old(meals), WithoutId(old(GetMeals()), id))
      ensures available && writeOk ==> GetMeals() == WithoutId(old(GetMeals()), id)
      ensures !available || !writeOk ==> meals == old(meals)
    {
      var stored := WithoutId(GetMeals(), id);
      meals := SetItem(available, writeOk, meals, stored);
    }

    /** `getProfile()`: the stored profile, or the default one. */
    function GetProfile(): (r: UserProfile)
      reads this
      ensures available && profile.Present? ==> r == profile.value
      ensures !available || !profile.Present? ==> r == DefaultProfile
    {
      GetItem(available, profile, DefaultProfile)
    }

    /** `updateProfile(patch)`: merge the patch into the current profile and write it back. */
    method UpdateProfile(patch: ProfilePatch, writeOk: bool)
      modifies this`profile
      ensures profile == SetItem(available, writeOk, old(profile), MergeProfile(old(GetProfile()), patch))
      ensures available && writeOk ==> GetProfile() == MergeProfile(old(GetProfile()), patch)
      ensures !available || !writeOk ==> profile == old(profile)
    {
      var current := GetProfile();
      profile := SetItem(available, writeOk, profile, MergeProfile(current, patch));
    }

    /** `isDemoSeeded()`: the stored flag, or false. */
    function IsDemoSeeded(): (r: bool)
      reads this
      ensures available && demoSeeded.Present? ==> r == demoSeeded.value
      ensures !available || !demoSeeded.Present? ==> !r
    {
      GetItem(available, demoSeeded, false)
    }

    /** `markDemoSeeded()`: store the flag as true. */
    method MarkDemoSeeded(writeOk: bool)
      modifies this`demoSeeded
      ensures demoSeeded == SetItem(available, writeOk, old(demoSeeded), true)
      ensures available && writeOk ==> IsDemoSeeded()
      ensures !available || !writeOk ==> demoSeeded == old(demoSeeded)
    {
      demoSeeded := SetItem(available, writeOk, demoSeeded, true);
    }

    /** `localStorage.removeItem(key)`. */
    method RemoveItem(key: StorageKey)
      modifies this`meals, this`profile, this`demoSeeded
      ensures key == MealsKey ==> meals == Absent
      ensures key == ProfileKey ==> profile == Absent
      ensures key == DemoSeededKey ==> demoSeeded == Absent
      ensures key != MealsKey ==> meals == old(meals)
      ensures key != ProfileKey ==> profile == old(profile)
      ensures key != DemoSeededKey ==> demoSeeded == old(demoSeeded)
    {
      match key
      case MealsKey => meals := Absent;
      case ProfileKey => profile := Absent;
      case DemoSeededKey => demoSeeded := Absent;
    }

    /** `clearAll()`: remove every key, so every read returns its default;
        without a `window`, nothing happens. */
    method ClearAll()
      modifies this`meals, this`profile, this`demoSeeded
      ensures available ==> meals == Absent && profile == Absent && demoSeeded == Absent
      ensures available ==> GetMeals() == [] && GetProfile() == DefaultProfile && !IsDemoSeeded()
      ensures !available ==> meals == old(meals) && profile == old(profile) && demoSeeded == old(demoSeeded)
    {
      if !available {
        return;
      }
      var i := 0;
      while i < |StorageKeys|
        invariant 0 <= i <= |StorageKeys|
        invariant MealsKey in StorageKeys[..i] ==> meals == Absent
        invariant ProfileKey in StorageKeys[..i] ==> profile == Absent
        invariant DemoSeededKey in StorageKeys[..i] ==> demoSeeded == Absent
      {
        RemoveItem(StorageKeys[i]);
        assert StorageKeys[..i + 1] == StorageKeys[..i] + [StorageKeys[i]];
        i := i + 1;
      }
      assert StorageKeys[..i] == StorageKeys;
    }
  }
}
