/** The records the app stores and passes around (lib/types.ts). Dates are
    local timestamps in milliseconds (module Time); nutrition quantities are
    exact reals. */
module Types {

  datatype Option<T> = None | Some(value: T)

  /** The five meal categories, assigned once from the capture time. */
  datatype MealType = Breakfast | Lunch | Snack | Dinner | LateNight

  /** `Record<MealType, number>`: one count for each of the five meal types. */
  datatype MealCounts = MealCounts(breakfast: int, lunch: int, snack: int, dinner: int, lateNight: int)
  {
    function Get(t: MealType): int {
      match t
      case Breakfast => breakfast
      case Lunch => lunch
      case Snack => snack
      case Dinner => dinner
      case LateNight => lateNight
    }

    /** `mealCounts[t]++`. */
    function Increment(t: MealType): (c: MealCounts)
      ensures c.Get(t) == Get(t) + 1
      ensures forall u :: u != t ==> c.Get(u) == Get(u)
    {
      match t
      case Breakfast => this.(breakfast := breakfast + 1)
      case Lunch => this.(lunch := lunch + 1)
      case Snack => this.(snack := snack + 1)
      case Dinner => this.(dinner := dinner + 1)
      case LateNight => this.(lateNight := lateNight + 1)
    }

    function Total(): int {
      breakfast + lunch + snack + dinner + lateNight
    }
  }

  const ZeroCounts := MealCounts(0, 0, 0, 0, 0)

  datatype NutritionData = NutritionData(
    calories: real,
    protein: real,        // grams
    carbohydrates: real,  // grams
    fat: real,            // grams
    fiber: Option<real>,
    sugar: Option<real>,
    sodium: Option<real>, // milligrams
    foodItems: seq<string>,
    confidence: real)

  datatype Meal = Meal(
    id: string,
    imageUrl: string,
    thumbnailUrl: Option<string>,
    mealType: MealType,
    capturedAt: int,
    createdAt: int,
    nutrition: NutritionData)

  /** The four summed nutrition fields. */
  datatype Macro = Calories | Protein | Carbohydrates | Fat

  function MacroOf(n: NutritionData, f: Macro): real {
    match f
    case Calories => n.calories
    case Protein => n.protein
    case Carbohydrates => n.carbohydrates
    case Fat => n.fat
  }

  /** The statistics of one calendar day; `date` is the day number of the 'yyyy-MM-dd' key. */
  datatype DailyStats = DailyStats(
    date: int,
    totalCalories: int,
    totalProtein: int,
    totalCarbs: int,
    totalFat: int,
    mealCounts: MealCounts,
    meals: seq<Meal>)

  datatype UserProfile = UserProfile(
    id: string,
    name: string,
    dailyCalorieGoal: real,
    proteinGoal: real,
    carbsGoal: real,
    fatGoal: real)

  /** `Partial<UserProfile>`: a field that is `None` is not in the patch. */
  datatype ProfilePatch = ProfilePatch(
    id: Option<string>,
    name: Option<string>,
    dailyCalorieGoal: Option<real>,
    proteinGoal: Option<real>,
    carbsGoal: Option<real>,
    fatGoal: Option<real>)
}
