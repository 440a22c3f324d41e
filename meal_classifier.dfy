/** Meal classification by capture time (lib/meal-classifier.ts). */
module MealClassifier {
  import opened Types
  import opened Time

  /** The meal type of a meal captured at local time `ts`. Only the hour
      counts; each category is a half-open range of hours. */
  function ClassifyMealByTime(ts: int): (t: MealType)
    ensures t == Breakfast <==> 5 <= HourOf(ts) < 11
    ensures t == Lunch <==> 11 <= HourOf(ts) < 15
    ensures t == Snack <==> 15 <= HourOf(ts) < 18
    ensures t == Dinner <==> 18 <= HourOf(ts) < 24
    ensures t == LateNight <==> 0 <= HourOf(ts) < 5
  {
    var hour := HourOf(ts);
    if hour >= 5 && hour < 11 then Breakfast
    else if hour >= 11 && hour < 15 then Lunch
    else if hour >= 15 && hour < 18 then Snack
    else if hour >= 18 && hour < 24 then Dinner
    else LateNight
  }

  /** Two capture times in the same hour of the day get the same type,
      whatever their minutes, seconds or day. */
  lemma OnlyTheHourCounts(ts1: int, ts2: int)
    requires HourOf(ts1) == HourOf(ts2)
    ensures ClassifyMealByTime(ts1) == ClassifyMealByTime(ts2)
  {
  }

  /** The boundary between breakfast and lunch on any day: 10:59 is still breakfast, 11:00 is lunch;
      and midnight is late night while 23:59 is dinner. */
  lemma Boundaries(day: int)
    ensures ClassifyMealByTime(SetHours(day * MsPerDay, 10, 59, 0, 0)) == Breakfast
    ensures ClassifyMealByTime(SetHours(day * MsPerDay, 11, 0, 0, 0)) == Lunch
    ensures ClassifyMealByTime(SetHours(day * MsPerDay, 0, 0, 0, 0)) == LateNight
    ensures ClassifyMealByTime(SetHours(day * MsPerDay, 23, 59, 0, 0)) == Dinner
  {
  }

  /** The label shown for a meal type. */
  function MealTypeDisplayName(t: MealType): (name: string)
    ensures name != []
  {
    match t
    case Breakfast => "Breakfast"
    case Lunch => "Lunch"
    case Snack => "Snack"
    case Dinner => "Dinner"
    case LateNight => "Late Night"
  }

  /** The badge colour class of a meal type: a shade-500 background class. */
  function MealTypeColor(t: MealType): (colour: string)
    ensures |colour| > 7 && colour[..3] == "bg-" && colour[|colour| - 4..] == "-500"
  {
    match t
    case Breakfast => "bg-orange-500"
    case Lunch => "bg-blue-500"
    case Snack => "bg-purple-500"
    case Dinner => "bg-green-500"
    case LateNight => "bg-indigo-500"
  }

  /** No two meal types share a label or a badge colour, so both identify the type. */
  lemma DisplayNamesAndColoursDistinct(a: MealType, b: MealType)
    requires a != b
    ensures MealTypeDisplayName(a) != MealTypeDisplayName(b)
    ensures MealTypeColor(a) != MealTypeColor(b)
  {
  }
}
