# Healthier nutrition tracker — verified model of the local data layer

This project is a Dafny model of the part of the Healthier nutrition tracker
(a client-only Next.js app) that works on its own data. It covers:

- classifying a meal by the hour it was captured;
- the storage service that keeps the meal list, the user profile and the
  demo-data flag in three browser storage keys;
- daily statistics, goal percentages and the gauge colour;
- the statistics page's range totals, averages and seven-day chart;
- the history timeline's type filter, grouping by day, sorting and day totals;
- the home page's mount-time demo seeding, adding an analysed meal, deleting
  a meal, and the recent-meals strip;
- the history page's per-type counts and deletion;
- the generator of the demo meal history.

## How the model reads the program

- **Time.** A timestamp is an integer number of milliseconds in the
  device's local time, with the zone offset already applied.
  - `DayKey(ts) = ts / 86 400 000` is the calendar day. It stands for the
    `'yyyy-MM-dd'` string date-fns formats: both name each day uniquely and
    sort in the same order.
  - `HourOf` is `getHours()`.
  - `SubDays` is both `subDays` and `setDate(getDate() - n)`.
  - `SetHours` is `setHours(h, m, s, ms)`.
  - Daylight-saving shifts are not modelled (module `Time`).
- **Numbers.** Nutrition quantities are exact reals. `Math.round` is
  `Round(x) = floor(x + 1/2)`, which rounds halves up as JavaScript does.
- **Storage.** `StorageService` is a class with one `Slot` field per key:
  `Absent` (missing or empty string), `Corrupt` (text that does not parse)
  or `Present(value)`.
  - The constant `available` stands for whether a browser `window` exists.
  - Every write takes a `writeOk` flag. When the flag is false the write
    was dropped by the swallowed exception, and the slot is unchanged.
- **Pages.** `HomePage` and `HistoryPage` are classes. Their `meals` field
  is the React state, and they share a `StorageService`.
  - The clock (`new Date()`) becomes a parameter `now`.
  - `Math.random` becomes a parameter `rnd: nat -> real`, where `rnd(k)` is
    the k-th value drawn. Meal `i` of the demo history draws
    `rnd(6i) … rnd(6i+5)` in source order.
  - The UUID of a new meal becomes a parameter `id`.
- **Sorting.** `Array.prototype.sort` with a key-difference comparator
  becomes an in-place insertion sort on an `array`, proved to order by
  non-increasing key and to permute its contents (`ArraySort`).
- **Per-type counts.** `Record<MealType, number>` becomes the
  `MealCounts` record with `Get` and `Increment`.
- **Demo seeding order.** Seeding saves the demo meals one at a time
  through the prepending `saveMeal`, so storage holds the generated list
  reversed. The state runs newest day first, each day breakfast, lunch,
  dinner. Storage runs oldest day first, each day dinner, lunch, breakfast.
  The model keeps
  this behaviour: `HomePage.HomePage.Mount` states the reversed stored
  order. `HomePage.SeededStoreStartsWithOldest` shows that a later mount
  puts the dinner of six days ago at the head of the list.

## Model

| member | source | states |
|---|---|---|
| `MealClassifier.ClassifyMealByTime` | lib/meal-classifier.ts:14-39 | breakfast iff the hour is 5–10, lunch iff 11–14, snack iff 15–17, dinner iff 18–23, late night iff 0–4; exactly one type for every time |
| `MealClassifier.OnlyTheHourCounts` | lib/meal-classifier.ts:15 | two times with the same hour get the same type, whatever their minutes or day |
| `MealClassifier.Boundaries` | lib/meal-classifier.ts:18-38 | on every day 10:59 is breakfast, 11:00 lunch, 00:00 late night, 23:59 dinner |
| `MealClassifier.MealTypeDisplayName` | lib/meal-classifier.ts:44-54 | every type has a non-empty label |
| `MealClassifier.MealTypeColor` | lib/meal-classifier.ts:59-69 | every type's badge is a Tailwind background class of shade 500 (`bg-…-500`) |
| `MealClassifier.DisplayNamesAndColoursDistinct` | lib/meal-classifier.ts:44-69 | different types have different labels and different colours |
| `Time.HourOf` | lib/meal-classifier.ts:15 | the hour lies in 0..23 and the time of day falls inside that hour |
| `Time.SubDays` | lib/mock-ai.ts:127-129 | moving back n days lowers the day number by n and keeps the time of day |
| `Time.SetHours` | lib/mock-ai.ts:133-135 | setting the clock keeps the day and puts the time of day at the given hour, minute, second and millisecond |
| `NutritionCalc.Round` | lib/nutrition-calc.ts:48-51 | the result is the integer within half a unit of x, halves rounded up |
| `NutritionCalc.CalculateDailyStats` | lib/nutrition-calc.ts:16-55 | the one-pass loop's result equals the day's rounded sums, per-type counts and filtered meals (`DailyStatsOf`) |
| `NutritionCalc.DailyStatsMeals` | lib/nutrition-calc.ts:18-53 | the day filter `OnDay` and the result: the result keeps the input date; its meals are exactly the input meals captured that day; each type count counts those meals; the counts add up to their number |
| `NutritionCalc.EmptyDay` | lib/nutrition-calc.ts:24-53 | with no meal on the date, the meal list is empty and every total and count is 0 |
| `NutritionCalc.RoundAfterSumming` | lib/nutrition-calc.ts:38-51 | rounding happens after summing: two 0.4 kcal meals make a 1 kcal day, whereas rounding each meal would give 0 |
| `NutritionCalc.CountsPartition` | lib/nutrition-calc.ts:29-44 | the five per-type counts of any meal list add up to its length |
| `NutritionCalc.MealCountsOf` | lib/nutrition-calc.ts:29-44 | the record's entry for each type is the number of meals of that type |
| `NutritionCalc.CountsStep` | lib/nutrition-calc.ts:43 | counting one more meal increments exactly its own type's entry |
| `Types.MealCounts.Increment` | lib/nutrition-calc.ts:43 | `mealCounts[t]++` raises t's entry by one and leaves the other four alone |
| `NutritionCalc.SumPermutation` | components/meals/MealTimeline.tsx:70-80 | a nutrition sum does not depend on the order of the meals |
| `NutritionCalc.CalculatePercentage` | lib/nutrition-calc.ts:67-70 | a zero goal gives 0; otherwise the result is current/goal·100 rounded to the nearest integer |
| `NutritionCalc.PercentageExample` | lib/nutrition-calc.ts:69 | 100 of a 200 goal is 50 % |
| `NutritionCalc.GetColorByPercentage` | lib/nutrition-calc.ts:75-79 | green iff below 90, yellow iff 90 to 105 inclusive, red iff above 105 |
| `Storage.KeyNamesDistinct` | lib/storage.ts:8-12 | `KeyName` records the three key names, which are pairwise distinct; this is why the model can keep each key in its own field |
| `Storage.GetItem` | lib/storage.ts:18-46 | without a window, or with an absent, empty or unparsable slot, the read returns the default; otherwise the stored value |
| `Storage.SetItem` | lib/storage.ts:48-63 | with a window and a successful write the slot holds the value; otherwise the slot is unchanged and nothing is raised |
| `Storage.WriteThenRead` | lib/storage.ts:18-63 | a successful write is read back as written |
| `Storage.MergeProfile` | lib/storage.ts:93-96 | every field present in the patch replaces the current field; every other field is kept |
| `Storage.MergeLaws` | lib/storage.ts:95 | an empty patch changes nothing, and merging the same patch twice equals merging it once |
| `Storage.WithoutIdRemoves` | lib/storage.ts:76-79 | `WithoutId` (the `filter` of `deleteMeal` and of both pages' delete handlers): after deleting an id no meal carries it, every other meal occurs as often as before, and an absent id changes nothing |
| `Storage.DeleteLength` | lib/storage.ts:76-79 | a delete shortens the list by exactly the number of meals carrying the id |
| `Storage.DeleteUniqueId` | lib/storage.ts:76-79 | when ids are distinct, deleting an id that occurs removes exactly one meal and deleting an absent id removes none |
| `Storage.StorageService.GetMeals` | lib/storage.ts:66-68 | the stored meal list, or `[]` when there is none |
| `Storage.StorageService.SaveMeal` | lib/storage.ts:70-74 | on a successful write the stored list is the new meal followed by the previous list, one longer; on a failed write nothing changes |
| `Storage.StorageService.DeleteMeal` | lib/storage.ts:76-79 | on a successful write the stored list is the previous list without the meals carrying the id; on a failed write nothing changes |
| `Storage.StorageService.GetProfile` | lib/storage.ts:82-91 | the stored profile, or user-1 "User" with goals 2000 kcal, 150 g, 250 g, 65 g |
| `Storage.StorageService.UpdateProfile` | lib/storage.ts:93-96 | on a successful write the stored profile is the current one merged with the patch; only the profile slot can change |
| `Storage.StorageService.IsDemoSeeded` | lib/storage.ts:99-101 | the stored flag, or false |
| `Storage.StorageService.MarkDemoSeeded` | lib/storage.ts:103-105 | on a successful write the flag reads true; only the flag slot can change |
| `Storage.StorageService.RemoveItem` | lib/storage.ts:112 | removing a key empties exactly that slot |
| `Storage.StorageService.ClearAll` | lib/storage.ts:108-113 | with a window all three slots are absent afterwards and every read returns its default; without one nothing changes |
| `StatsPage.DaysCount` | app/stats/page.tsx:68 | the divisor is 7 for '7d' and 30 for '30d'; for 'all' it is 1 with fewer than three meals and one day per three meals otherwise; never below 1 |
| `StatsPage.ComputeRangeStats` | app/stats/page.tsx:32-99 | the filter, sums, averages and backward chart loop produce exactly `RangeStatsOf(meals, range, now)` |
| `StatsPage.RangeMembers` | app/stats/page.tsx:37-47 | a meal is counted iff it is stored and captured no earlier than 7 (30) days before now; 'all' keeps every meal; the count never exceeds the stored count |
| `StatsPage.RangesNested` | app/stats/page.tsx:37-47 | every meal in the 7-day range is also in the 30-day range |
| `StatsPage.AveragesScaleBack` | app/stats/page.tsx:50-72 | each average multiplied by the divisor (7, 30, or for 'all' the larger of 1 and n/3, as `DaysCount` states) gives back the range's unrounded total |
| `StatsPage.ChartShape` | app/stats/page.tsx:74-85 | the chart has 7 entries on consecutive days ending today, and its calories come from all stored meals whatever the range |
| `MealTimeline.FilterMealsMembers` | components/meals/MealTimeline.tsx:20-22 | `FilterMeals`, the type filter: a meal is listed iff it is stored and the filter admits its type; a type filter lists as many meals as there are of that type |
| `MealTimeline.GroupByDay` | components/meals/MealTimeline.tsx:25-32 | the groups' keys are exactly the meals' days; each group holds exactly that day's meals in input order; the key order has no repeats |
| `MealTimeline.SortDates` | components/meals/MealTimeline.tsx:35-37 | the sorted dates are the group keys, each once, newest first |
| `ArraySort.SortDescendingBy` | components/meals/MealTimeline.tsx:105-108 | the sort leaves the array ordered by non-increasing key and holding the same elements |
| `MealTimeline.SortDayMeals` | components/meals/MealTimeline.tsx:105-108 | a day's meals are listed newest first and are a permutation of the day's group |
| `MealTimeline.CalculateDayTotals` | components/meals/MealTimeline.tsx:70-80 | the four unrounded sums of the day's meals; zero for no meals; the same for any reordering (`DayTotalsPermutation`) |
| `MealTimeline.DayTotalsConcat` | components/meals/MealTimeline.tsx:70-80 | the totals of two lists put together are the sums of their totals |
| `MealTimeline.DayTotalsPermutation` | components/meals/MealTimeline.tsx:70-108 | day totals taken before the in-place sort equal those of the sorted list |
| `MealTimeline.RenderTimeline` | components/meals/MealTimeline.tsx:18-119 | the empty state appears iff no meal passes the filter, with the filter message iff a type is selected; otherwise one section per day, strictly newest first, each listing that day's meals newest first with their totals |
| `HomePage.HomePage.constructor` | app/page.tsx:22 | the page starts with no meals in state |
| `HomePage.HomePage.Mount` | app/page.tsx:32-44 | demo seeding runs iff storage has no meals and no flag; then the state is the 21 demo meals, and a successful write stores them in reverse and sets the flag; otherwise the state is the stored list and storage is untouched |
| `HomePage.HomePage.SaveEach` | app/page.tsx:38 | saving a list one meal at a time stores it reversed in front of what was there |
| `HomePage.SeededStoreStartsWithOldest` | app/page.tsx:36-40 | the stored demo week starts with the last generated meal, the dinner of six days ago |
| `HomePage.HomePage.HandleAnalysisComplete` | app/page.tsx:58-74 | the new meal has capture and creation time now and the type of now; it heads both the state and, on a successful write, storage; state and storage stay in step |
| `HomePage.HomePage.HandleDeleteMeal` | app/page.tsx:76-79 | state and, on a successful write, storage lose the meals carrying the id; state and storage stay in step |
| `HomePage.HomePage.RecentMeals` | app/page.tsx:82 | the first min(3, n) meals of the state |
| `HistoryPage.HistoryPage.constructor` | app/history/page.tsx:16 | the page starts with no meals in state |
| `HistoryPage.HistoryPage.Mount` | app/history/page.tsx:20-22 | the state is what storage returns |
| `HistoryPage.HistoryPage.HandleDeleteMeal` | app/history/page.tsx:24-27 | state and, on a successful write, storage lose the meals carrying the id; state and storage stay in step |
| `HistoryPage.HistoryPage.MealCountsView` | app/history/page.tsx:30-37 | 'all' is the number of meals, each type's badge counts its meals, and the five badges add up to 'all' |
| `HistoryPage.DeleteUpdatesCounts` | app/history/page.tsx:24-37 | deleting meals not of type t leaves t's badge unchanged and lowers 'all' by exactly the number of meals carrying the id |
| `MockAi.GenerateMockMealHistory` | lib/mock-ai.ts:122-158 | the loop returns exactly `MockMealHistory(days, now, rnd)` |
| `MockAi.MockMealHistory` | lib/mock-ai.ts:126 | three meals per day, none for a non-positive day count |
| `MockAi.SlotTimestamp` | lib/mock-ai.ts:127-135 | moving back i/3 days and setting 08:30, 13:00 or 19:30 lands on the slot's timestamp |
| `MockAi.MockMealTiming` | lib/mock-ai.ts:127-144 | meal i is captured i/3 days before now at 08:30, 13:00 or 19:30; is classified breakfast, lunch or dinner accordingly; has creation time equal to capture time and id `meal-i` |
| `MockAi.NatToStringInjective` | lib/mock-ai.ts:140 | different numbers print as different decimal strings |
| `MockAi.MockMealIdInjective` | lib/mock-ai.ts:140 | different indices give different ids |
| `MockAi.MockIdsDistinct` | lib/mock-ai.ts:140 | the generated ids are pairwise distinct |
| `MockAi.MockImageIndex` | lib/mock-ai.ts:141 | the image number lies in 1..5 |
| `MockAi.MockNutritionRanges` | lib/mock-ai.ts:137-152 | with draws in [0, 1): calories in [300, 800], protein [15, 45], carbohydrates [40, 100], fat [10, 40], fiber [3, 13], confidence [0.85, 1) |

## Left out

- The subscription trial and paywall: the storage service has no such key or method.
- `analyzeFoodImage`: an asynchronous delay and a random choice of canned results.
- Camera capture and image compression: browser I/O and floating-point scaling.
- Reading the clock: `getTodayDateString`, `new Date()` in the pages and the generator, and the Today/Yesterday headers of `getDateHeader`. The current time is a parameter, and the headers are not modelled.
- The chart's weekday labels (`format(date, 'EEE')`): the chart keeps the day number each label is printed from.
- The home page's `todayStats` effect as a separate state. `HomePage.HomePage.HandleAnalysisComplete` states instead how today's meals change; their totals are `calculateDailyStats` of the state.
- JSON encoding, and stored text that parses to a value of the wrong shape. The model's slot is either unparsable or a well-formed value.
- The quota `alert` on a failed write: the model keeps only that the write is dropped.
- `HomePage.HomePage.Mount`: a single `writeOk` covers all 22 writes of one seeding. A seeding where only some writes fail is not modelled.
- `ArraySort.SortDescendingBy`: stability is not stated. The engine's sort is stable; the insertion sort here is too, but nothing is proved about the order of meals with equal capture times.
- `MockAi.MockMealHistory`: a non-integer `days` is not modelled, since days is an integer here.
- Floating-point rounding of the sums and averages, and `NaN` or infinite values: arithmetic is exact.
- Daylight-saving time: every day is 24 hours long.
- The Goal Progress card of the statistics page and all presentation components (gauge arc, charts, cards, filter buttons, headers, navigation).
- Concurrent access to storage from several tabs.
- A patch field explicitly set to `undefined` in `updateProfile`: the model's patch either holds a field or lacks it.
