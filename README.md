# Diet planner core, modelled in Dafny

This project models the decision logic of a diet-planner web application. The server side builds a
multi-day meal plan; the browser side computes the calorie split of a day.

The server side covers four steps:

- The free-text city becomes a catalog key.
- The per-city food catalog is filtered by medical condition, diet, allergies and a global lemon rule.
- Each meal gets a repetition signature.
- The plan is drawn day by day and meal by meal. A draw is accepted only if the same meal had a
  different signature on each of the last seven days and its signature was accepted fewer than three
  times in the run. After 200 rejected draws a fixed fallback is used.

The browser side covers three helpers:

- The calorie share of each selected meal, inside its band, with the left-over margin redistributed
  to lunch and dinner.
- The season of a month.
- The title-casing of the raw `location` form value for the summary line.

Files and modules:

| file | module | models |
|---|---|---|
| `wrappers.dfy` | `Wrappers` | `Option` (null/undefined) and `Result` (a thrown error) |
| `text.dfy` | `Text` | `toLowerCase`, the `\s` and `\w` classes, substring search |
| `city_key.dfy` | `CityKey` | `normalizeCity` |
| `shuffle.dfy` | `Shuffle` | `shuffle` (Fisher–Yates on a copy of an array) |
| `catalog.dfy` | `Catalog` | `buildCatalog` and the consequences of each rule |
| `plan.dfy` | `Plan` | `mealSignature`, `generatePlan` and the `days` clamp of the route |
| `calories.dfy` | `Calories` | `computeCalorieDistribution` |
| `display.dfy` | `Display` | `getSeason`, `titleCase` |

How the model treats the inputs:

- **Randomness.** `Math.random` is a stream `rand: nat -> nat`. Draw `k` is reduced to an index
  with `rand(k) % n`. Every property holds for every stream.
- **Draw counts.** One attempt of the retry loop reads these values from the stream:
  - a snack meal reads one value, or none when there are no snacks;
  - breakfast reads three (no vegetable is drawn);
  - any other meal reads four, even from empty pools.
- **Month.** The month is a parameter of `GetSeason`.
- **Catalog.** The base catalog and its `exclude_fruits_as_lemons` flag are a value passed in.
- **Regular expressions.** Each case-insensitive regular expression of the filter is a substring
  test on the lower-cased item.
- **Meal names.** Meal names are plain strings, as in the source. `firstSnack` and `secondSnack`
  are snack meals, and every name that is neither a snack nor `breakfast` draws from the general
  pools.

`generatePlan` and `shuffle` are methods with loops, proved against specification functions and
predicates. The retry loop of one meal, `ChooseMeal`, takes the meal's draw as a function of the
stream position and the number of values one attempt reads, so its proof does not depend on what
a draw contains. The plan itself is specified by functions:

- `FirstAcceptable` is the first of the 200 attempts that passes the window and count test.
- `Place` stores that attempt, counted, or the fallback when there is none.
- `PlaceAll` places the meals of a day in order, and `Plans` builds the days one after another.

The methods are proved to return exactly what these functions give. `PlaceMeans`, `PlaceAllEntry` and
`PlansDay` say what each entry of that plan is. `buildCatalog` is a method that reassigns its working copy step by step.
`computeCalorieDistribution` is a method whose loop is tied to the fold `Allocate` and whose
redistribution is tied to `Finish`. The properties are lemmas about those functions.

The model keeps these details of `server.js` as written:

- The default snack is the literal `"Fruta fresca"` (server.js:109, 151).
- The meal list may repeat a name. A repeated name overwrites the day's entry, but its count is
  still incremented.
- Counts are kept per signature, not per item.
- The main-meal fallback uses `carbs.all` and `proteins.all` even at breakfast (server.js:152).
- An empty-string snack that is drawn stays `""`. In the fallback it becomes `"Fruta fresca"`.

## Model

| member | source | states |
|---|---|---|
| CityKey.NormalizeCity | server.js:19 | the key has no white space and no upper-case letter; null/undefined gives `""`; the key is never longer than the input |
| CityKey.CollapseSpaces | server.js:19 | replacing `/\s+/g` by `-` leaves no white space, and every character is `-` or a non-space character of the input |
| CityKey.CollapseWithoutSpaces | server.js:19 | a string without white space is unchanged by the replacement |
| CityKey.NormalizeCityIdempotent | server.js:19 | normalizing a key again gives the same key |
| CityKey.NormalizeCityWithoutSpaces | server.js:19 | without white space, normalization is plain lower-casing |
| Shuffle.ShuffleInPlace | server.js:24-27 | the descending swap loop leaves the array equal to `Shuffled(old contents, rand)` |
| Shuffle.ShuffleCopy | server.js:22-29 | returns a fresh array equal to `Shuffled(input, rand)`, with the input's length and multiset; the input array is not modified |
| Shuffle.ShuffledIsPermutation | server.js:22-29 | for every random stream, the shuffled sequence has the input's length and multiset |
| Shuffle.SwapAt | server.js:26 | the destructuring swap exchanges exactly the two entries |
| Shuffle.ShuffleDownPermutes | server.js:24-27 | each remaining pass of the loop preserves length and multiset |
| Catalog.BuildCatalog | server.js:32-81 | fails with `UnsupportedCity` exactly when the key is not in the catalog; otherwise every list of the result is its base list with exactly the items the rules reject removed, order and multiplicity preserved |
| Catalog.ExcludeKeeps | server.js:40-41 | filtering by a list of substrings keeps an order-preserving subsequence whose members are exactly the items matching none of them, each kept item as often as in the input |
| Catalog.SubsequenceCount | server.js:40-41 | an item occurs in a filtered list at most as often as in the input |
| Catalog.KeptUnique | server.js:39-78 | the keep/drop rule, with order and multiplicity, pins down a single list, so the rule states the filter's result exactly |
| Catalog.KeptRest | server.js:40-41 | a dropped head is skipped and a kept head is the head of the result, the rest again satisfying the rule |
| Catalog.HitsIff | server.js:44-47 | the recursive pattern test holds iff some pattern occurs in the lower-cased item |
| Catalog.AllergyKeys | server.js:63 | allergies become their lower-cased forms, null/undefined as `""`; a missing list gives no keys |
| Catalog.AllergicIsHit | server.js:64 | the `some(... includes ...)` allergy test equals the substring test over the allergy keys |
| Catalog.ChainKept | server.js:39-78 | three guarded filter steps in a row keep, in order, exactly the items none of them rejects |
| Catalog.ApplyRulesFilters | server.js:39-78 | the chain of filters satisfies the exact keep/drop rule of every list |
| Catalog.CeliacRemovesGluten | server.js:44-48 | with `celiac`, no carbohydrate contains trigo, pasta, pan or cuscús, case-insensitively |
| Catalog.VeganRemovesAnimalProducts | server.js:57-59 | with `vegan`, no general protein contains pollo, pavo, atún, jurel, huevo or quesillo, and no breakfast protein contains huevo, quesillo or yogurt |
| Catalog.AllergiesRemoved | server.js:62-73 | no item of any list contains, case-insensitively, any allergy string |
| Catalog.EmptyAllergyEmptiesCatalog | server.js:62-73 | a null or empty allergy empties every list |
| Plan.SignatureIsLower | server.js:84-88 | the signature of a meal has no upper-case letter |
| Plan.SignatureIdentifies | server.js:84-88 | for parts without `\|`, two signatures are equal iff their six parts are equal after lower-casing |
| Plan.PickFrom | server.js:117-122 | a drawn component is null or a non-empty pool item; null only for an empty pool or a pool holding `""` |
| Plan.Draw | server.js:108-125 | a draw takes every component from the right pool, and breakfast has no vegetable |
| Plan.First | server.js:151-152 | `pool?.[0] \|\| null` is the first item, or null when the pool is empty or starts with `""` |
| Plan.Fallback | server.js:150-153 | the fallback snack is `snacks[0]`, or `"Fruta fresca"` if that is absent or empty; a main meal takes the first items of the general lists, null when absent, and breakfast has no vegetable |
| Plan.SeenInWindowMeans | server.js:129-137 | the window test, stated as the `back` recursion of the loop, holds iff some day among the last min(7, days so far) gave the meal that signature |
| Plan.RepeatedInWindow | server.js:129-137 | the look-back loop reports a repeat iff the meal had the same signature in the window |
| Plan.Accepts | server.js:127-141 | a candidate is accepted iff its signature is not repeated in the window and has count below 3 |
| Plan.AttemptCursorIs | server.js:106-125 | attempt `k` of a retry loop starts `k` draws' worth of stream values after the first |
| Plan.ChooseMeal | server.js:103-147 | makes 1 to 200 attempts, attempt `k` being the meal's draw at its own stream position; every earlier attempt was unacceptable; a found selection is the last attempt, acceptable, and counted once; when nothing is found, 200 attempts failed and the counts are unchanged |
| Plan.CoverAfterAccept | server.js:139-143 | counting an accepted draw keeps counts30 at least the day's start counts plus the day's accepted tally, and at most 3 |
| Plan.CoverAfterFallback | server.js:150-155 | storing the fallback keeps the same bound with counts30 unchanged |
| Plan.FirstAcceptableMeans | server.js:106-147 | the bounded search returns an attempt index below 200 that passes the test, with every earlier attempt failing; no index means all remaining attempts of the 200 fail |
| Plan.ChosenIsFirst | server.js:106-147 | the outcome of the retry loop, as `ChooseMeal` states it, is the search's result: the last attempt made, or none after 200 |
| Plan.StoreFromChoice | server.js:139-155 | the loop's outcome stored with `day[meal] = candidate`, counts30 and the stream position is the state `Store` describes |
| Plan.PlaceFrom | server.js:103-155 | the retry loop followed by the assignment leaves exactly `Store` of the first acceptable attempt (or of none) |
| Plan.PlaceMeal | server.js:103-155 | the loop of one meal leaves exactly the state `Place` describes: the first acceptable attempt counted once, or the fallback after 200 failures |
| Plan.PlaceMeans | server.js:106-155 | when taken, the stored entry is an attempt below 200 that is acceptable with every earlier attempt unacceptable; otherwise it is the fallback and all 200 attempts are unacceptable |
| Plan.PlaceOther | server.js:155 | placing a meal adds only its own entry and leaves every other entry of the day unchanged |
| Plan.PlaceKeeps | server.js:103-155 | placing a meal keeps the day's entries from the pools and unrepeated when accepted, the fallback otherwise, and counts30 covering the accepted tally and at most 3 |
| Plan.PlaceAllKeys | server.js:99-156 | the day has an entry for exactly the meals it started with and the requested meals |
| Plan.PlaceAllEntry | server.js:99-156 | the entry of a requested meal (its last occurrence) is the one placed for it after the meals before it |
| Plan.PlaceAllKeeps | server.js:99-156 | placing all meals keeps every entry accounted for, exactly the requested meals present, counts30 covering the day's accepted tally, and the stream not moved back |
| Plan.PlanDay | server.js:98-156 | the loop over the meals leaves exactly the day `PlaceAll` describes; the day has an entry for exactly the requested meals; accepted entries come from the pools and are not repeated from the window; the others are the fallback; counts grow by at least the day's accepted tally and stay at most 3 |
| Plan.PlansLength | server.js:97-158 | the first `n` days are `n` days |
| Plan.PlansDay | server.js:97-158 | day `d` of the plan is the day `PlaceAll` builds against the first `d` days, with their counts30 and stream position |
| Plan.PlansOk | server.js:97-158 | every day of the first `n` is DayOk against the days before it, and no signature is accepted more than 3 times in all of them |
| Plan.PlanDays | server.js:94-158 | the day loop returns exactly the first `days` days of `Plans` (none if `days` is not positive), each DayOk, with no signature accepted more than 3 times |
| Plan.GeneratePlan | server.js:91-161 | fails exactly for an unknown city; otherwise the plans are exactly the first `days` days of `Plans` over the filtered catalog (none if `days` is not positive), each day as `PlanDay` states, with no signature accepted more than 3 times in the run |
| Plan.TallyAdd | server.js:139-143 | storing an accepted draw raises only its own signature's tally, by at most one |
| Plan.TallyDrop | server.js:150-155 | storing a fallback raises no tally |
| Plan.ClampDays | server.js:171 | the clamped day count is in 1..30 and equals the input when the input is already in range |
| Calories.BandOf | script.js:41-47 | exactly the five meals have a band; each band satisfies 0 <= min <= max and max - min <= 0.10 |
| Calories.Portion | script.js:55-56 | a share lies in its band, is the band's midpoint when `remaining` reaches the band's top, and never exceeds `remaining` when that is at least the band's bottom |
| Calories.ComputeCalorieDistribution | script.js:40-75 | the method returns `Finish(Allocate(selectedMeals))`; `calories` is never read |
| Calories.AllocateMeals | script.js:49-59 | the `forEach` loop ends with the shares and `remaining` of the fold `Allocate` over the selected meals |
| Calories.Redistribute | script.js:62-74 | the margin step returns `Finish` of the allocation |
| Calories.AddToTargets | script.js:70 | adding `per` to each target in turn gives `AddEach`, which keeps the set of meals |
| Calories.AllocateIgnoresUnknown | script.js:53-54 | a meal without a band changes neither the shares nor `remaining` |
| Calories.AllocateKeys | script.js:52-59 | the meals with a share are exactly the selected meals that have a band |
| Calories.AllocateInBands | script.js:55-57 | every share assigned in the loop lies in [band.min, band.max] |
| Calories.AllocateDistinct | script.js:52-59 | for distinct meals each share is its band's midpoint and `remaining` is 1 minus their sum, so at least 0.05 |
| Calories.AllocateBalanced | script.js:49-59 | for distinct meals the shares plus `remaining` equal 1 |
| Calories.FinishRedistributes | script.js:62-73 | above a 0.10 margin, each of lunch/dinner present gains (margin − 0.10)/k, other shares are unchanged, and the margin becomes 0.10 |
| Calories.FinishKeeps | script.js:62-73 | at most 0.10 margin, or no lunch and no dinner: the shares are unchanged and the margin is max(0, remaining) |
| Calories.FinishBalanced | script.js:64-72 | redistribution moves exactly the excess from the margin into the shares |
| Calories.DistributionBalanced | script.js:49-74 | for distinct meals the returned shares plus the margin equal 1, and the margin is at least 0.05 |
| Calories.NoMainMealKeepsMargin | script.js:64-73 | for distinct meals without lunch and dinner, the shares stay as allocated and the margin stays at least 0.65, above 0.10 |
| Calories.ThreeMealsExample | script.js:40-75 | breakfast, lunch and dinner give 0.225, 0.3875 and 0.2875 with margin 0.10 |
| Calories.LunchAloneExceedsBand | script.js:64-72 | lunch alone ends at 0.90, above its band's top 0.40 |
| Display.GetSeason | script.js:27-33 | a season is returned exactly for months 1 to 12 |
| Display.GetSeasonByQuarter | script.js:27-33 | months 12, 1 and 2 are summer; 3–5 autumn; 6–8 winter; 9–11 spring |
| Display.TitleCase | script.js:35-37 | same length and no `-`; hyphens become spaces; a word-initial `\w` character is upper-cased; every other character is unchanged |
| Display.TitleCaseIdempotent | script.js:35-37 | title-casing twice is the same as once |
| Display.TitleCaseSplitsAtAccent | script.js:36 | "viña" becomes "ViñA" |
| Display.TitleCaseLatin | script.js:35-37 | the corrected form: same length and no `-`; a word start, with Latin letters counted as word characters, is upper-cased; every other character is unchanged |
| Display.TitleCaseLatinKeepsLetterAfterLetter | script.js:35-37 | in the corrected form, a character after any Latin letter, accented or not, is unchanged |
| Display.TitleCaseLatinKeepsWord | script.js:35-37 | the corrected form turns "viña" into "Viña" |

## Left out

- DOM and browser wiring are not modelled. This covers event listeners, form reading, `alert`,
  `fetch` and the HTML built in `generateDiet`. They are UI and I/O.
- The calorie and quantity arithmetic of `generateDiet` is not modelled. This covers the BMR,
  the activity factors, rounding and the gram amounts. It is floating-point display code.
- The Express set-up, the route's parameter validation and its status codes, `listen` and static
  serving are not modelled. They are network plumbing. Only the integer `days` clamp is modelled,
  as `ClampDays`.
- `ClampDays` does not model `+days` producing `NaN` or a fraction. The model takes an integer.
- Reading `catalog_cl.json` from disk is file I/O. The catalog is an input value.
- The deep clone of `buildCatalog` is not modelled as a copy. The catalog is an immutable value in
  the model, so the base catalog cannot change. Aliasing between requests is not represented.
- Missing catalog sub-lists (`carbs.all` absent and the like) are not modelled. The source would
  use `[]` for some of them and crash on others, and a catalog record here always has all lists.
- The uniform distribution of `Math.random` is not modelled. The properties hold for every stream
  of naturals, and no probability is stated.
- Unicode case mapping is modelled only for ASCII and the Latin-1 letters (`Text.LowerChar`).
  Other letters are treated as having no case.
- The regular-expression engine is not modelled. `/lim[oó]n/i` becomes the two substrings
  `limon` and `limón`.
- String lengths are lengths in characters, not in UTF-16 code units.
- JavaScript numbers are modelled as `real`. Floating-point rounding, such as whether
  0.1 + 0.075 − 0.1 compares exactly, is not represented.
- Meal names that collide with `Object.prototype` properties (`toString`, `__proto__`, …) are not
  modelled. The source would then find a band or a previous entry that is not really there.
- `computeCalorieDistribution` with repeated meal names is modelled as the code does it: the last
  share wins and `remaining` is reduced each time. Only the band bounds are stated for that case,
  because the sum-to-one property needs distinct names.

## Findings

| source | as written | input that shows it | evidently intended | confidence | as-written member | corrected member |
|---|---|---|---|---|---|---|
| script.js:36 | `\w` and `\b` are ASCII-only in JavaScript regular expressions: `/\b\w/g` treats accented letters as non-word characters, so the letter after one is upper-cased | `titleCase("viña")` gives `"ViñA"`, and `"concepción"` gives `"ConcepcióN"` | only the first letter of each word of a Spanish city name is upper-cased: `"Viña"` | high; not executed | Display.TitleCaseSplitsAtAccent | Display.TitleCaseLatin |
