# Eatrion macro calculations, modelled in Dafny

Eatrion is a browser diet tracker. Users set a daily calorie target and a
protein/carbs/fat percentage split, photograph food for an image classifier,
look up the food's nutrition and log it to a diary. Nearly all of it is glue
around a hosted database, a classifier library and a charting library. This
project models the few pure calculations inside that glue and proves
properties about them:

- **Profile page** (`src/profile.js`):
  - `normalize` re-balances the split after one percentage is edited.
  - `computeGrams` turns calories and a split into whole grams, at 4 kcal/g
    for protein and carbs and 9 kcal/g for fat.
  - With no stored profile the split defaults to 30/50/20.
- **Diary page** (`src/diary.js`):
  - The stored profile becomes the day's targets in unrounded grams.
  - The day's food entries are folded into four totals.
  - The totals and targets become the two series of the summary chart.
- **Scan page** (`src/scan.js`):
  - The classifier's scores are ranked, highest first.
  - The 0.52 threshold chooses between one confident food and a "Maybe"
    list of up to three suggestions.
  - The serving size defaults to 100 g.
  - The four macros are read from a nutrition search hit by exact nutrient
    name and scaled to the serving.
  - The chosen food and its nutrition become the page's current state,
    which "Add to Diary" saves as a diary entry.

Modules, one per concept:

| file | module | contents |
|---|---|---|
| wrappers.dfy | `Wrappers` | `Option` |
| numeric.dfy | `Numeric` | `Num` (a parsed number, or NaN) with its falsy default; `Math.round`; `toFixed(1)` |
| nutrients.dfy | `Nutrients` | the four nutrients; the `Macros` record shared by entries, totals, targets and scanned nutrition; `Settings` (calorie target and three percentages); energy densities |
| profile.dfy | `Profile` | `Normalize`, its corrected twin `NormalizeIntended`, `ComputeGrams`, the default split |
| diary.dfy | `Diary` | targets, the totals fold and its reference sum, the chart series |
| ranking.dfy | `Ranking` | the stable descending ranking of score indices |
| scan.dfy | `Scan` | food selection, serving grams, nutrient lookup and scaling, the page's current food and nutrition, the entry "Add to Diary" saves |

Numbers are exact reals. `Math.round(x)` is `floor(x + 1/2)`. `toFixed(1)`
rounds to the nearest tenth, and a tie goes away from zero because
ECMAScript rounds the magnitude. A form or database value reaches the model
already parsed, as `Num`: a finite number, or `NaN`, which also stands for
`null` and `undefined`. Falsy means 0 or NaN, and `x || d` replaces a falsy
value by `d`.

### Behaviour of the code worth knowing

- `normalize` reads the three fields with unary `+` and applies no `|| 0`
  (`src/profile.js:19`), unlike `computeGrams` (`src/profile.js:46-49`).
  The model takes the fields as numbers.
- The diary totals use `Number(...)` with no default
  (`src/diary.js:85-88`), so non-numeric text would give NaN. The model
  takes entry values as numbers.
- `normalize` works on the values the form holds after the edit, and the
  comment above it (`src/profile.js:17`) states its goal: "so sum = 100".
  Scaling the two fields that were not edited by `(100 - edited) / their
  sum` meets it up to rounding. Two branches miss it (see Findings): for a
  fat edit the divisor adds protein to itself (`src/profile.js:21-22`), and
  when the divisor is zero each other field becomes `(100 - own value) / 2`
  (`src/profile.js:23-26`).
- Clicking a "Maybe" suggestion fetches the clicked food's nutrition but
  leaves `window.currentFood` at the first suggestion
  (`src/scan.js:98-106`), so "Add to Diary" and a later serving-size change
  use the first suggestion's name (see Findings).

## Model

| member | source | states |
|---|---|---|
| Profile.Normalize | src/profile.js:18-32 | The edited field keeps its value. When the computed sum of the others is zero, each other field becomes half of what its own value misses to 100. Otherwise each other field is the whole number nearest (ties up) to its value times (100 - edited) / the computed sum, so a field that was 0 stays 0. |
| Profile.NormalizeNearHundred | src/profile.js:17-31 | After a protein or carbs edit, with the other two summing to non-zero, the new total lies in (99, 101], which is the "sum = 100" the comment at line 17 promises, up to rounding. |
| Profile.FatEditUsesProteinTwice | src/profile.js:21-30 | After a fat edit (protein non-zero), protein becomes round((100 - fat) / 2) whatever carbs held. The total is within one of 100 when carbs equals protein. |
| Profile.FatEditCounterexample | src/profile.js:21-22 | Concrete case: {10, 80} with fat edited to 30 gives {35, 280, 30}, which sums to 345. The corrected re-balancing gives {8, 62, 30}. |
| Profile.NormalizeIntended | src/profile.js:17-31 | Corrected re-balancing. It divides by the true sum of the other two, and when that sum is zero it gives each of them half of what the edited value leaves of 100. It keeps the edited field and agrees with `Normalize` on protein and carbs edits whose other two sum to non-zero. |
| Profile.NormalizeIntendedNearHundred | src/profile.js:17-31 | With the correction, every edit (fat included) lands the total in (99, 101] when the other two sum to non-zero, and at exactly 100 when they sum to zero, which is the "sum = 100" of line 17. |
| Profile.TwoRoundedNearHundred | src/profile.js:28-31 | Two fields scaled by (100 - edited) / (their sum) and each rounded add up, with the edited value, to within one of 100. |
| Profile.NormalizeKeepsNonNegative | src/profile.js:28-31 | In the scaling branch, non-negative fields with an edited value of at most 100 stay non-negative. |
| Profile.ZeroSumHalves | src/profile.js:23-26 | Zero-sum branch with non-negative fields. After a protein or carbs edit both others become 50, so the total is the edited value + 100. After a fat edit protein becomes 50 and carbs becomes (100 - carbs) / 2. |
| Profile.ProteinEditExample | src/profile.js:28-31 | Protein edited from 30 to 50 in the default split gives carbs 36 and fat 14. |
| Profile.ProteinEditZeroCarbsExample | src/profile.js:21-31 | With carbs 0 and fat 100, protein edited to 40: the other two sum to 100, so fat is scaled by 60/100 to 60 and carbs stays 0. |
| Profile.ComputeGrams | src/profile.js:45-58 | Every falsy input counts as 0. Each gram figure is the nearest whole number (ties up) to the grams that carry that macro's percentage of the calories at 4/4/9 kcal per gram. |
| Profile.GramsUseOwnPercentOnly | src/profile.js:51-58 | Each gram figure depends only on the calories and its own percentage. |
| Profile.GramsZeroAndSign | src/profile.js:46-58 | A falsy calorie target gives 0 g of every macro. A falsy percentage gives 0 g of that macro. Non-negative inputs give non-negative grams. |
| Profile.LoadFormDefaults | src/profile.js:96-101 | Without a stored profile the loaded percentages sum to 100. The gram figures shown are all 0 without a calorie target, and 150 g protein, 250 g carbs and 44 g fat at 2000 kcal. |
| Profile.LoadForm | src/profile.js:90-100 | A stored profile fills all four fields. Without one, the percentages take the default split and the calorie field is left as it was. |
| Diary.DailyTargets | src/diary.js:48-60 | Without a profile row all targets are 0. With one, the calorie target passes through after the falsy-to-0 default, and each macro target times its energy density times 100 equals its percentage times the calories, unrounded. |
| Diary.FalsyFieldGivesZeroTarget | src/diary.js:50-53 | A missing or zero percentage or calorie target makes the matching macro target 0. |
| Diary.ProfileGramsRoundDiaryTargets | src/diary.js:57-59 | After the profile page loads a stored row, each gram figure it shows equals the diary's unrounded target for that row rounded to the nearest whole gram. |
| Diary.DailyTotals | src/diary.js:84-90 | An empty day totals all zeros. |
| Diary.DailyTotalsAreFieldSums | src/diary.js:84-90 | Each of the four totals produced by the left fold equals the sum of that nutrient alone over the entries. |
| Diary.DailyTotalsAppendOne | src/diary.js:85-88 | Folding one more entry adds exactly that entry's four values. |
| Diary.DailyTotalsOrderFree | src/diary.js:84-90 | Any permutation of the entries gives the same totals. |
| Diary.SummaryChart | src/diary.js:110-113 | The labels, consumed series and target series have four entries. Bar by bar they hold the label, the day's sum and the target of the same nutrient, in the order Calories, Carbs, Protein, Fat. |
| Diary.ChartCoversEachNutrientOnce | src/diary.js:111-113 | Every nutrient has a bar, and no two bars share a label. |
| Diary.DayChart | src/diary.js:84-93 | Bar by bar, the consumed value is the sum of that nutrient over the day's entries and the target is the profile-derived target. |
| Ranking.SortedIndices | src/scan.js:80-82 | `sorted` is a permutation of all score indices (right length, every index present, no repeats) in non-increasing score order. Equal scores keep ascending index order, as the stable `Array.prototype.sort` does. |
| Ranking.InsertRanked | src/scan.js:80-82 | Inserting a new, larger index after every index scoring at least as high keeps a ranked sequence ranked. |
| Ranking.RankedUnique | src/scan.js:80-82 | Two ranked permutations of the same indices are equal, so the stable descending sort can produce only this order. |
| Scan.Classify | src/scan.js:84-97 | The answer is confident iff the top ranked score is at least 0.52, and then it names the top label. Otherwise it offers the labels of the first min(3, n) ranked indices, in rank order. Either way the chosen food is the top ranked label. |
| Scan.FirstRankedIsBest | src/scan.js:80-88 | The first ranked index holds the highest score, and no earlier index holds one as high. |
| Scan.ChosenIsBestLabel | src/scan.js:88-106 | In both branches the chosen food is the label of the first index holding the highest score. |
| Scan.ConfidentIffAnyScoreReachesThreshold | src/scan.js:84-88 | The answer is confident exactly when some score reaches 0.52. |
| Scan.SuggestionsOutscoreTheRest | src/scan.js:92 | Every suggested index scores at least as high as every index not suggested. |
| Scan.ServingGrams | src/scan.js:50 | An unreadable or zero serving becomes 100 g. Any other value, negative included, is kept. The result is never 0. The same rule applies at lines 59 and 202. |
| Scan.UsdaNamesDistinct | src/scan.js:136-141 | The four nutrient names looked up are pairwise different, so no search entry fills two macros. |
| Scan.FirstMatch | src/scan.js:142 | Returns the position of the first nutrient whose name is exactly the key, with no earlier nutrient of that name. Returns none exactly when no nutrient has that name. |
| Scan.MacroValue | src/scan.js:132-143 | With no match the value is 0. Otherwise it has one decimal and lies within 0.05 of p, the first match's per-100 g value times grams / 100: in (p - 0.05, p + 0.05] when p >= 0 and in [p - 0.05, p + 0.05) when p < 0, so a tie goes away from zero as with `toFixed(1)`. |
| Scan.ScaledMacros | src/scan.js:136-144 | Each of the four macros is looked up and scaled on its own. |
| Scan.ServingOfHundredGrams | src/scan.js:132-143 | At 100 g the factor is exactly 1. Each value is the matching per-100 g value rounded to one decimal, and exactly that value when it already has one decimal. |
| Scan.FirstValueSkipsOtherNames | src/scan.js:142 | A nutrient with a different name, inserted anywhere, never changes what the lookup of a key finds. |
| Scan.OtherNutrientsIgnored | src/scan.js:136-143 | Only "Energy", "Total lipid (fat)", "Protein" and "Carbohydrate, by difference" fill the nutrition object. A nutrient with any other name can be added anywhere without changing it. |
| Scan.NutritionAfterLookup | src/scan.js:121-145 | A failed request or an empty hit list leaves `currentNutrition` as it was. Otherwise it becomes the first hit's macros scaled to the serving. |
| Scan.LookupUsesFirstHitOnly | src/scan.js:126-144 | A failed request or an empty hit list keeps the previous nutrition. Otherwise the previous value and every hit after the first are ignored, and each macro is 0 when the first hit lacks it, else within 0.05 of its per-100 g value scaled to the serving. |
| Scan.ScanFood | src/scan.js:50-107 | One scan sets `currentFood` to the label of the first highest-scoring index, the same as `Classify`'s chosen food. A successful search sets the nutrition to the first hit scaled by the defaulted serving grams. A failed search or an empty hit list keeps the old nutrition. |
| Scan.PickSuggestion | src/scan.js:98-103 | Clicking a suggestion leaves `currentFood` unchanged. A successful lookup of the clicked food replaces the nutrition with its first hit scaled to the scan's grams, and a failed or empty lookup keeps it. |
| Scan.PickSuggestionIntended | src/scan.js:98-106 | The corrected click sets `currentFood` to the clicked food and updates the nutrition exactly as the code does. |
| Scan.SavedEntry | src/scan.js:199-214 | The saved row carries the current food's name and current nutrition. Its serving grams follow `+value || 100`: the field's value when it is a non-zero number, 100 when it is empty, unreadable or 0, and never 0. |
| Scan.RefetchFood | src/scan.js:58-62 | A serving-size change looks up `currentFood` again exactly when it is set, and looks up nothing otherwise. |
| Scan.SuggestionClickKeepsFirstName | src/scan.js:97-106 | After a doubtful scan and a successful lookup of a clicked suggestion, the saved entry names the first suggestion but carries the clicked food's nutrition. With distinct labels and any click but the first, the name differs from the clicked food. A serving-size change looks up the first suggestion again. |
| Scan.PickSuggestionIntendedNamesFood | src/scan.js:98-106 | With the correction, a successful lookup leaves an entry that names the clicked food and carries its nutrition, and a serving-size change looks up that food. |
| Numeric.Round | src/profile.js:56-58 | `Math.round(x)` is the integer n with x - 1/2 < n <= x + 1/2. |
| Numeric.RoundUnique | src/profile.js:56-58 | That nearest integer is unique, so any integer meeting the rounding relation is `Round(x)`. |
| Numeric.ToFixed1 | src/scan.js:143 | `+(x).toFixed(1)` has one decimal and is non-negative for non-negative x. It lies in (x - 0.05, x + 0.05] for x >= 0 and in [x - 0.05, x + 0.05) for x < 0, so a tie goes away from zero. |
| Numeric.ToFixed1Unique | src/scan.js:143 | Any one-decimal value within those half-open bounds is `ToFixed1(x)`, so the contract pins the result. |
| Numeric.ToFixed1Ties | src/scan.js:143 | 0.25 becomes 0.3 and -0.25 becomes -0.3. |
| Numeric.ToFixed1Odd | src/scan.js:143 | Rounding to one decimal is symmetric about zero. |
| Numeric.ToFixed1Idempotent | src/scan.js:143 | Rounding an already rounded value changes nothing. |
| Numeric.ToFixed1KeepsTenths | src/scan.js:143 | A value that already has one decimal is returned unchanged. |

## Findings

| source | as written | input that shows it | evidently intended | confidence | as-written member | corrected member |
|---|---|---|---|---|---|---|
| src/profile.js:21-22 | On a fat edit the second operand `changed==="fat"?"protein":"fat"` picks protein again, so "the sum of the others" is 2 × protein | protein 10, carbs 80, fat edited to 30: factor 70/20, result {35, 280, 30}, total 345 | sum of protein and carbs (factor 70/90, result {8, 62, 30}, total 100) | high; not executed | Profile.FatEditCounterexample | Profile.NormalizeIntendedNearHundred |
| src/profile.js:23-26 | When the divisor is zero, each other field becomes `(100 - own value) / 2`, so with non-negative fields both others were 0 and become 50 | protein edited to 40 with carbs 0 and fat 0: result {40, 50, 50}, total 140 | each other field gets half of what the edited value leaves, `(100 - edited) / 2`: result {40, 30, 30}, total 100 | medium; not executed | Profile.ZeroSumHalves | Profile.NormalizeIntendedNearHundred |
| src/scan.js:98-106 | The suggestion click handler fetches the clicked food but never sets `window.currentFood`, which line 106 set to the first suggestion | top score below 0.52 with suggestions apple, banana, cherry; the user clicks banana and its lookup succeeds: "Add to Diary" saves `food_name` apple with banana's nutrition, and a serving-size change looks up apple again | the click makes the clicked food `currentFood`, as line 106 does for the first choice | high; not executed | Scan.SuggestionClickKeepsFirstName | Scan.PickSuggestionIntendedNamesFood |

`Profile.Normalize` and `Scan.PickSuggestion` keep the code as written, and
the lemmas about them describe that behaviour. `Profile.NormalizeIntended`
and `Scan.PickSuggestionIntended` are the corrected definitions. Nothing
else in the model consumes a re-balanced split or the state after a click,
so the two versions do not compete.

## Left out

- DOM reads and writes, event wiring (`normalize` and `computeGrams` both run on every input event), page redirects and the rendered HTML: presentation only.
- Sessions, profile load and save, and diary insert and select against the hosted backend (including the `PGRST116` case): third-party I/O. A profile that failed to load and one that is absent both reach `Diary.DailyTargets` as `None`, as in the code.
- Loading the image model, tensor preprocessing and `model.predict`: a foreign library. The score vector is an input.
- The `fetch` of the nutrition search: network I/O. Its outcome is the `SearchResult` input. A thrown error and a non-OK status are both `RequestFailed`.
- The order in which overlapping fetches finish: the page awaits each fetch, but a click, a serving-size change and a new scan can overlap. The model applies one lookup at a time.
- The nutrition request's query text and `pageSize`: the search result is an input, whatever food was asked for.
- The nutrient list shown on the page (nine entries, "N/A" for missing ones): presentation.
- Chart.js rendering and the `Date`/locale arithmetic of the day window and `changeDay`: host-library and time-zone behaviour.
- `src/main.js` (sign-in and sign-up UI) and both `vite.config.js` files: not part of this model.
- IEEE-754 doubles: the model uses exact reals. It does not model NaN propagation in sums and products, Infinity, non-associative floating-point addition, or the binary-to-decimal rounding of `toFixed`. So `Diary.DailyTotalsOrderFree` holds for reals, and for doubles only up to rounding error.
- Text parsing: `parseFloat` and unary `+` differ on text such as "12g" or "". Values arrive already parsed as `Num`.
- Profile.Normalize: the fields are reals, so a field holding NaN (text that is not a number) is not modelled, because the code does not coerce it there.
- Diary.DailyTotals: entry values are reals, so the NaN that `Number(...)` yields for non-numeric text is not modelled.
- Scan.Classify: requires at least one score (`sorted[0]` on an empty array throws) and at least as many labels as scores, because the code would read `undefined` for a label past the end. The metadata gives one label per class.
- Ranking.SortedIndices: scores are reals, so the comparator's behaviour on NaN scores is not modelled.
