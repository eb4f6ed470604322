/** The scan page (src/scan.js): choosing a food from the classifier's
    scores, the serving size, and the four macro values read from a
    nutrition search hit and scaled to the serving. */
module Scan {
  import opened Wrappers
  import opened Numeric
  import opened Nutrients
  import opened Ranking
  import Diary

  // ---------------------------------------------------------------------
  // Choosing the food
  // ---------------------------------------------------------------------

  /** A top score at or above this is taken as a confident answer. */
  const Threshold: real := 0.52

  /** How many suggestions a doubtful answer offers. */
  const SuggestionCount: nat := 3

  /** A confident answer names one food; a doubtful one offers up to three
      suggestions, the first of which is looked up. */
  datatype Prediction = Confident(food: string) | Maybe(options: seq<string>) {

    predicate Valid() {
      Confident? || |options| > 0
    }

    /** `chosenFood`: the food whose nutrition is fetched. */
    function Chosen(): string
      requires Valid()
    {
      if Confident? then food else options[0]
    }
  }

  function Min(a: nat, b: nat): nat {
    if a <= b then a else b
  }

  /** The first `count` entries of `ranked`, as labels. */
  function LabelsOf(labels: seq<string>, ranked: seq<nat>, count: nat): (r: seq<string>)
    requires count <= |ranked|
    requires forall i :: 0 <= i < |ranked| ==> ranked[i] < |labels|
    ensures |r| == count
    ensures forall k :: 0 <= k < count ==> r[k] == labels[ranked[k]]
  {
    seq(count, k requires 0 <= k < count => labels[ranked[k]])
  }

  /** The selection in `classifyAndFetch`: with the top score at or above
      the threshold the top label is chosen; otherwise the labels of the
      first three ranked indices (fewer when there are fewer classes) are
      offered in rank order and the first is chosen. */
  function Classify(scores: seq<real>, labels: seq<string>): (p: Prediction)
    requires 0 < |scores| <= |labels|
    ensures p.Valid()
    ensures p.Confident? <==> scores[SortedIndices(scores)[0]] >= Threshold
    ensures p.Maybe? ==> |p.options| == Min(SuggestionCount, |scores|)
    ensures p.Maybe? ==> forall k :: 0 <= k < |p.options| ==>
              p.options[k] == labels[SortedIndices(scores)[k]]
    ensures p.Chosen() == labels[SortedIndices(scores)[0]]
  {
    var sorted := SortedIndices(scores);
    if scores[sorted[0]] >= Threshold then Confident(labels[sorted[0]])
    else Maybe(LabelsOf(labels, sorted, Min(SuggestionCount, |scores|)))
  }

  /** Index `i` holds a highest score, and no earlier index holds one. */
  predicate IsFirstBest(scores: seq<real>, i: nat)
    requires i < |scores|
  {
    (forall j :: 0 <= j < |scores| ==> scores[j] <= scores[i]) &&
    (forall j :: 0 <= j < i ==> scores[j] < scores[i])
  }

  /** The first ranked index is the first index holding the highest score. */
  lemma FirstRankedIsBest(scores: seq<real>)
    requires |scores| > 0
    ensures IsFirstBest(scores, SortedIndices(scores)[0])
  {
    var s := SortedIndices(scores);
    forall j | 0 <= j < |scores|
      ensures scores[j] <= scores[s[0]]
      ensures j < s[0] ==> scores[j] < scores[s[0]]
    {
      assert j in s;
      var m :| 0 <= m < |s| && s[m] == j;
      if m > 0 {
        assert Ahead(scores, s[0], s[m]);
      }
    }
  }

  /** Whichever branch is taken, the chosen food is the label of the first
      index holding the highest score. */
  lemma ChosenIsBestLabel(scores: seq<real>, labels: seq<string>)
    requires 0 < |scores| <= |labels|
    ensures exists i :: 0 <= i < |scores| && IsFirstBest(scores, i) &&
              Classify(scores, labels).Chosen() == labels[i]
  {
    FirstRankedIsBest(scores);
    var i := SortedIndices(scores)[0];
    assert IsFirstBest(scores, i) && Classify(scores, labels).Chosen() == labels[i];
  }

  /** The answer is confident exactly when some score reaches the threshold. */
  lemma ConfidentIffAnyScoreReachesThreshold(scores: seq<real>, labels: seq<string>)
    requires 0 < |scores| <= |labels|
    ensures Classify(scores, labels).Confident? <==>
              exists j :: 0 <= j < |scores| && scores[j] >= Threshold
  {
    FirstRankedIsBest(scores);
    var i := SortedIndices(scores)[0];
    if Classify(scores, labels).Confident? {
      assert scores[i] >= Threshold;
    }
  }

  /** Every suggested index scores at least as high as every index that is
      not suggested. */
  lemma SuggestionsOutscoreTheRest(scores: seq<real>, labels: seq<string>)
    requires 0 < |scores| <= |labels|
    requires Classify(scores, labels).Maybe?
    ensures var s := SortedIndices(scores);
            var n := |Classify(scores, labels).options|;
            forall k, j :: 0 <= k < n && 0 <= j < |scores| && j !in s[..n] ==> scores[s[k]] >= scores[j]
  {
    var s := SortedIndices(scores);
    var n := |Classify(scores, labels).options|;
    forall k, j | 0 <= k < n && 0 <= j < |scores| && j !in s[..n]
      ensures scores[s[k]] >= scores[j]
    {
      assert j in s;
      var m :| 0 <= m < |s| && s[m] == j;
    }
  }

  // ---------------------------------------------------------------------
  // Serving size
  // ---------------------------------------------------------------------

  const DefaultServingGrams: real := 100.0

  /** `parseFloat(value) || 100` (and `+value || 100` when saving): an
      unreadable or zero serving becomes 100 g; any other number, negative
      ones included, is kept. The result is never 0. */
  function ServingGrams(input: Num): (g: real)
    ensures g != 0.0
    ensures input.Falsy() <==> g == DefaultServingGrams && !(input.Finite? && input.v == DefaultServingGrams)
    ensures input.Finite? && input.v != 0.0 ==> g == input.v
  {
    input.Or(DefaultServingGrams)
  }

  // ---------------------------------------------------------------------
  // Nutrition of the chosen food
  // ---------------------------------------------------------------------

  /** One entry of a search hit's `foodNutrients`, per 100 g. */
  datatype FoodNutrient = FoodNutrient(nutrientName: string, value: real)

  /** The nutrient name the lookup matches for each tracked nutrient. */
  function UsdaName(k: Nutrient): string {
    match k
    case Calories => "Energy"
    case Fat => "Total lipid (fat)"
    case Protein => "Protein"
    case Carbs => "Carbohydrate, by difference"
  }

  /** Each tracked nutrient is matched by a name of its own. */
  lemma UsdaNamesDistinct(a: Nutrient, b: Nutrient)
    ensures UsdaName(a) == UsdaName(b) ==> a == b
  {
  }

  /** `nuts.find(n => n.nutrientName === key)`, as a position: the first
      nutrient whose name is exactly `key`, or none. */
  function FirstMatch(nuts: seq<FoodNutrient>, key: string): (r: Option<nat>)
    ensures r.Some? ==> r.value < |nuts| && nuts[r.value].nutrientName == key
    ensures r.Some? ==> forall j :: 0 <= j < r.value ==> nuts[j].nutrientName != key
    ensures r.None? ==> forall j :: 0 <= j < |nuts| ==> nuts[j].nutrientName != key
    decreases |nuts|
  {
    if |nuts| == 0 then None
    else if nuts[0].nutrientName == key then Some(0)
    else match FirstMatch(nuts[1..], key)
      case None => None
      case Some(i) => Some(i + 1)
  }

  /** The per-100 g value of the first nutrient named `key`, if any. */
  function FirstValue(nuts: seq<FoodNutrient>, key: string): Option<real> {
    match FirstMatch(nuts, key)
    case None => None
    case Some(i) => Some(nuts[i].value)
  }

  /** The amount in a serving of `grams`, from an amount per 100 g. */
  function Portion(per100g: real, grams: real): real {
    per100g * (grams / 100.0)
  }

  /** One macro of `currentNutrition`: the first matching value times
      `grams / 100`, rounded to one decimal, or 0 when nothing matches. */
  function MacroValue(nuts: seq<FoodNutrient>, k: Nutrient, grams: real): (r: real)
    ensures IsWhole(r * 10.0)
    ensures FirstValue(nuts, UsdaName(k)).None? ==> r == 0.0
    ensures FirstValue(nuts, UsdaName(k)).Some? && Portion(FirstValue(nuts, UsdaName(k)).value, grams) >= 0.0 ==>
              -0.05 < r - Portion(FirstValue(nuts, UsdaName(k)).value, grams) <= 0.05
    ensures FirstValue(nuts, UsdaName(k)).Some? && Portion(FirstValue(nuts, UsdaName(k)).value, grams) < 0.0 ==>
              -0.05 <= r - Portion(FirstValue(nuts, UsdaName(k)).value, grams) < 0.05
  {
    match FirstValue(nuts, UsdaName(k))
    case None => 0.0
    case Some(v) => ToFixed1(Portion(v, grams))
  }

  /** The nutrition object built by `fetchNutrition`: each of the four
      values is looked up and scaled on its own. */
  function ScaledMacros(nuts: seq<FoodNutrient>, grams: real): (m: Macros)
    ensures forall k :: m.Get(k) == MacroValue(nuts, k, grams)
  {
    Macros(MacroValue(nuts, Calories, grams), MacroValue(nuts, Protein, grams),
           MacroValue(nuts, Carbs, grams), MacroValue(nuts, Fat, grams))
  }

  /** At 100 g the factor is exactly 1: each value is the matching per-100 g
      value rounded to one decimal, and unchanged when it already has one. */
  lemma ServingOfHundredGrams(nuts: seq<FoodNutrient>, k: Nutrient)
    requires FirstValue(nuts, UsdaName(k)).Some?
    ensures ScaledMacros(nuts, 100.0).Get(k) == ToFixed1(FirstValue(nuts, UsdaName(k)).value)
    ensures IsWhole(FirstValue(nuts, UsdaName(k)).value * 10.0) ==>
              ScaledMacros(nuts, 100.0).Get(k) == FirstValue(nuts, UsdaName(k)).value
  {
    var v := FirstValue(nuts, UsdaName(k)).value;
    assert Portion(v, 100.0) == v;
    MacroValueOfMatch(nuts, k, 100.0);
    assert ScaledMacros(nuts, 100.0).Get(k) == ToFixed1(v);
    if IsWhole(v * 10.0) {
      ToFixed1KeepsTenths(v);
    }
  }

  lemma MacroValueOfMatch(nuts: seq<FoodNutrient>, k: Nutrient, grams: real)
    requires FirstValue(nuts, UsdaName(k)).Some?
    ensures MacroValue(nuts, k, grams) == ToFixed1(Portion(FirstValue(nuts, UsdaName(k)).value, grams))
  {
  }

  /** A nutrient whose name is not the key never changes what the lookup of
      that key finds, wherever it sits. */
  lemma {:induction false} FirstValueSkipsOtherNames(a: seq<FoodNutrient>, n: FoodNutrient, b: seq<FoodNutrient>, key: string)
    requires n.nutrientName != key
    ensures FirstValue(a + [n] + b, key) == FirstValue(a + b, key)
    decreases |a|
  {
    if |a| == 0 {
      assert a + [n] + b == [n] + b;
      assert ([n] + b)[1..] == b;
      assert a + b == b;
    } else {
      assert (a + [n] + b)[1..] == a[1..] + [n] + b;
      assert (a + b)[1..] == a[1..] + b;
      FirstValueSkipsOtherNames(a[1..], n, b, key);
      if a[0].nutrientName != key {
        assert FirstValue(a + [n] + b, key) == FirstValue(a[1..] + [n] + b, key) by {
          FirstValueTail(a + [n] + b, key);
        }
        assert FirstValue(a + b, key) == FirstValue(a[1..] + b, key) by {
          FirstValueTail(a + b, key);
        }
      }
    }
  }

  /** Past a first nutrient with another name, the lookup continues in the rest. */
  lemma FirstValueTail(nuts: seq<FoodNutrient>, key: string)
    requires |nuts| > 0 && nuts[0].nutrientName != key
    ensures FirstValue(nuts, key) == FirstValue(nuts[1..], key)
  {
  }

  /** Only "Energy", "Total lipid (fat)", "Protein" and "Carbohydrate, by
      difference" fill the nutrition object: a nutrient with any other name
      can be added anywhere without changing it. */
  lemma OtherNutrientsIgnored(a: seq<FoodNutrient>, n: FoodNutrient, b: seq<FoodNutrient>, grams: real)
    requires forall k :: n.nutrientName != UsdaName(k)
    ensures ScaledMacros(a + [n] + b, grams) == ScaledMacros(a + b, grams)
  {
    FirstValueSkipsOtherNames(a, n, b, UsdaName(Calories));
    FirstValueSkipsOtherNames(a, n, b, UsdaName(Protein));
    FirstValueSkipsOtherNames(a, n, b, UsdaName(Carbs));
    FirstValueSkipsOtherNames(a, n, b, UsdaName(Fat));
    var x, y := ScaledMacros(a + [n] + b, grams), ScaledMacros(a + b, grams);
    assert x.calories == y.calories by { MacroValueFromFirstValue(a + [n] + b, a + b, Calories, grams); }
    assert x.protein == y.protein by { MacroValueFromFirstValue(a + [n] + b, a + b, Protein, grams); }
    assert x.carbs == y.carbs by { MacroValueFromFirstValue(a + [n] + b, a + b, Carbs, grams); }
    assert x.fat == y.fat by { MacroValueFromFirstValue(a + [n] + b, a + b, Fat, grams); }
  }

  lemma MacroValueFromFirstValue(x: seq<FoodNutrient>, y: seq<FoodNutrient>, k: Nutrient, grams: real)
    requires FirstValue(x, UsdaName(k)) == FirstValue(y, UsdaName(k))
    ensures MacroValue(x, k, grams) == MacroValue(y, k, grams)
  {
  }

  /** What the nutrition search returned: a failed request, or the list of
      hits (each hit's nutrients). */
  datatype SearchResult = RequestFailed | Hits(foods: seq<seq<FoodNutrient>>)

  /** `window.currentNutrition` after `fetchNutrition`: a failed request or
      an empty hit list leaves it as it was; otherwise it is the first hit's
      macros scaled to the serving. */
  function NutritionAfterLookup(current: Macros, result: SearchResult, grams: real): (m: Macros)
    ensures result.RequestFailed? ==> m == current
    ensures result.Hits? && |result.foods| == 0 ==> m == current
    ensures result.Hits? && |result.foods| > 0 ==> m == ScaledMacros(result.foods[0], grams)
  {
    if result.RequestFailed? || |result.foods| == 0 then current
    else ScaledMacros(result.foods[0], grams)
  }

  /** A failed request or an empty hit list keeps the previous nutrition.
      A non-empty one forgets it: only the first hit counts, each macro is
      0 when that hit lacks it and otherwise within 0.05 of its per-100 g
      value scaled to the serving. */
  lemma LookupUsesFirstHitOnly(c1: Macros, c2: Macros, foods: seq<seq<FoodNutrient>>, grams: real)
    ensures |foods| == 0 ==> NutritionAfterLookup(c1, Hits(foods), grams) == c1
    ensures NutritionAfterLookup(c1, RequestFailed, grams) == c1
    ensures |foods| > 0 ==>
              NutritionAfterLookup(c1, Hits(foods), grams) == NutritionAfterLookup(c2, Hits(foods[..1]), grams)
    ensures |foods| > 0 ==> forall k ::
              var m := NutritionAfterLookup(c1, Hits(foods), grams);
              var v := FirstValue(foods[0], UsdaName(k));
              (v.None? ==> m.Get(k) == 0.0) &&
              (v.Some? ==> -0.05 <= m.Get(k) - Portion(v.value, grams) <= 0.05)
  {
  }

  // ---------------------------------------------------------------------
  // The page's state
  // ---------------------------------------------------------------------

  /** `window.currentFood` and `window.currentNutrition`. */
  datatype ScanState = ScanState(food: string, nutrition: Macros)

  /** One scan: the classifier scores choose the food, which becomes
      `currentFood` (line 106); the serving field gives the grams, and the
      search result for the chosen food gives `currentNutrition`. */
  function ScanFood(scores: seq<real>, labels: seq<string>, servingField: Num,
                    result: SearchResult, current: Macros): (out: ScanState)
    requires 0 < |scores| <= |labels|
    ensures exists i :: 0 <= i < |scores| && IsFirstBest(scores, i) && out.food == labels[i]
    ensures out.food == Classify(scores, labels).Chosen()
    ensures result.Hits? && |result.foods| > 0 ==>
              out.nutrition == ScaledMacros(result.foods[0], ServingGrams(servingField))
    ensures result.RequestFailed? ==> out.nutrition == current
    ensures result.Hits? && |result.foods| == 0 ==> out.nutrition == current
  {
    ChosenIsBestLabel(scores, labels);
    ScanState(Classify(scores, labels).Chosen(),
              NutritionAfterLookup(current, result, ServingGrams(servingField)))
  }

  /** Clicking a "Maybe" suggestion as the code does it: the clicked food's
      nutrition is fetched at the scan's grams, but `currentFood` is not
      updated and still names the first suggestion. */
  function PickSuggestion(st: ScanState, clicked: string, result: SearchResult, grams: real): (r: ScanState)
    ensures r.food == st.food
    ensures result.Hits? && |result.foods| > 0 ==> r.nutrition == ScaledMacros(result.foods[0], grams)
    ensures result.RequestFailed? || (result.Hits? && |result.foods| == 0) ==> r.nutrition == st.nutrition
  {
    ScanState(st.food, NutritionAfterLookup(st.nutrition, result, grams))
  }

  /** The click as evidently intended: the clicked food becomes
      `currentFood` before its nutrition is fetched, as line 106 does for
      the first choice. */
  function PickSuggestionIntended(st: ScanState, clicked: string, result: SearchResult, grams: real): (r: ScanState)
    ensures r.food == clicked
    ensures r.nutrition == PickSuggestion(st, clicked, result, grams).nutrition
  {
    ScanState(clicked, NutritionAfterLookup(st.nutrition, result, grams))
  }

  /** The row "Add to Diary" inserts (`saveToDiary`): the current food's
      name, the serving field read again with `+value || 100`, and the
      current nutrition. */
  function SavedEntry(st: ScanState, servingField: Num): (e: Diary.Entry)
    ensures e.foodName == st.food && e.nutrients == st.nutrition
    ensures e.servingGrams == ServingGrams(servingField)
    ensures e.servingGrams != 0.0
    ensures servingField.Falsy() ==> e.servingGrams == DefaultServingGrams
    ensures !servingField.Falsy() ==> e.servingGrams == servingField.v
  {
    Diary.Entry(st.food, ServingGrams(servingField), st.nutrition)
  }

  /** The food a serving-size change looks up again: `currentFood` when it
      is set (a non-empty name), otherwise nothing. */
  function RefetchFood(st: ScanState): (f: Option<string>)
    ensures f.Some? <==> st.food != ""
    ensures f.Some? ==> f.value == st.food
  {
    if st.food == "" then None else Some(st.food)
  }

  /** After a doubtful scan, clicking any suggestion whose lookup succeeds
      leaves an entry that names the first suggestion but carries the
      clicked food's nutrition; with distinct labels that is another food
      whenever the click was not on the first suggestion. A serving-size
      change then looks up the first suggestion again. */
  lemma SuggestionClickKeepsFirstName(scores: seq<real>, labels: seq<string>, servingField: Num,
                                      first: SearchResult, current: Macros,
                                      i: nat, clickResult: SearchResult, saveField: Num)
    requires 0 < |scores| <= |labels|
    requires Classify(scores, labels).Maybe?
    requires i < |Classify(scores, labels).options|
    requires clickResult.Hits? && |clickResult.foods| > 0
    ensures var p := Classify(scores, labels);
            var st := PickSuggestion(ScanFood(scores, labels, servingField, first, current),
                                     p.options[i], clickResult, ServingGrams(servingField));
            var e := SavedEntry(st, saveField);
            e.foodName == p.options[0] &&
            e.nutrients == ScaledMacros(clickResult.foods[0], ServingGrams(servingField)) &&
            (p.options[0] != "" ==> RefetchFood(st) == Some(p.options[0])) &&
            ((forall a, b :: 0 <= a < b < |labels| ==> labels[a] != labels[b]) && i > 0 ==>
               e.foodName != p.options[i])
  {
    var p := Classify(scores, labels);
    var s := SortedIndices(scores);
    if (forall a, b :: 0 <= a < b < |labels| ==> labels[a] != labels[b]) && i > 0 {
      assert s[0] != s[i];
      assert p.options[0] == labels[s[0]] && p.options[i] == labels[s[i]];
      if s[0] < s[i] {
        assert labels[s[0]] != labels[s[i]];
      } else {
        assert labels[s[i]] != labels[s[0]];
      }
    }
  }

  /** With the correction, whichever suggestion is clicked, a successful
      lookup leaves an entry that names the food whose nutrition it carries,
      and a serving-size change looks that food up again. */
  lemma PickSuggestionIntendedNamesFood(st: ScanState, clicked: string, result: SearchResult,
                                        grams: real, saveField: Num)
    requires result.Hits? && |result.foods| > 0
    ensures var e := SavedEntry(PickSuggestionIntended(st, clicked, result, grams), saveField);
            e.foodName == clicked && e.nutrients == ScaledMacros(result.foods[0], grams)
    ensures clicked != "" ==> RefetchFood(PickSuggestionIntended(st, clicked, result, grams)) == Some(clicked)
  {
  }
}
