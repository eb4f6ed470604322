/** The diary page (src/diary.js): the day's targets derived from the stored
    profile, the day's totals folded from the logged food entries, and the
    two series of the summary chart. */
module Diary {
  import opened Wrappers
  import opened Numeric
  import opened Nutrients
  import Profile

  // ---------------------------------------------------------------------
  // Targets
  // ---------------------------------------------------------------------

  /** The targets of `renderForDate`: all zero without a profile row (absent
      or failed to load); otherwise the calorie target passes through after
      `|| 0` and each macro target is the unrounded number of grams carrying
      its percentage of the calories. */
  function DailyTargets(row: Option<Settings>): (t: Macros)
    ensures row.None? ==> t == Zero
    ensures row.Some? ==> t.calories == row.value.calorieTarget.Or(0.0)
    ensures row.Some? ==> forall k: Nutrient | k.IsMacro() ::
              t.Get(k) * KcalPerGram(k) * 100.0 == row.value.Pct(k).Or(0.0) * t.calories
  {
    match row
    case None => Zero
    case Some(p) =>
      var kcal := p.calorieTarget.Or(0.0);
      Macros(kcal,
             GramsOf(Protein, p.protein.Or(0.0), kcal),
             GramsOf(Carbs, p.carbs.Or(0.0), kcal),
             GramsOf(Fat, p.fat.Or(0.0), kcal))
  }

  /** A missing or zero percentage, or a missing or zero calorie target,
      makes the matching macro target 0. */
  lemma FalsyFieldGivesZeroTarget(row: Settings, k: Nutrient)
    requires k.IsMacro()
    requires row.Pct(k).Falsy() || row.calorieTarget.Falsy()
    ensures DailyTargets(Some(row)).Get(k) == 0.0
  {
  }

  /** Once the profile page has loaded a stored row into its form, the gram
      figure it shows is the diary's unrounded target for that row rounded
      to the nearest whole gram. */
  lemma ProfileGramsRoundDiaryTargets(row: Settings, blank: Settings, k: Nutrient)
    requires k.IsMacro()
    ensures Profile.ComputeGrams(Profile.LoadForm(Some(row), blank)).Get(k) == Round(DailyTargets(Some(row)).Get(k))
  {
  }

  // ---------------------------------------------------------------------
  // Totals
  // ---------------------------------------------------------------------

  /** A row of `consumed_foods` for the day (its timestamp only orders the
      query and plays no part here). */
  datatype Entry = Entry(foodName: string, servingGrams: real, nutrients: Macros)

  /** `foods.reduce(...)`: the accumulator absorbs the entries from first to
      last. */
  function FoldTotals(acc: Macros, entries: seq<Entry>): Macros
    decreases |entries|
  {
    if |entries| == 0 then acc
    else FoldTotals(acc.Plus(entries[0].nutrients), entries[1..])
  }

  /** The day's totals, starting from all zeros. */
  function DailyTotals(entries: seq<Entry>): (t: Macros)
    ensures |entries| == 0 ==> t == Zero
  {
    FoldTotals(Zero, entries)
  }

  /** Reference definition: the sum of one nutrient over the entries. */
  function SumOf(entries: seq<Entry>, k: Nutrient): real
    decreases |entries|
  {
    if |entries| == 0 then 0.0
    else entries[0].nutrients.Get(k) + SumOf(entries[1..], k)
  }

  lemma {:induction false} FoldIsSum(acc: Macros, entries: seq<Entry>, k: Nutrient)
    ensures FoldTotals(acc, entries).Get(k) == acc.Get(k) + SumOf(entries, k)
    decreases |entries|
  {
    if |entries| > 0 {
      FoldIsSum(acc.Plus(entries[0].nutrients), entries[1..], k);
    }
  }

  /** Each total is the sum of its own nutrient over the entries and of
      nothing else. */
  lemma DailyTotalsAreFieldSums(entries: seq<Entry>)
    ensures forall k :: DailyTotals(entries).Get(k) == SumOf(entries, k)
  {
    forall k {
      FoldIsSum(Zero, entries, k);
    }
  }

  lemma {:induction false} SumOfAppend(a: seq<Entry>, b: seq<Entry>, k: Nutrient)
    ensures SumOf(a + b, k) == SumOf(a, k) + SumOf(b, k)
    decreases |a|
  {
    if |a| == 0 {
      assert a + b == b;
    } else {
      assert (a + b)[1..] == a[1..] + b;
      SumOfAppend(a[1..], b, k);
    }
  }

  /** Two records that agree on every nutrient are equal. */
  lemma MacrosExt(x: Macros, y: Macros)
    requires forall k :: x.Get(k) == y.Get(k)
    ensures x == y
  {
    assert x.Get(Calories) == y.Get(Calories);
    assert x.Get(Protein) == y.Get(Protein);
    assert x.Get(Carbs) == y.Get(Carbs);
    assert x.Get(Fat) == y.Get(Fat);
  }

  /** Logging one more entry adds exactly that entry's four values. */
  lemma DailyTotalsAppendOne(entries: seq<Entry>, e: Entry)
    ensures DailyTotals(entries + [e]) == DailyTotals(entries).Plus(e.nutrients)
  {
    DailyTotalsAreFieldSums(entries);
    DailyTotalsAreFieldSums(entries + [e]);
    forall k
      ensures DailyTotals(entries + [e]).Get(k) == DailyTotals(entries).Plus(e.nutrients).Get(k)
    {
      SumOfAppend(entries, [e], k);
      assert SumOf([e], k) == e.nutrients.Get(k) + SumOf([e][1..], k);
    }
    MacrosExt(DailyTotals(entries + [e]), DailyTotals(entries).Plus(e.nutrients));
  }

  /** Taking out the entry at `j` takes its value out of the sum. */
  lemma SumOfRemove(b: seq<Entry>, j: nat, k: Nutrient)
    requires j < |b|
    ensures SumOf(b, k) == b[j].nutrients.Get(k) + SumOf(b[..j] + b[j + 1..], k)
  {
    assert b == b[..j] + [b[j]] + b[j + 1..];
    SumOfAppend(b[..j] + [b[j]], b[j + 1..], k);
    SumOfAppend(b[..j], [b[j]], k);
    SumOfAppend(b[..j], b[j + 1..], k);
    assert SumOf([b[j]], k) == b[j].nutrients.Get(k) + SumOf([b[j]][1..], k);
  }

  /** The first entry of `a` sits somewhere in a rearrangement `b`; taking
      it out of both leaves rearrangements of each other. */
  lemma MatchFirst(a: seq<Entry>, b: seq<Entry>) returns (j: nat)
    requires multiset(a) == multiset(b) && |a| > 0
    ensures j < |b| && b[j] == a[0]
    ensures multiset(a[1..]) == multiset(b[..j] + b[j + 1..])
  {
    assert a[0] in multiset(a);
    assert a[0] in b;
    j :| 0 <= j < |b| && b[j] == a[0];
    var x, rest := a[0], b[..j] + b[j + 1..];
    assert a == [x] + a[1..];
    assert b == b[..j] + [x] + b[j + 1..];
    assert multiset(a) == multiset{x} + multiset(a[1..]);
    assert multiset(b) == multiset{x} + multiset(rest);
    assert multiset(a[1..]) == multiset(a) - multiset{x};
    assert multiset(rest) == multiset(b) - multiset{x};
  }

  lemma {:induction false} SumOfPermutation(a: seq<Entry>, b: seq<Entry>, k: Nutrient)
    requires multiset(a) == multiset(b)
    ensures SumOf(a, k) == SumOf(b, k)
    decreases |a|
  {
    if |a| == 0 {
      assert |b| == |multiset(b)| == 0;
    } else {
      var j := MatchFirst(a, b);
      SumOfPermutation(a[1..], b[..j] + b[j + 1..], k);
      SumOfRemove(b, j, k);
    }
  }

  /** The order the entries come in does not matter: any rearrangement of
      the same entries gives the same totals. */
  lemma DailyTotalsOrderFree(a: seq<Entry>, b: seq<Entry>)
    requires multiset(a) == multiset(b)
    ensures DailyTotals(a) == DailyTotals(b)
  {
    DailyTotalsAreFieldSums(a);
    DailyTotalsAreFieldSums(b);
    forall k ensures DailyTotals(a).Get(k) == DailyTotals(b).Get(k) {
      SumOfPermutation(a, b, k);
    }
    MacrosExt(DailyTotals(a), DailyTotals(b));
  }

  // ---------------------------------------------------------------------
  // Summary chart
  // ---------------------------------------------------------------------

  /** The order of the chart's bars. */
  const ChartOrder: seq<Nutrient> := [Calories, Carbs, Protein, Fat]

  function Label(k: Nutrient): string {
    match k
    case Calories => "Calories"
    case Carbs => "Carbs"
    case Protein => "Protein"
    case Fat => "Fat"
  }

  datatype Chart = Chart(labels: seq<string>, consumed: seq<real>, target: seq<real>)

  /** `drawSummaryChart(sums, targets)`: the labels, the consumed series and
      the target series line up bar by bar, each bar holding one nutrient. */
  function SummaryChart(sums: Macros, targets: Macros): (c: Chart)
    ensures |c.labels| == |c.consumed| == |c.target| == |ChartOrder|
    ensures forall i :: 0 <= i < |ChartOrder| ==>
              c.labels[i] == Label(ChartOrder[i]) &&
              c.consumed[i] == sums.Get(ChartOrder[i]) &&
              c.target[i] == targets.Get(ChartOrder[i])
  {
    Chart(["Calories", "Carbs", "Protein", "Fat"],
          [sums.calories, sums.carbs, sums.protein, sums.fat],
          [targets.calories, targets.carbs, targets.protein, targets.fat])
  }

  /** Every nutrient has exactly one bar, and no two bars share a label. */
  lemma ChartCoversEachNutrientOnce()
    ensures forall k :: k in ChartOrder
    ensures forall i, j :: 0 <= i < j < |ChartOrder| ==> Label(ChartOrder[i]) != Label(ChartOrder[j])
  {
    forall k ensures k in ChartOrder {
      match k
      case Calories => assert ChartOrder[0] == k;
      case Carbs => assert ChartOrder[1] == k;
      case Protein => assert ChartOrder[2] == k;
      case Fat => assert ChartOrder[3] == k;
    }
  }

  /** The chart of a day: bar by bar, the consumed value is the sum of that
      nutrient over the day's entries and the target is the profile's. */
  function DayChart(row: Option<Settings>, entries: seq<Entry>): (c: Chart)
    ensures |c.consumed| == |c.target| == |ChartOrder|
    ensures forall i :: 0 <= i < |ChartOrder| ==>
              c.consumed[i] == SumOf(entries, ChartOrder[i]) &&
              c.target[i] == DailyTargets(row).Get(ChartOrder[i])
  {
    DailyTotalsAreFieldSums(entries);
    SummaryChart(DailyTotals(entries), DailyTargets(row))
  }
}
