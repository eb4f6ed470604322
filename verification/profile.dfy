/** The profile page's calculator (src/profile.js): re-balancing the macro
    split after one percentage is edited, and turning a calorie target and a
    split into whole gram targets. */
module Profile {
  import opened Wrappers
  import opened Numeric
  import opened Nutrients

  /** The three percentage fields of the form, as numbers. */
  datatype Split = Split(protein: real, carbs: real, fat: real) {

    function Get(k: Nutrient): real
      requires k.IsMacro()
    {
      match k
      case Protein => protein
      case Carbs => carbs
      case Fat => fat
    }

    function Total(): real {
      protein + carbs + fat
    }
  }

  /** The split shown when the user has no stored profile. */
  const DefaultSplit := Split(30.0, 50.0, 20.0)

  // ---------------------------------------------------------------------
  // Re-balancing after an edit
  // ---------------------------------------------------------------------

  /** The two fields the code adds up as "the other two" for an edit of
      `changed`. For a fat edit both of them are protein. */
  function FirstOther(changed: Nutrient): Nutrient {
    if changed == Protein then Carbs else Protein
  }

  function SecondOther(changed: Nutrient): Nutrient {
    if changed == Fat then Protein else Fat
  }

  /** The sum of the other two fields as the code computes it. */
  function SumOthers(s: Split, changed: Nutrient): (t: real)
    requires changed.IsMacro()
    ensures changed != Fat ==> t == s.Total() - s.Get(changed)
    ensures changed == Fat ==> t == 2.0 * s.protein
  {
    s.Get(FirstOther(changed)) + s.Get(SecondOther(changed))
  }

  /** The true sum of the two fields that were not edited. */
  function OthersTotal(s: Split, changed: Nutrient): real
    requires changed.IsMacro()
  {
    s.Total() - s.Get(changed)
  }

  /** The new value of a field that was not edited, given its old value `v`,
      the edited value and the computed sum of the others: half of what it
      misses to 100 when that sum is zero, else the value scaled by
      `(100 - edited) / sum` and rounded with `Math.round`. */
  function Rebalanced(v: real, edited: real, sum: real): real {
    if sum == 0.0 then (100.0 - v) / 2.0
    else Round(Scaled(v, edited, sum)) as real
  }

  /** `vals[k] * factor` with `factor = (100 - edited) / sum`. */
  function Scaled(v: real, edited: real, sum: real): real
    requires sum != 0.0
  {
    v * ((100.0 - edited) / sum)
  }

  /** Re-balancing driven by a given "sum of the others": the edited field
      is kept and the other two are rewritten by `Rebalanced`. */
  function RebalanceWith(s: Split, changed: Nutrient, sum: real): (r: Split)
    requires changed.IsMacro()
    ensures r.Get(changed) == s.Get(changed)
    ensures forall k: Nutrient | k.IsMacro() && k != changed :: r.Get(k) == Rebalanced(s.Get(k), s.Get(changed), sum)
  {
    var e := s.Get(changed);
    Split(if changed == Protein then s.protein else Rebalanced(s.protein, e, sum),
          if changed == Carbs then s.carbs else Rebalanced(s.carbs, e, sum),
          if changed == Fat then s.fat else Rebalanced(s.fat, e, sum))
  }

  /** `normalize(changed)`: `s` already holds the edited value in field
      `changed`. The edited field is never touched. When the computed sum of
      the others is zero, each other field becomes half of what its own
      value misses to 100. Otherwise each other field becomes the whole
      number nearest to its value scaled by `(100 - edited) / sum`, so a
      field that was 0 stays 0. */
  function Normalize(s: Split, changed: Nutrient): (r: Split)
    requires changed.IsMacro()
    ensures r.Get(changed) == s.Get(changed)
    ensures SumOthers(s, changed) == 0.0 ==>
              forall k: Nutrient | k.IsMacro() && k != changed :: r.Get(k) == (100.0 - s.Get(k)) / 2.0
    ensures SumOthers(s, changed) != 0.0 ==>
              forall k: Nutrient | k.IsMacro() && k != changed :: IsWhole(r.Get(k))
    ensures SumOthers(s, changed) != 0.0 ==>
              forall k: Nutrient | k.IsMacro() && k != changed ::
                IsRoundOf(r.Get(k).Floor, Scaled(s.Get(k), s.Get(changed), SumOthers(s, changed)))
    ensures SumOthers(s, changed) != 0.0 ==>
              forall k: Nutrient | k.IsMacro() && k != changed && s.Get(k) == 0.0 :: r.Get(k) == 0.0
  {
    RebalanceWith(s, changed, SumOthers(s, changed))
  }

  /** The re-balancing the code evidently intends ("so sum = 100"): the other
      two fields are scaled by their own sum, for a fat edit as for the
      others, and when they sum to zero they share what the edited field
      leaves of 100 equally. */
  function NormalizeIntended(s: Split, changed: Nutrient): (r: Split)
    requires changed.IsMacro()
    ensures r.Get(changed) == s.Get(changed)
    ensures OthersTotal(s, changed) == 0.0 ==>
              forall k: Nutrient | k.IsMacro() && k != changed :: r.Get(k) == (100.0 - s.Get(changed)) / 2.0
    ensures changed != Fat && OthersTotal(s, changed) != 0.0 ==> r == Normalize(s, changed)
  {
    var t := OthersTotal(s, changed);
    if t == 0.0 then
      var h := (100.0 - s.Get(changed)) / 2.0;
      Split(if changed == Protein then s.protein else h,
            if changed == Carbs then s.carbs else h,
            if changed == Fat then s.fat else h)
    else
      RebalanceWith(s, changed, t)
  }

  /** Two fields scaled by `(100 - edited) / (their sum)` and rounded add up,
      with the edited value, to within one of 100: each rounding moves its
      field by at most one half. */
  lemma TwoRoundedNearHundred(a: real, b: real, e: real)
    requires a + b != 0.0
    ensures 99.0 < e + Rebalanced(a, e, a + b) + Rebalanced(b, e, a + b) <= 101.0
  {
    var f := (100.0 - e) / (a + b);
    assert (a + b) * f == 100.0 - e;
    assert a * f + b * f == 100.0 - e;
    assert IsRoundOf(Round(a * f), a * f);
    assert IsRoundOf(Round(b * f), b * f);
  }

  /** Scaling the other two fields by their true sum lands the total within
      one of 100. */
  lemma RescaledNearHundred(s: Split, changed: Nutrient)
    requires changed.IsMacro()
    requires OthersTotal(s, changed) != 0.0
    ensures 99.0 < RebalanceWith(s, changed, OthersTotal(s, changed)).Total() <= 101.0
  {
    match changed
    case Protein => TwoRoundedNearHundred(s.carbs, s.fat, s.protein);
    case Carbs => TwoRoundedNearHundred(s.protein, s.fat, s.carbs);
    case Fat => TwoRoundedNearHundred(s.protein, s.carbs, s.fat);
  }

  /** After a protein or carbs edit, when the other two do not sum to zero,
      the three percentages add up to 100 give or take one. */
  lemma NormalizeNearHundred(s: Split, changed: Nutrient)
    requires changed == Protein || changed == Carbs
    requires SumOthers(s, changed) != 0.0
    ensures 99.0 < Normalize(s, changed).Total() <= 101.0
  {
    RescaledNearHundred(s, changed);
  }

  /** The corrected re-balancing keeps the total within one of 100 for every
      edited field, and at exactly 100 when the other two sum to zero. */
  lemma NormalizeIntendedNearHundred(s: Split, changed: Nutrient)
    requires changed.IsMacro()
    ensures OthersTotal(s, changed) != 0.0 ==> 99.0 < NormalizeIntended(s, changed).Total() <= 101.0
    ensures OthersTotal(s, changed) == 0.0 ==> NormalizeIntended(s, changed).Total() == 100.0
  {
    if OthersTotal(s, changed) != 0.0 {
      RescaledNearHundred(s, changed);
    }
  }

  /** A fat edit divides by twice the protein value: protein becomes half of
      what fat leaves of 100, rounded, whatever carbs held, and the total is
      near 100 only when carbs equalled protein. */
  lemma FatEditUsesProteinTwice(s: Split)
    requires s.protein != 0.0
    ensures Normalize(s, Fat).protein == Round((100.0 - s.fat) / 2.0) as real
    ensures s.carbs == s.protein ==> 99.0 < Normalize(s, Fat).Total() <= 101.0
  {
    var h := (100.0 - s.fat) / 2.0;
    assert SumOthers(s, Fat) == 2.0 * s.protein;
    RebalancedByTwice(s.protein, s.fat);
    if s.carbs == s.protein {
      assert IsRoundOf(Round(h), h);
    }
  }

  /** Scaling `p` by `(100 - fat) / (2 p)` leaves half of what fat misses to 100. */
  lemma RebalancedByTwice(p: real, fat: real)
    requires p != 0.0
    ensures Rebalanced(p, fat, 2.0 * p) == Round((100.0 - fat) / 2.0) as real
  {
  }

  /** The split {protein 10, carbs 80} with fat edited to 30: protein is
      scaled by 70/20 instead of 70/90, and the split sums to 345. */
  lemma FatEditCounterexample()
    ensures Normalize(Split(10.0, 80.0, 30.0), Fat) == Split(35.0, 280.0, 30.0)
    ensures Normalize(Split(10.0, 80.0, 30.0), Fat).Total() == 345.0
    ensures NormalizeIntended(Split(10.0, 80.0, 30.0), Fat) == Split(8.0, 62.0, 30.0)
  {
    var s := Split(10.0, 80.0, 30.0);
    assert SumOthers(s, Fat) == 20.0;
    assert 10.0 * (70.0 / 20.0) == 35.0;
    assert 80.0 * (70.0 / 20.0) == 280.0;
    assert Round(35.0) == 35;
    assert Round(280.0) == 280;
    assert OthersTotal(s, Fat) == 90.0;
    assert 10.0 * (70.0 / 90.0) == 70.0 / 9.0;
    assert 80.0 * (70.0 / 90.0) == 560.0 / 9.0;
    RoundUnique(8, 70.0 / 9.0);
    RoundUnique(62, 560.0 / 9.0);
  }

  /** In the scaling branch, non-negative percentages with an edited value of
      at most 100 give non-negative percentages. */
  lemma NormalizeKeepsNonNegative(s: Split, changed: Nutrient)
    requires changed.IsMacro()
    requires s.protein >= 0.0 && s.carbs >= 0.0 && s.fat >= 0.0
    requires s.Get(changed) <= 100.0
    requires SumOthers(s, changed) != 0.0
    ensures Normalize(s, changed).protein >= 0.0
    ensures Normalize(s, changed).carbs >= 0.0
    ensures Normalize(s, changed).fat >= 0.0
  {
    var sum := SumOthers(s, changed);
    var e := s.Get(changed);
    RebalancedNonNegative(s.protein, e, sum);
    RebalancedNonNegative(s.carbs, e, sum);
    RebalancedNonNegative(s.fat, e, sum);
  }

  lemma RebalancedNonNegative(v: real, e: real, sum: real)
    requires v >= 0.0 && e <= 100.0 && sum > 0.0
    ensures Rebalanced(v, e, sum) >= 0.0
  {
    var f := (100.0 - e) / sum;
    assert f >= 0.0;
    assert v * f >= 0.0;
    assert IsRoundOf(Round(v * f), v * f);
  }

  /** When the computed sum of the others is zero: after a protein or carbs
      edit with non-negative fields both others were 0 and become 50, so the
      total is the edited value plus 100; after a fat edit protein was 0 and
      becomes 50 while carbs becomes half of what it misses to 100. */
  lemma ZeroSumHalves(s: Split, changed: Nutrient)
    requires changed.IsMacro()
    requires s.protein >= 0.0 && s.carbs >= 0.0 && s.fat >= 0.0
    requires SumOthers(s, changed) == 0.0
    ensures changed != Fat ==>
              forall k: Nutrient | k.IsMacro() && k != changed :: Normalize(s, changed).Get(k) == 50.0
    ensures changed != Fat ==> Normalize(s, changed).Total() == s.Get(changed) + 100.0
    ensures changed == Fat ==>
              Normalize(s, changed).protein == 50.0 && Normalize(s, changed).carbs == (100.0 - s.carbs) / 2.0
  {
  }

  /** Editing protein from 30 to 50 in the default split: the others are
      scaled by 50/70 and become 36 and 14. */
  lemma ProteinEditExample()
    ensures Normalize(Split(50.0, 50.0, 20.0), Protein) == Split(50.0, 36.0, 14.0)
  {
  }

  /** Protein set to 40 with carbs 0 and fat 100: the others sum to 100, so
      fat is scaled by 60/100 and carbs stays 0. */
  lemma ProteinEditZeroCarbsExample()
    ensures Normalize(Split(40.0, 0.0, 100.0), Protein) == Split(40.0, 0.0, 60.0)
  {
  }

  // ---------------------------------------------------------------------
  // Gram targets
  // ---------------------------------------------------------------------

  datatype Grams = Grams(protein: int, carbs: int, fat: int) {
    function Get(k: Nutrient): int
      requires k.IsMacro()
    {
      match k
      case Protein => protein
      case Carbs => carbs
      case Fat => fat
    }
  }

  /** One gram figure of `computeGrams()`, rounded with `Math.round`. */
  function MacroGrams(form: Settings, k: Nutrient): (n: int)
    requires k.IsMacro()
  {
    Round(GramsOf(k, form.Pct(k).Or(0.0), form.calorieTarget.Or(0.0)))
  }

  /** `computeGrams()`: every form value goes through `|| 0`, and each gram
      figure is the whole number nearest to the grams of that macro which
      carry its percentage of the calories. */
  function ComputeGrams(form: Settings): (g: Grams)
    ensures forall k: Nutrient | k.IsMacro() ::
              IsRoundOf(g.Get(k), GramsOf(k, form.Pct(k).Or(0.0), form.calorieTarget.Or(0.0)))
  {
    Grams(MacroGrams(form, Protein), MacroGrams(form, Carbs), MacroGrams(form, Fat))
  }

  /** Each gram figure depends only on the calories and its own percentage. */
  lemma GramsUseOwnPercentOnly(a: Settings, b: Settings, k: Nutrient)
    requires k.IsMacro()
    requires a.calorieTarget.Or(0.0) == b.calorieTarget.Or(0.0)
    requires a.Pct(k).Or(0.0) == b.Pct(k).Or(0.0)
    ensures ComputeGrams(a).Get(k) == ComputeGrams(b).Get(k)
  {
  }

  /** A falsy calorie target gives zero grams everywhere; a falsy percentage
      gives zero grams of that macro; non-negative inputs give non-negative
      grams. */
  lemma GramsZeroAndSign(form: Settings, k: Nutrient)
    requires k.IsMacro()
    ensures form.calorieTarget.Falsy() ==> ComputeGrams(form).Get(k) == 0
    ensures form.Pct(k).Falsy() ==> ComputeGrams(form).Get(k) == 0
    ensures form.calorieTarget.Or(0.0) >= 0.0 && form.Pct(k).Or(0.0) >= 0.0 ==>
              ComputeGrams(form).Get(k) >= 0
  {
  }

  /** The form as the page loads it: a stored row fills every field; without
      one the three percentages take the default split and the calorie field
      keeps what it held. */
  function LoadForm(row: Option<Settings>, blank: Settings): (f: Settings)
    ensures row.Some? ==> f == row.value
    ensures row.None? ==> f.calorieTarget == blank.calorieTarget
    ensures row.None? ==> forall k: Nutrient | k.IsMacro() :: f.Pct(k) == Finite(DefaultSplit.Get(k))
  {
    match row
    case Some(p) => p
    case None => Settings(blank.calorieTarget, Finite(DefaultSplit.protein),
                          Finite(DefaultSplit.carbs), Finite(DefaultSplit.fat))
  }

  /** A user without a stored profile sees the default split, which sums to
      100. No calorie target shows 0 g everywhere, and 2000 kcal shows
      150 g protein, 250 g carbs and 44 g fat. */
  lemma LoadFormDefaults(blank: Settings)
    ensures var f := LoadForm(None, blank);
            f.protein.Or(0.0) + f.carbs.Or(0.0) + f.fat.Or(0.0) == 100.0
    ensures blank.calorieTarget.Falsy() ==> ComputeGrams(LoadForm(None, blank)) == Grams(0, 0, 0)
    ensures blank.calorieTarget.Or(0.0) == 2000.0 ==> ComputeGrams(LoadForm(None, blank)) == Grams(150, 250, 44)
  {
    var f := LoadForm(None, blank);
    var kcal := blank.calorieTarget.Or(0.0);
    if blank.calorieTarget.Falsy() {
      RoundUnique(0, 0.0);
    }
    if kcal == 2000.0 {
      assert GramsOf(Protein, 30.0, kcal) == 150.0;
      assert GramsOf(Carbs, 50.0, kcal) == 250.0;
      assert GramsOf(Fat, 20.0, kcal) == 400.0 / 9.0;
      RoundUnique(150, 150.0);
      RoundUnique(250, 250.0);
      RoundUnique(44, 400.0 / 9.0);
    }
  }
}
