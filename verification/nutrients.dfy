/** The quantities the three pages share: the four tracked nutrients, a record
    holding one value per nutrient, the stored profile row and the energy
    densities that turn a calorie share into grams. */
module Nutrients {
  import opened Numeric

  datatype Nutrient = Calories | Protein | Carbs | Fat {
    /** Protein, carbs and fat are macros; calories are the energy total. */
    predicate IsMacro() {
      !Calories?
    }
  }

  /** One value per nutrient. Food entries, the day's sums, the day's
      targets and a scanned food's nutrition all have this shape; for targets
      the `calories` field is the profile's `calorie_target`. */
  datatype Macros = Macros(calories: real, protein: real, carbs: real, fat: real) {

    function Get(k: Nutrient): real {
      match k
      case Calories => calories
      case Protein => protein
      case Carbs => carbs
      case Fat => fat
    }

    /** Field-wise sum: each nutrient is added to its own kind only. */
    function Plus(o: Macros): (r: Macros)
      ensures forall k :: r.Get(k) == Get(k) + o.Get(k)
    {
      Macros(calories + o.calories, protein + o.protein, carbs + o.carbs, fat + o.fat)
    }
  }

  const Zero := Macros(0.0, 0.0, 0.0, 0.0)

  /** The four numbers a user sets: a daily calorie target and the protein,
      carbs and fat percentages. A row of the `profiles` table and the
      profile form both hold them; any of them may be missing or zero. */
  datatype Settings = Settings(calorieTarget: Num, protein: Num, carbs: Num, fat: Num) {
    /** The percentage stored for a macro, as read from the row. */
    function Pct(k: Nutrient): Num
      requires k.IsMacro()
    {
      match k
      case Protein => protein
      case Carbs => carbs
      case Fat => fat
    }
  }

  /** Energy density: 4 kcal per gram of protein or carbs, 9 per gram of fat. */
  function KcalPerGram(k: Nutrient): (d: real)
    requires k.IsMacro()
    ensures d > 0.0
  {
    if k == Fat then 9.0 else 4.0
  }

  /** Grams of a macro that carry `pct` percent of `kcal` kilocalories,
      computed as `(pct / 100) * kcal / density`. */
  function GramsOf(k: Nutrient, pct: real, kcal: real): (g: real)
    requires k.IsMacro()
    ensures g * KcalPerGram(k) * 100.0 == pct * kcal
    ensures pct >= 0.0 && kcal >= 0.0 ==> g >= 0.0
    ensures pct == 0.0 || kcal == 0.0 ==> g == 0.0
  {
    (pct / 100.0) * kcal / KcalPerGram(k)
  }
}
