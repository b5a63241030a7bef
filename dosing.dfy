/**
 * The bolus rule of the calculator: the carb ratio (ICR) chosen at the prompt is
 * normalised to one of the three offered values, a correction term covers glucose
 * above target, a meal term covers the carbohydrates, and their sum is rounded to
 * a whole pen unit with Python 3's round-half-to-even.
 *
 * Numbers are exact reals; the floating-point round-off of the Python calculator is not modelled.
 */
module Dosing {

  import opened Options

  /** mg/dL of glucose lowered by one unit of insulin (FATOR_SENSIBILIDADE). */
  const SENSITIVITY_FACTOR: real := 40.0

  /** Target glucose in mg/dL (ALVO_GLICEMIA). */
  const TARGET_GLUCOSE: real := 100.0

  /** The ratio used when the user's choice is unparsable or not offered. */
  const DEFAULT_RATIO: int := 10

  /** The carb ratios, in grams per unit, that the prompt offers: [8, 10, 15]. */
  predicate IsOffered(k: int)
  {
    k == 8 || k == 10 || k == 15
  }

  /** A carb ratio after normalisation; in particular never zero. */
  type Ratio = k: int | IsOffered(k) witness DEFAULT_RATIO

  /**
   * The ratio the calculator uses, given what `int(...)` made of the typed text
   * (None when it raised): an offered choice is kept, anything else becomes 10.
   */
  function NormaliseRatio(parsed: Option<int>): (k: Ratio)
    ensures parsed.Some? && IsOffered(parsed.value) ==> k == parsed.value
    ensures parsed.None? || !IsOffered(parsed.value) ==> k == DEFAULT_RATIO
  {
    match parsed
    case Some(n) => if IsOffered(n) then n else DEFAULT_RATIO
    case None => DEFAULT_RATIO
  }

  /** Normalising an already normalised ratio changes nothing. */
  lemma NormaliseRatioIdempotent(parsed: Option<int>)
    ensures NormaliseRatio(Some(NormaliseRatio(parsed))) == NormaliseRatio(parsed)
  {
  }

  function Max(a: real, b: real): real
  {
    if a >= b then a else b
  }

  /**
   * Insulin units that bring the glucose reading back to target; a reading at or
   * below target is never corrected downwards.
   */
  function Correction(glucose: real): (c: real)
    ensures c >= 0.0
    ensures glucose <= TARGET_GLUCOSE ==> c == 0.0
    ensures glucose >= TARGET_GLUCOSE ==> c * SENSITIVITY_FACTOR == glucose - TARGET_GLUCOSE
  {
    Max(0.0, (glucose - TARGET_GLUCOSE) / SENSITIVITY_FACTOR)
  }

  /** Insulin units that cover the meal's carbohydrates at the given ratio. */
  function Meal(carbs: real, ratio: Ratio): (m: real)
    ensures m * ratio as real == carbs
    ensures carbs >= 0.0 ==> m >= 0.0
  {
    assert IsOffered(ratio);
    carbs / ratio as real
  }

  lemma MealMonotone(c1: real, c2: real, ratio: Ratio)
    requires c1 <= c2
    ensures Meal(c1, ratio) <= Meal(c2, ratio)
  {
    assert IsOffered(ratio);
  }

  /** The unrounded dose: correction plus meal. */
  function RawUnits(glucose: real, carbs: real, ratio: Ratio): real
  {
    Correction(glucose) + Meal(carbs, ratio)
  }

  /**
   * Python 3 `round(x)`: the nearest integer, and on an exact half the even one.
   */
  function RoundHalfEven(x: real): (n: int)
    ensures x - 0.5 <= n as real <= x + 0.5
    ensures (n as real == x - 0.5 || n as real == x + 0.5) ==> n % 2 == 0
  {
    var f := x.Floor;
    var frac := x - f as real;
    if frac < 0.5 then f
    else if frac > 0.5 then f + 1
    else if f % 2 == 0 then f
    else f + 1
  }

  /** The two properties in RoundHalfEven's contract single out its result. */
  lemma RoundHalfEvenUnique(x: real, n: int)
    requires x - 0.5 <= n as real <= x + 0.5
    requires (n as real == x - 0.5 || n as real == x + 0.5) ==> n % 2 == 0
    ensures n == RoundHalfEven(x)
  {
  }

  /** No integer is closer to x than the rounded value. */
  lemma RoundHalfEvenNearest(x: real, k: int)
    ensures Abs(RoundHalfEven(x) as real - x) <= Abs(k as real - x)
  {
    var r := RoundHalfEven(x);
    if k < r {
      assert k as real <= r as real - 1.0;
    } else if k > r {
      assert k as real >= r as real + 1.0;
    }
  }

  function Abs(a: real): real
  {
    if a >= 0.0 then a else -a
  }

  /** Rounding never reverses the order of two amounts. */
  lemma RoundHalfEvenMonotone(x: real, y: real)
    requires x <= y
    ensures RoundHalfEven(x) <= RoundHalfEven(y)
  {
  }

  /** The dose in whole pen units for a glucose reading, the carbohydrates and a ratio. */
  function Dose(glucose: real, carbs: real, ratio: Ratio): (d: int)
    ensures RawUnits(glucose, carbs, ratio) - 0.5 <= d as real <= RawUnits(glucose, carbs, ratio) + 0.5
    ensures (d as real == RawUnits(glucose, carbs, ratio) - 0.5 || d as real == RawUnits(glucose, carbs, ratio) + 0.5)
      ==> d % 2 == 0
  {
    RoundHalfEven(RawUnits(glucose, carbs, ratio))
  }

  /** At or below target only the meal counts: the dose is round(carbs / ratio). */
  lemma DoseAtOrBelowTarget(glucose: real, carbs: real, ratio: Ratio)
    requires glucose <= TARGET_GLUCOSE
    ensures Dose(glucose, carbs, ratio) == RoundHalfEven(Meal(carbs, ratio))
  {
  }

  /** With no negative carbohydrates the dose is never negative. */
  lemma DoseNonNegative(glucose: real, carbs: real, ratio: Ratio)
    requires carbs >= 0.0
    ensures Dose(glucose, carbs, ratio) >= 0
  {
  }

  /** A higher reading never asks for less insulin. */
  lemma DoseMonotoneInGlucose(g1: real, g2: real, carbs: real, ratio: Ratio)
    requires g1 <= g2
    ensures Dose(g1, carbs, ratio) <= Dose(g2, carbs, ratio)
  {
  }

  /** A larger meal never asks for less insulin. */
  lemma DoseMonotoneInCarbs(glucose: real, c1: real, c2: real, ratio: Ratio)
    requires c1 <= c2
    ensures Dose(glucose, c1, ratio) <= Dose(glucose, c2, ratio)
  {
    MealMonotone(c1, c2, ratio);
    RoundHalfEvenMonotone(RawUnits(glucose, c1, ratio), RawUnits(glucose, c2, ratio));
  }

  /** Worked cases: on target, one correction unit plus five meal units, and two ties. */
  lemma DoseExamples()
    ensures Dose(100.0, 0.0, 10) == 0
    ensures Dose(140.0, 50.0, 10) == 6
    ensures Dose(100.0, 25.0, 10) == 2
    ensures Dose(100.0, 35.0, 10) == 4
  {
  }

}
