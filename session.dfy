/**
 * One "Novo Calculo" from the menu (calcular_insulina): read the glucose, the carbohydrates
 * and the carb ratio, compute the dose and, if the user answers yes, save it to the history.
 * The console answers arrive as parameters, already parsed.
 */
module Session {

  import opened Options
  import opened Dosing
  import opened History

  /** What `float(...)` makes of an answer: empty, unparsable, or a number. */
  datatype NumberInput = Blank | Malformed | Number(value: real)

  /** How a calculation ends. */
  datatype Outcome =
    | Abandoned    // an empty answer: the calculation returns silently
    | NotANumber   // float() raised ValueError and the error message is shown
    | Computed(glucose: real, carbs: real, ratio: Ratio, dose: int)

  /**
   * The dose shown for the answers given. The glucose prompt comes first: when its
   * answer is empty or not a number the carbohydrate answer is never read.
   */
  function Calculate(glucoseIn: NumberInput, carbsIn: NumberInput, ratioIn: Option<int>): (o: Outcome)
    ensures o.Computed? <==> glucoseIn.Number? && carbsIn.Number?
    ensures o.Abandoned? <==> glucoseIn.Blank? || (glucoseIn.Number? && carbsIn.Blank?)
    ensures o.Computed? ==>
      && o.glucose == glucoseIn.value
      && o.carbs == carbsIn.value
      && o.ratio == NormaliseRatio(ratioIn)
      && o.dose == Dose(o.glucose, o.carbs, o.ratio)
  {
    match glucoseIn
    case Blank => Abandoned
    case Malformed => NotANumber
    case Number(glucose) =>
      match carbsIn
      case Blank => Abandoned
      case Malformed => NotANumber
      case Number(carbs) =>
        var ratio := NormaliseRatio(ratioIn);
        Computed(glucose, carbs, ratio, Dose(glucose, carbs, ratio))
  }

  /** The save prompt accepts an answer whose lower-case form is "s". */
  predicate Confirms(answer: string)
  {
    answer == "s" || answer == "S"
  }

  /**
   * calcular_insulina: computes the dose and, only when it was computed and the user
   * confirms, appends it to the history stamped with the current minute. Every other
   * path leaves the history file as it was.
   */
  method CalculateInsulin(h: HistoryFile, now: Time, glucoseIn: NumberInput, carbsIn: NumberInput,
                          ratioIn: Option<int>, answer: string) returns (o: Outcome)
    requires h.Valid()
    modifies h
    ensures h.Valid()
    ensures o == Calculate(glucoseIn, carbsIn, ratioIn)
    ensures o.Computed? && Confirms(answer) ==>
      && h.onDisk
      && h.Records() == old(h.Records()) + [Entry(TruncateToMinute(now), o.glucose, o.carbs, o.ratio, o.dose)]
    ensures !(o.Computed? && Confirms(answer)) ==> h.lines == old(h.lines) && h.onDisk == old(h.onDisk)
  {
    o := Calculate(glucoseIn, carbsIn, ratioIn);
    if o.Computed? && Confirms(answer) {
      h.Append(now, o.glucose, o.carbs, o.ratio, o.dose);
    }
  }

}
