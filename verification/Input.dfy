/** Operator input declarations and their constraints (src/lumencast/server/input.py). */
module Inputs {
  import opened Wrappers
  import opened JsonValues

  datatype InputSpec = InputSpec(
    path: string,
    kind: string,
    maxLength: Option<int>,
    minValue: Option<real>,
    maxValue: Option<real>,
    values: seq<string>)

  datatype Violation = WrongType | TooLong | BelowMin | AboveMax | NotInDomain

  /** None when the value passes, otherwise what is wrong with it. */
  function CheckConstraint(spec: InputSpec, value: Json): Option<Violation> {
    if spec.kind == "string" then
      if !value.JStr? then Some(WrongType)
      else if spec.maxLength.Some? && |value.s| > spec.maxLength.value then Some(TooLong)
      else None
    else if spec.kind == "number" then
      if !value.JNum? then Some(WrongType)
      else if spec.minValue.Some? && value.n < spec.minValue.value then Some(BelowMin)
      else if spec.maxValue.Some? && value.n > spec.maxValue.value then Some(AboveMax)
      else None
    else if spec.kind == "boolean" then
      if value.JBool? then None else Some(WrongType)
    else if spec.kind == "enum" then
      if !value.JStr? then Some(WrongType)
      else if value.s !in spec.values then Some(NotInDomain)
      else None
    else None
  }

  /** Which values a declaration lets through, kind by kind; other kinds let everything through. */
  lemma {:induction false} ConstraintExact(spec: InputSpec, value: Json)
    ensures var ok := CheckConstraint(spec, value).None?;
      && (spec.kind == "string" ==>
            (ok <==> value.JStr? && (spec.maxLength.Some? ==> |value.s| <= spec.maxLength.value)))
      && (spec.kind == "number" ==>
            (ok <==> value.JNum? && (spec.minValue.Some? ==> spec.minValue.value <= value.n)
                     && (spec.maxValue.Some? ==> value.n <= spec.maxValue.value)))
      && (spec.kind == "boolean" ==> (ok <==> value == JBool(true) || value == JBool(false)))
      && (spec.kind == "enum" ==> (ok <==> exists v :: v in spec.values && value == JStr(v)))
      && (spec.kind !in {"string", "number", "boolean", "enum"} ==> ok)
  {
  }

  /** What a refusal says is true of the value. */
  lemma {:induction false} ViolationExact(spec: InputSpec, value: Json)
    requires CheckConstraint(spec, value).Some?
    ensures match CheckConstraint(spec, value).value
      case WrongType =>
        || (spec.kind in {"string", "enum"} && !value.JStr?)
        || (spec.kind == "number" && !value.JNum?)
        || (spec.kind == "boolean" && !value.JBool?)
      case TooLong => spec.kind == "string" && value.JStr? && spec.maxLength.Some? && |value.s| > spec.maxLength.value
      case BelowMin => spec.kind == "number" && value.JNum? && spec.minValue.Some? && value.n < spec.minValue.value
      case AboveMax =>
        && spec.kind == "number" && value.JNum? && spec.maxValue.Some? && value.n > spec.maxValue.value
        && (spec.minValue.Some? ==> value.n >= spec.minValue.value)
      case NotInDomain => spec.kind == "enum" && value.JStr? && value.s !in spec.values
  {
  }
}
