/** The `NumberField` class: its catalogue and builders. `between`,
    `not_between` and `is_power_of` run their catalogue validator on literal
    arguments. */
module NumberField {
  import opened Wrappers
  import opened Types
  import opened Js
  import opened Operators
  import Argument
  import Assoc

  const Keys: seq<string> := [
    "any", "equals", "does_not_equal", "greater_than", "less_than", "greater_than_or_equal",
    "less_than_or_equal", "between", "not_between", "is_even", "is_odd", "is_positive",
    "is_negative", "is_zero", "is_not_zero", "is_multiple_of", "is_not_multiple_of", "is_power_of"]

  function RangeArgs(startDescription: string, endDescription: string): seq<OperatorArg> {
    [OperatorArg("start", "number", startDescription, Some("Start"), None),
     OperatorArg("end", "number", endDescription, Some("End"), None)]
  }

  /** Every number operator but `any` and the three that carry a validator. */
  function Plain(key: string): Option<Descriptor> {
    if key == "equals" then
      Some(Undescribed("equals", [Arg("value", "number", "Number that value must equal")]))
    else if key == "does_not_equal" then
      Some(Undescribed("does not equal", [Arg("value", "number", "Number that value must not equal")]))
    else if key == "greater_than" then
      Some(Undescribed("greater than", [Arg("bound", "number", "Number that value must be greater than")]))
    else if key == "less_than" then
      Some(Undescribed("less than", [Arg("bound", "number", "Number that value must be less than")]))
    else if key == "greater_than_or_equal" then
      Some(Undescribed("greater than or equal to", [Arg("bound", "number", "Number that value must be greater than or equal to")]))
    else if key == "less_than_or_equal" then
      Some(Undescribed("less than or equal to", [Arg("bound", "number", "Number that value must be less than or equal to")]))
    else if key == "is_even" then Some(Described("is even", "Check if value is even"))
    else if key == "is_odd" then Some(Described("is odd", "Check if value is odd"))
    else if key == "is_positive" then Some(Described("is positive", "Check if value is greater than zero"))
    else if key == "is_negative" then Some(Described("is negative", "Check if value is less than zero"))
    else if key == "is_zero" then Some(Described("is zero", "Check if value equals zero"))
    else if key == "is_not_zero" then Some(Described("is not zero", "Check if value does not equal zero"))
    else if key == "is_multiple_of" then
      Some(Undescribed("is a multiple of", [Arg("multiple", "number", "Number that value must be a multiple of")]))
    else if key == "is_not_multiple_of" then
      Some(Undescribed("is not a multiple of", [Arg("multiple", "number", "Number that value must not be a multiple of")]))
    else None
  }

  function Def(key: string): Option<OperatorDef> {
    if key == "any" then Some(AnyOperator("Match any numeric value"))
    else if key == "between" then
      Some(OperatorDef("between",
        RangeArgs("Number that value must be greater than or equal to", "Number that value must be less than or equal to"),
        None, Some(StartBeforeEnd), None))
    else if key == "not_between" then
      Some(OperatorDef("not between",
        RangeArgs("Number that value must be less than", "Number that value must be greater than"),
        None, Some(StartBeforeEnd), None))
    else if key == "is_power_of" then
      Some(OperatorDef("is a power of", [Arg("base", "number", "The base number")], None, Some(PositiveBase), None))
    else
      match Plain(key)
      case Some(d) => Some(PlainOperator(d))
      case None => None
  }

  function OpName(key: string): string {
    match Def(key)
    case Some(d) => d.name
    case None => ""
  }

  function Catalogue(): Catalogue {
    BuildCatalogue(Keys, Def)
  }

  /** `new NumberField(name, description, defaultValue)`. */
  function New(name: string, description: string, defaultValue: int): (f: Field)
    ensures f.fieldType == RuleType.NUMBER && f.defaultValue == Num(defaultValue)
    ensures f.name == name && f.description == description && f.operators == Catalogue()
  {
    Field(name, description, Num(defaultValue), Catalogue(), RuleType.NUMBER)
  }

  /** What a one-number builder promises: it succeeds exactly when the
      argument is a number literal or a NUMBER dynamic value, and then emits
      the catalogue's name for `key` with the one rendered argument. */
  predicate OneNumber(key: string, v: Value, r: Result<OperatorResult, Error>) {
    && (r.Success? <==> Argument.Admits(DynamicValueType.NUMBER, v))
    && (r.Success? ==> r.value == (OpName(key), [Argument.ToDict(Argument.Argument(v, DynamicValueType.NUMBER))]))
    && (r.Success? ==> Matches(Def(key), r.value))
    && (r.Failure? ==> r.error.kind == TypeMismatchError)
  }

  function Equals(v: Value): (r: Result<OperatorResult, Error>)
    ensures OneNumber("equals", v, r)
  {
    Unary("equals", v, DynamicValueType.NUMBER)
  }

  function NotEquals(v: Value): (r: Result<OperatorResult, Error>)
    ensures OneNumber("does_not_equal", v, r)
  {
    Unary("does not equal", v, DynamicValueType.NUMBER)
  }

  function GreaterThan(v: Value): (r: Result<OperatorResult, Error>)
    ensures OneNumber("greater_than", v, r)
  {
    Unary("greater than", v, DynamicValueType.NUMBER)
  }

  function LessThan(v: Value): (r: Result<OperatorResult, Error>)
    ensures OneNumber("less_than", v, r)
  {
    Unary("less than", v, DynamicValueType.NUMBER)
  }

  function GreaterThanOrEqual(v: Value): (r: Result<OperatorResult, Error>)
    ensures OneNumber("greater_than_or_equal", v, r)
  {
    Unary("greater than or equal to", v, DynamicValueType.NUMBER)
  }

  function LessThanOrEqual(v: Value): (r: Result<OperatorResult, Error>)
    ensures OneNumber("less_than_or_equal", v, r)
  {
    Unary("less than or equal to", v, DynamicValueType.NUMBER)
  }

  function IsMultipleOf(v: Value): (r: Result<OperatorResult, Error>)
    ensures OneNumber("is_multiple_of", v, r)
  {
    Unary("is a multiple of", v, DynamicValueType.NUMBER)
  }

  function IsNotMultipleOf(v: Value): (r: Result<OperatorResult, Error>)
    ensures OneNumber("is_not_multiple_of", v, r)
  {
    Unary("is not a multiple of", v, DynamicValueType.NUMBER)
  }

  /** Both bounds numeric, and, when both are literals, start below end. */
  predicate ValidRange(start: Value, end: Value) {
    && Argument.Admits(DynamicValueType.NUMBER, start)
    && Argument.Admits(DynamicValueType.NUMBER, end)
    && (start.Dyn? || end.Dyn? || end.n > start.n)
  }

  function RangeMessage(shown: string, start: Value, end: Value): string {
    "Invalid range for " + shown + ": start (" + ToJsString(start) + ") must be less than end (" + ToJsString(end) + ")"
  }

  /** `between` and `not_between`: both bounds are type-checked first (start,
      then end); then, only if neither is dynamic, the catalogue's range check. */
  function Range(key: string, shown: string, start: Value, end: Value): (r: Result<OperatorResult, Error>)
    requires Def(key).Some? && Def(key).value.validate == Some(StartBeforeEnd)
    ensures r.Success? <==> ValidRange(start, end)
    ensures r.Success? ==> r.value == (shown, [Argument.ToDict(Argument.Argument(start, DynamicValueType.NUMBER)),
                                              Argument.ToDict(Argument.Argument(end, DynamicValueType.NUMBER))])
    ensures r.Failure? && Argument.Admits(DynamicValueType.NUMBER, start) && Argument.Admits(DynamicValueType.NUMBER, end)
            ==> r.error == Error(PlainError, RangeMessage(shown, start, end))
    ensures r.Failure? && !(Argument.Admits(DynamicValueType.NUMBER, start) && Argument.Admits(DynamicValueType.NUMBER, end))
            ==> r.error.kind == TypeMismatchError
  {
    var checked :- Binary(shown, start, DynamicValueType.NUMBER, end, DynamicValueType.NUMBER);
    if !start.Dyn? && !end.Dyn? && !PassesCheck(Def(key).value, [start, end]) then
      Failure(Error(PlainError, RangeMessage(shown, start, end)))
    else Success(checked)
  }

  function Between(start: Value, end: Value): (r: Result<OperatorResult, Error>)
    ensures r.Success? <==> ValidRange(start, end)
    ensures r.Success? ==> Matches(Def("between"), r.value)
    ensures r.Success? ==> r.value.0 == OpName("between") && |r.value.1| == 2
    ensures r.Success? ==> r.value.1[0] == Argument.ToDict(Argument.Argument(start, DynamicValueType.NUMBER))
    ensures r.Success? ==> r.value.1[1] == Argument.ToDict(Argument.Argument(end, DynamicValueType.NUMBER))
    ensures r.Failure? && start.Num? && end.Num? ==> r.error == Error(PlainError, RangeMessage("between", start, end))
  {
    Range("between", "between", start, end)
  }

  function NotBetween(start: Value, end: Value): (r: Result<OperatorResult, Error>)
    ensures r.Success? <==> ValidRange(start, end)
    ensures r.Success? ==> Matches(Def("not_between"), r.value)
    ensures r.Success? ==> r.value.0 == OpName("not_between") && |r.value.1| == 2
    ensures r.Success? ==> r.value.1[0] == Argument.ToDict(Argument.Argument(start, DynamicValueType.NUMBER))
    ensures r.Success? ==> r.value.1[1] == Argument.ToDict(Argument.Argument(end, DynamicValueType.NUMBER))
    ensures r.Failure? && start.Num? && end.Num? ==> r.error == Error(PlainError, RangeMessage("not between", start, end))
  {
    Range("not_between", "not between", start, end)
  }

  function PowerMessage(base: Value): string {
    "Invalid base for is power of: " + ToJsString(base) + ". Base must be positive."
  }

  /** `is_power_of(base)`: the positive-base check runs on a literal BEFORE the
      type check, so a literal that is not greater than zero (a number ≤ 0,
      but also a non-numeric string) is refused with the range message, and
      one that compares greater than zero without being a number (`true`,
      "5", a `Date` after the epoch) is refused by the type check. */
  function IsPowerOf(base: Value): (r: Result<OperatorResult, Error>)
    ensures r.Success? <==> Argument.Admits(DynamicValueType.NUMBER, base) && (base.Dyn? || base.n > 0)
    ensures r.Success? ==> Matches(Def("is_power_of"), r.value)
    ensures r.Success? ==> r.value == (OpName("is_power_of"), [Argument.ToDict(Argument.Argument(base, DynamicValueType.NUMBER))])
    ensures !base.Dyn? && !GreaterThanZero(base) ==> r == Failure(Error(PlainError, PowerMessage(base)))
    ensures !base.Dyn? && GreaterThanZero(base) && !base.Num? ==> r.Failure? && r.error.kind == TypeMismatchError
  {
    if !base.Dyn? && !PassesCheck(Def("is_power_of").value, [base]) then
      Failure(Error(PlainError, PowerMessage(base)))
    else Unary("is a power of", base, DynamicValueType.NUMBER)
  }

  /** A `Date` compares through its epoch milliseconds: one after the epoch
      passes the positive-base check and is refused by the type check, while
      an invalid one (NaN) or one at or before the epoch gets the range
      message. */
  lemma PowerOfDate(time: Option<int>, text: string)
    ensures time.Some? && time.value > 0 ==> IsPowerOf(Date(time, text)).Failure? && IsPowerOf(Date(time, text)).error.kind == TypeMismatchError
    ensures time.None? || time.value <= 0 ==> IsPowerOf(Date(time, text)) == Failure(Error(PlainError, PowerMessage(Date(time, text))))
  {
  }

  function IsEven(): (r: OperatorResult)
    ensures Matches(Def("is_even"), r)
  {
    ("is even", [])
  }

  function IsOdd(): (r: OperatorResult)
    ensures Matches(Def("is_odd"), r)
  {
    ("is odd", [])
  }

  function IsPositive(): (r: OperatorResult)
    ensures Matches(Def("is_positive"), r)
  {
    ("is positive", [])
  }

  function IsNegative(): (r: OperatorResult)
    ensures Matches(Def("is_negative"), r)
  {
    ("is negative", [])
  }

  function IsZero(): (r: OperatorResult)
    ensures Matches(Def("is_zero"), r)
  {
    ("is zero", [])
  }

  function IsNotZero(): (r: OperatorResult)
    ensures Matches(Def("is_not_zero"), r)
  {
    ("is not zero", [])
  }

  /** `between(5, 2)` is refused and `between(2, 5)` gives
      the two bounds in order. */
  lemma BetweenExamples()
    ensures Between(Num(5), Num(2)).Failure?
    ensures Between(Num(2), Num(5)) == Success(("between", [Num(2), Num(5)]))
  {
  }

  lemma KeysDistinct()
    ensures forall i, j | 0 <= i < j < |Keys| :: Keys[i] != Keys[j]
  {
  }

  /** For every catalogued key: only `any` skips the type check, only the
      two range operators carry the range check, and only `is_power_of` the
      base check. */
  lemma Flags(k: string)
    requires Def(k).Some?
    ensures Def(k).value.skipTypecheck == Some(true) <==> k == "any"
    ensures Def(k).value.validate == Some(StartBeforeEnd) <==> k in {"between", "not_between"}
    ensures Def(k).value.validate == Some(PositiveBase) <==> k == "is_power_of"
  {
  }

  /** Keys are distinct and only `any` skips the type check. */
  lemma CatalogueShape()
    ensures Assoc.UniqueKeys(Catalogue())
    ensures forall i | 0 <= i < |Catalogue()| :: Catalogue()[i].1.skipTypecheck == Some(true) <==> Catalogue()[i].0 == "any"
  {
    KeysDistinct();
    forall i | 0 <= i < |Keys| ensures Def(Keys[i]).value.skipTypecheck == Some(true) <==> Keys[i] == "any" {
      Flags(Keys[i]);
    }
  }

  /** Exactly `between` and `not_between` carry the start-before-end check,
      and exactly `is_power_of` the positive-base check. */
  lemma CatalogueValidators()
    ensures forall i | 0 <= i < |Catalogue()| ::
      Catalogue()[i].1.validate == Some(StartBeforeEnd) <==> Catalogue()[i].0 in {"between", "not_between"}
    ensures forall i | 0 <= i < |Catalogue()| ::
      Catalogue()[i].1.validate == Some(PositiveBase) <==> Catalogue()[i].0 == "is_power_of"
  {
    forall i | 0 <= i < |Keys|
      ensures Def(Keys[i]).value.validate == Some(StartBeforeEnd) <==> Keys[i] in {"between", "not_between"}
      ensures Def(Keys[i]).value.validate == Some(PositiveBase) <==> Keys[i] == "is_power_of"
    {
      Flags(Keys[i]);
    }
  }
}
