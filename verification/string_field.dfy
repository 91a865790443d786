/** The `StringField` class: its catalogue and builders. The pattern
    builders (`contains`, `starts_with`, the regex ones, …) type-check their
    argument and then, for a literal, run the catalogue's non-empty check on
    it; `is_included_in` checks the list is non-empty before rendering it. */
module StringField {
  import opened Wrappers
  import opened Types
  import opened Js
  import opened Operators
  import Argument
  import Assoc

  const Keys: seq<string> := [
    "any", "contains", "does_not_contain", "equals",
    "does_not_equal", "is_empty", "is_not_empty", "starts_with",
    "ends_with", "is_included_in", "is_not_included_in", "matches_regex",
    "does_not_match_regex", "is_valid_email", "is_not_valid_email", "is_valid_url",
    "is_not_valid_url", "is_valid_ip", "is_not_valid_ip", "is_uppercase",
    "is_lowercase", "is_numeric", "contains_only_digits", "contains_only_letters",
    "contains_only_digits_and_letters"]

  function NonEmpty(name: string, argType: string, description: string): OperatorArg {
    OperatorArg(name, argType, description, None, Some(NonEmptyLength))
  }

  /** Every string operator but `any`. */
  function Plain(key: string): Option<Descriptor> {
    if key == "contains" then Some(Undescribed("contains", [NonEmpty("value", "string", "The value to search for within the string")]))
    else if key == "does_not_contain" then Some(Undescribed("does not contain", [NonEmpty("value", "string", "The value to search for within the string")]))
    else if key == "equals" then Some(Undescribed("equals", [Arg("value", "string", "The value to compare against")]))
    else if key == "does_not_equal" then Some(Undescribed("does not equal", [Arg("value", "string", "The value to compare against")]))
    else if key == "is_empty" then Some(Described("is empty", "Check if string is empty"))
    else if key == "is_not_empty" then Some(Described("is not empty", "Check if string is not empty"))
    else if key == "starts_with" then Some(Undescribed("starts with", [NonEmpty("value", "string", "The value the string should start with")]))
    else if key == "ends_with" then Some(Undescribed("ends with", [NonEmpty("value", "string", "The value the string should end with")]))
    else if key == "is_included_in" then Some(Undescribed("is included in", [NonEmpty("value", "list", "A list of values the string should be in")]))
    else if key == "is_not_included_in" then Some(Undescribed("is not included in", [NonEmpty("value", "list", "A list of values the string should not be in")]))
    else if key == "matches_regex" then Some(Undescribed("matches RegEx", [NonEmpty("regex", "string", "The regex the string should match")]))
    else if key == "does_not_match_regex" then Some(Undescribed("does not match RegEx", [NonEmpty("regex", "string", "The regex the string should not match")]))
    else if key == "is_valid_email" then Some(Described("is a valid email address", "Check if string is a valid email address"))
    else if key == "is_not_valid_email" then Some(Described("is not a valid email address", "Check if string is not a valid email address"))
    else if key == "is_valid_url" then Some(Described("is a valid URL", "Check if string is a valid URL"))
    else if key == "is_not_valid_url" then Some(Described("is not a valid URL", "Check if string is not a valid URL"))
    else if key == "is_valid_ip" then Some(Described("is a valid IP address", "Check if string is a valid IP address"))
    else if key == "is_not_valid_ip" then Some(Described("is not a valid IP address", "Check if string is not a valid IP address"))
    else if key == "is_uppercase" then Some(Described("is uppercase", "Check if string is all uppercase"))
    else if key == "is_lowercase" then Some(Described("is lowercase", "Check if string is all lowercase"))
    else if key == "is_numeric" then Some(Described("is numeric", "Check if string contains only numeric characters"))
    else if key == "contains_only_digits" then Some(Described("contains only digits", "Check if string contains only digits"))
    else if key == "contains_only_letters" then Some(Described("contains only letters", "Check if string contains only letters"))
    else if key == "contains_only_digits_and_letters" then Some(Described("contains only digits and letters", "Check if string contains only digits and letters"))
    else None
  }

  function Def(key: string): Option<OperatorDef> {
    if key == "any" then Some(AnyOperator("Match any string value"))
    else match Plain(key)
      case Some(d) => Some(PlainOperator(d))
      case None => None
  }

  function OpName(key: string): string {
    match Def(key)
    case Some(d) => d.name
    case None => ""
  }

  function Catalogue(): Catalogue {
    BuildCatalogue(Keys, Def)
  }

  /** `new StringField(name, description, defaultValue)`. */
  function New(name: string, description: string, defaultValue: string): (f: Field)
    ensures f.fieldType == RuleType.STRING && f.defaultValue == Str(defaultValue)
    ensures f.name == name && f.description == description && f.operators == Catalogue()
  {
    Field(name, description, Str(defaultValue), Catalogue(), RuleType.STRING)
  }

  function Equals(v: Value): (r: Result<OperatorResult, Error>)
    ensures r.Success? <==> Argument.Admits(DynamicValueType.STRING, v)
    ensures r.Success? ==> Matches(Def("equals"), r.value)
    ensures r.Success? ==> r.value == (OpName("equals"), [Argument.ToDict(Argument.Argument(v, DynamicValueType.STRING))])
    ensures r.Failure? ==> r.error.kind == TypeMismatchError
  {
    Unary("equals", v, DynamicValueType.STRING)
  }

  function NotEquals(v: Value): (r: Result<OperatorResult, Error>)
    ensures r.Success? <==> Argument.Admits(DynamicValueType.STRING, v)
    ensures r.Success? ==> Matches(Def("does_not_equal"), r.value)
    ensures r.Success? ==> r.value == (OpName("does_not_equal"), [Argument.ToDict(Argument.Argument(v, DynamicValueType.STRING))])
    ensures r.Failure? ==> r.error.kind == TypeMismatchError
  {
    Unary("does not equal", v, DynamicValueType.STRING)
  }

  /** A string argument that passes the type check and, when it is a literal,
      is not empty. */
  predicate NonEmptyString(v: Value) {
    Argument.Admits(DynamicValueType.STRING, v) && (v.Dyn? || |v.s| > 0)
  }

  /** The shared shape of the pattern builders: type check, then, for a
      literal only, the argument's own validator from the catalogue entry
      `key`; a literal refused there is reported as `prefix` followed by the
      value (which is then always the empty string). */
  function Pattern(key: string, shown: string, prefix: string, v: Value): (r: Result<OperatorResult, Error>)
    requires Def(key).Some? && |Def(key).value.args| >= 1 && Def(key).value.args[0].validate == Some(NonEmptyLength)
    ensures r.Success? <==> NonEmptyString(v)
    ensures r.Success? ==> r.value == (shown, [Argument.ToDict(Argument.Argument(v, DynamicValueType.STRING))])
    ensures !Argument.Admits(DynamicValueType.STRING, v) ==> r.Failure? && r.error.kind == TypeMismatchError
    ensures v == Str("") ==> r == Failure(Error(PlainError, prefix))
  {
    var checked :- Unary(shown, v, DynamicValueType.STRING);
    if v.Dyn? then Success(checked)
    else
      match PassesArgumentCheck(Def(key).value.args[0], v)
      case Failure(e) => Failure(e)
      case Success(ok) =>
        if ok then Success(checked)
        else
          assert v == Str("") ==> prefix + ToJsString(v) == prefix;
          Failure(Error(PlainError, prefix + ToJsString(v)))
  }

  function Contains(v: Value): (r: Result<OperatorResult, Error>)
    ensures r.Success? <==> NonEmptyString(v)
    ensures r.Success? ==> Matches(Def("contains"), r.value)
    ensures r.Success? ==> r.value == (OpName("contains"), [Argument.ToDict(Argument.Argument(v, DynamicValueType.STRING))])
    ensures v == Str("") ==> r == Failure(Error(PlainError, "Invalid value for contains: "))
  {
    Pattern("contains", "contains", "Invalid value for contains: ", v)
  }

  function NotContains(v: Value): (r: Result<OperatorResult, Error>)
    ensures r.Success? <==> NonEmptyString(v)
    ensures r.Success? ==> Matches(Def("does_not_contain"), r.value)
    ensures r.Success? ==> r.value == (OpName("does_not_contain"), [Argument.ToDict(Argument.Argument(v, DynamicValueType.STRING))])
    ensures v == Str("") ==> r == Failure(Error(PlainError, "Invalid value for does not contain: "))
  {
    Pattern("does_not_contain", "does not contain", "Invalid value for does not contain: ", v)
  }

  function StartsWith(v: Value): (r: Result<OperatorResult, Error>)
    ensures r.Success? <==> NonEmptyString(v)
    ensures r.Success? ==> Matches(Def("starts_with"), r.value)
    ensures r.Success? ==> r.value == (OpName("starts_with"), [Argument.ToDict(Argument.Argument(v, DynamicValueType.STRING))])
    ensures v == Str("") ==> r == Failure(Error(PlainError, "Invalid value for starts with: "))
  {
    Pattern("starts_with", "starts with", "Invalid value for starts with: ", v)
  }

  function EndsWith(v: Value): (r: Result<OperatorResult, Error>)
    ensures r.Success? <==> NonEmptyString(v)
    ensures r.Success? ==> Matches(Def("ends_with"), r.value)
    ensures r.Success? ==> r.value == (OpName("ends_with"), [Argument.ToDict(Argument.Argument(v, DynamicValueType.STRING))])
    ensures v == Str("") ==> r == Failure(Error(PlainError, "Invalid value for ends with: "))
  {
    Pattern("ends_with", "ends with", "Invalid value for ends with: ", v)
  }

  function MatchesRegex(v: Value): (r: Result<OperatorResult, Error>)
    ensures r.Success? <==> NonEmptyString(v)
    ensures r.Success? ==> Matches(Def("matches_regex"), r.value)
    ensures r.Success? ==> r.value == (OpName("matches_regex"), [Argument.ToDict(Argument.Argument(v, DynamicValueType.STRING))])
    ensures v == Str("") ==> r == Failure(Error(PlainError, "Invalid regex pattern: "))
  {
    Pattern("matches_regex", "matches RegEx", "Invalid regex pattern: ", v)
  }

  function NotMatchesRegex(v: Value): (r: Result<OperatorResult, Error>)
    ensures r.Success? <==> NonEmptyString(v)
    ensures r.Success? ==> Matches(Def("does_not_match_regex"), r.value)
    ensures r.Success? ==> r.value == (OpName("does_not_match_regex"), [Argument.ToDict(Argument.Argument(v, DynamicValueType.STRING))])
    ensures v == Str("") ==> r == Failure(Error(PlainError, "Invalid regex pattern: "))
  {
    Pattern("does_not_match_regex", "does not match RegEx", "Invalid regex pattern: ", v)
  }

  const EmptyListMessage := "List must not be empty"

  /** `is_included_in(values)`. A dynamic value must be of type LIST. A
      literal must first have a positive `length` (`null` and `undefined`
      raise reading it; a number or boolean has none and is refused as empty,
      and so is a plain object without a positive `length` entry), and is then
      mapped element by element against STRING, which only an array survives:
      a non-empty string or an object such as `{length: 5}` gets past the
      length check and fails because it has no `map`. */
  function IsIncludedIn(values: Value): (r: Result<OperatorResult, Error>)
    ensures r.Success? ==> Matches(Def("is_included_in"), r.value)
    ensures values.Dyn? ==> r == ListArgument(OpName("is_included_in"), "values", values, DynamicValueType.STRING)
    ensures values.Arr? ==> (r.Success? <==> |values.items| > 0 && forall i | 0 <= i < |values.items| :: Argument.Admits(DynamicValueType.STRING, values.items[i]))
    ensures values.Arr? && |values.items| == 0 ==> r == Failure(Error(PlainError, EmptyListMessage))
    ensures values.Arr? && r.Success? ==> r.value.0 == OpName("is_included_in") && |r.value.1| == 1 && r.value.1[0].Arr?
    ensures values.Arr? && r.Success? ==> r.value.1[0].items == seq(|values.items|, i requires 0 <= i < |values.items| =>
                                            Argument.ToDict(Argument.Argument(values.items[i], DynamicValueType.STRING)))
    ensures values.Null? || values.Undefined? ==> r.Failure? && r.error.kind == RuntimeTypeError
    ensures !values.Dyn? && !values.Arr? ==> r.Failure?
    ensures !values.Dyn? && !values.Arr? && !values.Null? && !values.Undefined? ==>
              r == if Js.GreaterThanZero(Js.Length(values).value) then Failure(NoMapError("values", values))
                   else Failure(Error(PlainError, EmptyListMessage))
  {
    if values.Dyn? then ListArgument("is included in", "values", values, DynamicValueType.STRING)
    else
      var ok :- PassesArgumentCheck(Def("is_included_in").value.args[0], values);
      if !ok then Failure(Error(PlainError, EmptyListMessage))
      else ListArgument("is included in", "values", values, DynamicValueType.STRING)
  }

  function IsEmpty(): (r: OperatorResult)
    ensures Matches(Def("is_empty"), r)
  {
    ("is empty", [])
  }

  function IsNotEmpty(): (r: OperatorResult)
    ensures Matches(Def("is_not_empty"), r)
  {
    ("is not empty", [])
  }

  function IsEmail(): (r: OperatorResult)
    ensures Matches(Def("is_valid_email"), r)
  {
    ("is a valid email address", [])
  }

  function IsNotEmail(): (r: OperatorResult)
    ensures Matches(Def("is_not_valid_email"), r)
  {
    ("is not a valid email address", [])
  }

  function IsUrl(): (r: OperatorResult)
    ensures Matches(Def("is_valid_url"), r)
  {
    ("is a valid URL", [])
  }

  function IsNotUrl(): (r: OperatorResult)
    ensures Matches(Def("is_not_valid_url"), r)
  {
    ("is not a valid URL", [])
  }

  function IsIp(): (r: OperatorResult)
    ensures Matches(Def("is_valid_ip"), r)
  {
    ("is a valid IP address", [])
  }

  function IsNotIp(): (r: OperatorResult)
    ensures Matches(Def("is_not_valid_ip"), r)
  {
    ("is not a valid IP address", [])
  }

  function IsUppercase(): (r: OperatorResult)
    ensures Matches(Def("is_uppercase"), r)
  {
    ("is uppercase", [])
  }

  function IsLowercase(): (r: OperatorResult)
    ensures Matches(Def("is_lowercase"), r)
  {
    ("is lowercase", [])
  }

  function IsNumeric(): (r: OperatorResult)
    ensures Matches(Def("is_numeric"), r)
  {
    ("is numeric", [])
  }

  function ContainsOnlyDigits(): (r: OperatorResult)
    ensures Matches(Def("contains_only_digits"), r)
  {
    ("contains only digits", [])
  }

  function ContainsOnlyLetters(): (r: OperatorResult)
    ensures Matches(Def("contains_only_letters"), r)
  {
    ("contains only letters", [])
  }

  function ContainsOnlyDigitsAndLetters(): (r: OperatorResult)
    ensures Matches(Def("contains_only_digits_and_letters"), r)
  {
    ("contains only digits and letters", [])
  }

  /** A dynamic STRING value skips the non-empty check, and a non-empty
      literal passes it. */
  lemma PatternExamples(d: DynamicValue)
    requires d.valueType == DynamicValueType.STRING
    ensures Contains(Dyn(d)).Success?
    ensures Contains(Str("a")) == Success(("contains", [Str("a")]))
    ensures Contains(Num(1)).Failure?
  {
  }

  /** A string where a list is expected gets past the length check and then
      fails at `map` ("values.map is not a function"). */
  lemma IncludedInStringArgument()
    ensures IsIncludedIn(Str("ab")) == Failure(NoMapError("values", Str("ab")))
  {
    assert Def("is_included_in").value.args[0].validate == Some(NonEmptyLength);
  }

  /** A plain object passes the length check on its own `length` entry and
      then fails for want of `map`; one without such an entry is empty. */
  lemma IncludedInObjectLength()
    ensures IsIncludedIn(Obj([("length", Num(5))])) == Failure(NoMapError("values", Obj([("length", Num(5))])))
    ensures IsIncludedIn(Obj([("length", Num(5))])).error.kind == RuntimeTypeError
    ensures IsIncludedIn(Obj([])) == Failure(Error(PlainError, EmptyListMessage))
  {
    assert Assoc.Get([("length", Num(5))], "length") == Some(Num(5)) by {
      assert Assoc.Keys([("length", Num(5))]) == ["length"];
    }
  }

  /** An empty string, like a number, is refused as an empty list. */
  lemma IncludedInLengthless()
    ensures IsIncludedIn(Str("")) == Failure(Error(PlainError, EmptyListMessage))
    ensures IsIncludedIn(Num(3)) == Failure(Error(PlainError, EmptyListMessage))
  {
    assert Def("is_included_in").value.args[0].validate == Some(NonEmptyLength);
  }

  lemma KeysDistinct()
    ensures forall i, j | 0 <= i < j < |Keys| :: Keys[i] != Keys[j]
  {
  }

  lemma OnlyAnySkips(k: string)
    requires Def(k).Some?
    ensures Def(k).value.skipTypecheck == Some(true) <==> k == "any"
    ensures Def(k).value.validate.None?
  {
  }

  /** Keys are distinct and only `any` skips the type check. */
  lemma CatalogueShape()
    ensures Assoc.UniqueKeys(Catalogue())
    ensures forall i | 0 <= i < |Catalogue()| :: Catalogue()[i].1.skipTypecheck == Some(true) <==> Catalogue()[i].0 == "any"
  {
    KeysDistinct();
    forall i | 0 <= i < |Keys| ensures Def(Keys[i]).value.skipTypecheck == Some(true) <==> Keys[i] == "any" {
      OnlyAnySkips(Keys[i]);
    }
  }

  /** No string operator has an operator-level validator, and
      `is_not_included_in` is catalogued though no builder emits it. */
  lemma CatalogueValidators()
    ensures forall i | 0 <= i < |Catalogue()| :: Catalogue()[i].1.validate.None?
    ensures "is_not_included_in" in Assoc.Keys(Catalogue())
  {
    forall i | 0 <= i < |Keys| ensures Def(Keys[i]).value.validate.None? {
      OnlyAnySkips(Keys[i]);
    }
    assert Keys[10] == "is_not_included_in";
  }
}
