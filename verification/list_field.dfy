/** The `ListField` class: its catalogue and builders. A single element
    (`contains`, `does_not_contain`, the value of
    `contains_object_with_key_value`) is checked against OBJECT, and so is
    every element of a literal list argument, so a list of strings or
    numbers is refused while `null`, arrays and plain objects pass. */
module ListField {
  import opened Wrappers
  import opened Types
  import opened Operators
  import Argument
  import Assoc
  import Values

  const Keys: seq<string> := [
    "any", "contains", "is_empty", "is_not_empty",
    "is_of_length", "is_not_of_length", "is_longer_than", "is_shorter_than",
    "contains_all_of", "contains_any_of", "contains_none_of", "does_not_contain",
    "is_equal_to", "is_not_equal_to", "contains_duplicates", "does_not_contain_duplicates",
    "contains_object_with_key_value", "has_unique_elements", "is_sublist_of", "is_superlist_of"]

  /** Every list operator but `any`. */
  function Plain(key: string): Option<Descriptor> {
    if key == "contains" then Some(Undescribed("contains", [Arg("value", "generic", "Value that must be contained in the list")]))
    else if key == "is_empty" then Some(Described("is empty", "Check if list is empty"))
    else if key == "is_not_empty" then Some(Described("is not empty", "Check if list is not empty"))
    else if key == "is_of_length" then Some(Undescribed("is of length", [Arg("length", "number", "Length that the list must be")]))
    else if key == "is_not_of_length" then Some(Undescribed("is not of length", [Arg("length", "number", "Length that the list must not be")]))
    else if key == "is_longer_than" then Some(Undescribed("is longer than", [Arg("length", "number", "Length that the list must be longer than")]))
    else if key == "is_shorter_than" then Some(Undescribed("is shorter than", [Arg("length", "number", "Length that the list must be shorter than")]))
    else if key == "contains_all_of" then Some(Undescribed("contains all of", [Arg("values", "list", "List of values that must be contained in the list")]))
    else if key == "contains_any_of" then Some(Undescribed("contains any of", [Arg("values", "list", "List of values that might be contained in the list")]))
    else if key == "contains_none_of" then Some(Undescribed("contains none of", [Arg("values", "list", "List of values that must not be contained in the list")]))
    else if key == "does_not_contain" then Some(Undescribed("does not contain", [Arg("value", "generic", "Value that must not be contained in the list")]))
    else if key == "is_equal_to" then Some(Undescribed("is equal to", [Arg("list", "list", "Value that the list must be equal to")]))
    else if key == "is_not_equal_to" then Some(Undescribed("is not equal to", [Arg("list", "list", "Value that the list must not be equal to")]))
    else if key == "contains_duplicates" then Some(Described("contains duplicates", "Check if list contains duplicate values"))
    else if key == "does_not_contain_duplicates" then Some(Described("does not contain duplicates", "Check if list does not contain duplicate values"))
    else if key == "contains_object_with_key_value" then
      Some(Undescribed("contains object with key & value", [Arg("key", "string", "Key of any object contained in the list"),
                                                             Arg("value", "generic", "Value that the key must be equal to")]))
    else if key == "has_unique_elements" then Some(Described("has unique elements", "Check if all elements in the list are unique"))
    else if key == "is_sublist_of" then Some(Undescribed("is a sublist of", [Arg("superlist", "list", "List that should contain this list")]))
    else if key == "is_superlist_of" then Some(Undescribed("is a superlist of", [Arg("sublist", "list", "List that should be contained in this list")]))
    else None
  }

  function Def(key: string): Option<OperatorDef> {
    if key == "any" then Some(AnyOperator("Match any list value"))
    else match Plain(key)
      case Some(d) => Some(PlainOperator(d))
      case None => None
  }

  function OpName(key: string): string {
    match Def(key)
    case Some(d) => d.name
    case None => ""
  }

  function Catalogue(): Catalogue {
    BuildCatalogue(Keys, Def)
  }

  /** `new ListField(name, description, defaultValue)`. */
  function New(name: string, description: string, defaultValue: seq<Value>): (f: Field)
    ensures f.fieldType == RuleType.LIST && f.defaultValue == Arr(defaultValue)
    ensures f.name == name && f.description == description && f.operators == Catalogue()
  {
    Field(name, description, Arr(defaultValue), Catalogue(), RuleType.LIST)
  }

  /** What a one-argument builder promises for the catalogue entry `key`. */
  predicate OneArgument(key: string, t: DynamicValueType, v: Value, r: Result<OperatorResult, Error>) {
    && (r.Success? <==> Argument.Admits(t, v))
    && (r.Success? ==> r.value == (OpName(key), [Argument.ToDict(Argument.Argument(v, t))]))
    && (r.Success? ==> Matches(Def(key), r.value))
    && (r.Failure? ==> r.error.kind == TypeMismatchError)
  }

  /** What a whole-list builder promises for the catalogue entry `key`: a
      dynamic value succeeds exactly when it is a LIST; a literal array
      exactly when OBJECT admits each element, rendering them in order; any
      other literal fails where `param.map` is looked up. */
  predicate WholeList(key: string, param: string, v: Value, r: Result<OperatorResult, Error>) {
    && (v.Dyn? ==> (r.Success? <==> v.dv.valueType == DynamicValueType.LIST))
    && (v.Dyn? && r.Success? ==> r.value == (OpName(key), [Values.ToDict(v.dv)]))
    && (v.Dyn? && r.Failure? ==> r.error == Error(TypeMismatchError, NotAListMessage(v.dv)))
    && (v.Arr? ==> (r.Success? <==> forall i | 0 <= i < |v.items| :: Argument.Admits(DynamicValueType.OBJECT, v.items[i])))
    && (v.Arr? && r.Success? ==> r.value == (OpName(key), [Arr(seq(|v.items|, i requires 0 <= i < |v.items| =>
                                                Argument.ToDict(Argument.Argument(v.items[i], DynamicValueType.OBJECT))))]))
    && (!v.Dyn? && !v.Arr? ==> r == Failure(NoMapError(param, v)))
    && (r.Success? ==> Matches(Def(key), r.value))
  }

  /** `ListArgument` meets `WholeList` for a catalogue entry of one argument. */
  lemma ListArgumentIsWholeList(key: string, param: string, v: Value)
    requires Def(key).Some? && |Def(key).value.args| == 1
    ensures WholeList(key, param, v, ListArgument(OpName(key), param, v, DynamicValueType.OBJECT))
  {
    var r := ListArgument(OpName(key), param, v, DynamicValueType.OBJECT);
    if v.Arr? && r.Success? {
      assert r.value.1[0].items == seq(|v.items|, i requires 0 <= i < |v.items| =>
                                       Argument.ToDict(Argument.Argument(v.items[i], DynamicValueType.OBJECT)));
    }
  }

  function Contains(value: Value): (r: Result<OperatorResult, Error>)
    ensures OneArgument("contains", DynamicValueType.OBJECT, value, r)
  {
    Unary("contains", value, DynamicValueType.OBJECT)
  }

  function IsEmpty(): (r: OperatorResult)
    ensures Matches(Def("is_empty"), r)
  {
    ("is empty", [])
  }

  function IsNotEmpty(): (r: OperatorResult)
    ensures Matches(Def("is_not_empty"), r)
  {
    ("is not empty", [])
  }

  function LengthEquals(length: Value): (r: Result<OperatorResult, Error>)
    ensures OneArgument("is_of_length", DynamicValueType.NUMBER, length, r)
  {
    Unary("is of length", length, DynamicValueType.NUMBER)
  }

  function LengthNotEquals(length: Value): (r: Result<OperatorResult, Error>)
    ensures OneArgument("is_not_of_length", DynamicValueType.NUMBER, length, r)
  {
    Unary("is not of length", length, DynamicValueType.NUMBER)
  }

  function LongerThan(length: Value): (r: Result<OperatorResult, Error>)
    ensures OneArgument("is_longer_than", DynamicValueType.NUMBER, length, r)
  {
    Unary("is longer than", length, DynamicValueType.NUMBER)
  }

  function ShorterThan(length: Value): (r: Result<OperatorResult, Error>)
    ensures OneArgument("is_shorter_than", DynamicValueType.NUMBER, length, r)
  {
    Unary("is shorter than", length, DynamicValueType.NUMBER)
  }

  function ContainsAll(values: Value): (r: Result<OperatorResult, Error>)
    ensures WholeList("contains_all_of", "values", values, r)
  {
    ListArgumentIsWholeList("contains_all_of", "values", values);
    ListArgument("contains all of", "values", values, DynamicValueType.OBJECT)
  }

  function ContainsAny(values: Value): (r: Result<OperatorResult, Error>)
    ensures WholeList("contains_any_of", "values", values, r)
  {
    ListArgumentIsWholeList("contains_any_of", "values", values);
    ListArgument("contains any of", "values", values, DynamicValueType.OBJECT)
  }

  function ContainsNone(values: Value): (r: Result<OperatorResult, Error>)
    ensures WholeList("contains_none_of", "values", values, r)
  {
    ListArgumentIsWholeList("contains_none_of", "values", values);
    ListArgument("contains none of", "values", values, DynamicValueType.OBJECT)
  }

  function NotContains(value: Value): (r: Result<OperatorResult, Error>)
    ensures OneArgument("does_not_contain", DynamicValueType.OBJECT, value, r)
  {
    Unary("does not contain", value, DynamicValueType.OBJECT)
  }

  function Equals(other: Value): (r: Result<OperatorResult, Error>)
    ensures WholeList("is_equal_to", "other", other, r)
  {
    ListArgumentIsWholeList("is_equal_to", "other", other);
    ListArgument("is equal to", "other", other, DynamicValueType.OBJECT)
  }

  function NotEquals(other: Value): (r: Result<OperatorResult, Error>)
    ensures WholeList("is_not_equal_to", "other", other, r)
  {
    ListArgumentIsWholeList("is_not_equal_to", "other", other);
    ListArgument("is not equal to", "other", other, DynamicValueType.OBJECT)
  }

  function HasDuplicates(): (r: OperatorResult)
    ensures Matches(Def("contains_duplicates"), r)
  {
    ("contains duplicates", [])
  }

  function NoDuplicates(): (r: OperatorResult)
    ensures Matches(Def("does_not_contain_duplicates"), r)
  {
    ("does not contain duplicates", [])
  }

  /** `contains_object_with_key_value(key, value)`: the key against STRING
      first, then the value against OBJECT. */
  function ContainsObjectWithKeyValue(key: Value, value: Value): (r: Result<OperatorResult, Error>)
    ensures r.Success? <==> Argument.Admits(DynamicValueType.STRING, key) && Argument.Admits(DynamicValueType.OBJECT, value)
    ensures r.Success? ==> Matches(Def("contains_object_with_key_value"), r.value)
    ensures r.Success? ==> r.value == (OpName("contains_object_with_key_value"),
                                       [Argument.ToDict(Argument.Argument(key, DynamicValueType.STRING)),
                                        Argument.ToDict(Argument.Argument(value, DynamicValueType.OBJECT))])
    ensures r.Failure? ==> r.error.kind == TypeMismatchError
  {
    assert OpName("contains_object_with_key_value") == "contains object with key & value";
    assert |Def("contains_object_with_key_value").value.args| == 2;
    Binary("contains object with key & value", key, DynamicValueType.STRING, value, DynamicValueType.OBJECT)
  }

  function HasUniqueElements(): (r: OperatorResult)
    ensures Matches(Def("has_unique_elements"), r)
  {
    ("has unique elements", [])
  }

  function IsSublistOf(superlist: Value): (r: Result<OperatorResult, Error>)
    ensures WholeList("is_sublist_of", "superlist", superlist, r)
  {
    ListArgumentIsWholeList("is_sublist_of", "superlist", superlist);
    ListArgument("is a sublist of", "superlist", superlist, DynamicValueType.OBJECT)
  }

  function IsSuperlistOf(sublist: Value): (r: Result<OperatorResult, Error>)
    ensures WholeList("is_superlist_of", "sublist", sublist, r)
  {
    ListArgumentIsWholeList("is_superlist_of", "sublist", sublist);
    ListArgument("is a superlist of", "sublist", sublist, DynamicValueType.OBJECT)
  }

  /** A list of strings is refused by every whole-list builder, and a
      single string by `contains`. */
  lemma PrimitiveElementsRefused(s: string)
    ensures ContainsAll(Arr([Str(s)])).Failure?
    ensures Contains(Str(s)).Failure?
  {
    assert !Argument.Admits(DynamicValueType.OBJECT, Arr([Str(s)]).items[0]);
  }

  /** A list of objects and `null`s passes as it is. */
  lemma ObjectElementsAccepted(o: seq<(string, Value)>)
    ensures ContainsAll(Arr([Obj(o), Null])) == Success(("contains all of", [Arr([Obj(o), Null])]))
  {
    var items := [Obj(o), Null];
    var rendered := seq(|items|, i requires 0 <= i < |items| => Argument.ToDict(Argument.Argument(items[i], DynamicValueType.OBJECT)));
    assert rendered == items;
  }

  lemma KeysDistinct()
    ensures forall i, j | 0 <= i < j < |Keys| :: Keys[i] != Keys[j]
  {
  }

  lemma OnlyAnySkips(k: string)
    requires Def(k).Some?
    ensures Def(k).value.skipTypecheck == Some(true) <==> k == "any"
    ensures Def(k).value.validate.None?
  {
  }

  /** Keys are distinct, only `any` skips the type check and no list
      operator has a validator. */
  lemma CatalogueShape()
    ensures Assoc.UniqueKeys(Catalogue())
    ensures forall i | 0 <= i < |Catalogue()| :: Catalogue()[i].1.skipTypecheck == Some(true) <==> Catalogue()[i].0 == "any"
    ensures forall i | 0 <= i < |Catalogue()| :: Catalogue()[i].1.validate.None?
  {
    KeysDistinct();
    forall i | 0 <= i < |Keys|
      ensures Def(Keys[i]).value.skipTypecheck == Some(true) <==> Keys[i] == "any"
      ensures Def(Keys[i]).value.validate.None?
    {
      OnlyAnySkips(Keys[i]);
    }
  }
}
