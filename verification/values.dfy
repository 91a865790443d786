/** The methods of the `DynamicValue` class: its wire rendering and the
    JavaScript constructor each value type expects. */
module Values {
  import opened Wrappers
  import opened Types
  import Assoc

  /** `toDict()`: the wire object `{type: "dynamic", name, valueType}`. */
  function ToDict(d: DynamicValue): (r: Value)
    ensures NoDyn(r)
  {
    Obj([("type", Str("dynamic")), ("name", Str(d.name)), ("valueType", Str(DynamicValueTypeWire(d.valueType)))])
  }

  function DynamicValueTypeFromWire(s: string): (r: Option<DynamicValueType>)
    ensures r.Some? ==> DynamicValueTypeWire(r.value) == s
  {
    if s == "string" then Some(DynamicValueType.STRING)
    else if s == "number" then Some(DynamicValueType.NUMBER)
    else if s == "boolean" then Some(DynamicValueType.BOOLEAN)
    else if s == "date" then Some(DynamicValueType.DATE)
    else if s == "list" then Some(DynamicValueType.LIST)
    else if s == "function" then Some(DynamicValueType.FUNCTION)
    else if s == "object" then Some(DynamicValueType.OBJECT)
    else None
  }

  /** Reads a wire object back as the dynamic value it stands for: it must
      have exactly the keys `type`, `name` and `valueType`, in that order, with
      `type` equal to "dynamic". */
  function ParseDict(v: Value): Option<DynamicValue> {
    if v.Obj? && Assoc.Keys(v.entries) == ["type", "name", "valueType"]
       && v.entries[0].1 == Str("dynamic") && v.entries[1].1.Str? && v.entries[2].1.Str?
    then
      match DynamicValueTypeFromWire(v.entries[2].1.s)
      case Some(t) => Some(DynamicValue(v.entries[1].1.s, t))
      case None => None
    else None
  }

  /** The wire object determines the dynamic value: reading it back gives the
      name and value type it was rendered from. */
  lemma ToDictRoundTrip(d: DynamicValue)
    ensures ParseDict(ToDict(d)) == Some(d)
  {
    assert Assoc.Keys(ToDict(d).entries) == ["type", "name", "valueType"];
  }

  lemma ToDictInjective(a: DynamicValue, b: DynamicValue)
    ensures ToDict(a) == ToDict(b) <==> a == b
  {
    if ToDict(a) == ToDict(b) {
      ToDictRoundTrip(a);
      ToDictRoundTrip(b);
    }
  }

  /** The JavaScript constructors `getExpectedType` returns. */
  datatype JsConstructor = StringConstructor | NumberConstructor | BooleanConstructor | DateConstructor | ObjectConstructor

  /** `DynamicValue.getExpectedType(type)`; FUNCTION has no entry and raises. */
  function GetExpectedType(t: DynamicValueType): (r: Result<JsConstructor, Error>)
    ensures r.Failure? <==> t == DynamicValueType.FUNCTION
    ensures r.Failure? ==> r.error == Error(PlainError, "Unknown type: function")
  {
    match t
    case STRING => Success(StringConstructor)
    case NUMBER => Success(NumberConstructor)
    case BOOLEAN => Success(BooleanConstructor)
    case DATE => Success(DateConstructor)
    case LIST => Success(ObjectConstructor)
    case OBJECT => Success(ObjectConstructor)
    case FUNCTION => Failure(Error(PlainError, "Unknown type: " + DynamicValueTypeWire(t)))
  }

  /** LIST and OBJECT share a constructor; every other accepted type has its own. */
  lemma GetExpectedTypeCollapsesOnlyListAndObject(a: DynamicValueType, b: DynamicValueType)
    requires GetExpectedType(a).Success? && GetExpectedType(b).Success?
    ensures GetExpectedType(a) == GetExpectedType(b)
        <==> a == b || (a in {DynamicValueType.LIST, DynamicValueType.OBJECT} && b in {DynamicValueType.LIST, DynamicValueType.OBJECT})
  {
  }
}
