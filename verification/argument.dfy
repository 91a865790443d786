/** The `Argument` class: the single place where an operator argument is
    type-checked against the type its position expects, and then rendered
    for the wire. */
module Argument {
  import opened Wrappers
  import opened Types
  import opened Js
  import Values
  import Assoc

  /** An argument that passed its type check. */
  datatype Argument = Argument(value: Value, expectedType: DynamicValueType)

  /** `getExpectedJsType()`: the `typeof` a literal must have. DATE, LIST and
      OBJECT all expect "object"; FUNCTION has no entry and raises. */
  function ExpectedJsType(t: DynamicValueType): (r: Result<string, Error>)
    ensures r.Failure? <==> t == DynamicValueType.FUNCTION
    ensures r.Failure? ==> r.error.kind == PlainError
    ensures r.Success? && t in {DynamicValueType.DATE, DynamicValueType.LIST, DynamicValueType.OBJECT} ==> r.value == "object"
    ensures r.Success? && t !in {DynamicValueType.DATE, DynamicValueType.LIST, DynamicValueType.OBJECT} ==> r.value == DynamicValueTypeWire(t)
  {
    match t
    case STRING => Success("string")
    case NUMBER => Success("number")
    case BOOLEAN => Success("boolean")
    case DATE => Success("object")
    case LIST => Success("object")
    case OBJECT => Success("object")
    case FUNCTION => Failure(Error(PlainError, "Unknown type: " + DynamicValueTypeWire(t)))
  }

  /** Which values an argument position of type `t` admits, stated per shape:
      a dynamic value must carry exactly `t`; a literal string, number or
      boolean must match STRING, NUMBER or BOOLEAN; any `null`, `Date`, array
      or plain object passes DATE, LIST and OBJECT alike; nothing passes FUNCTION. */
  predicate Admits(t: DynamicValueType, v: Value) {
    match v
    case Dyn(d) => d.valueType == t
    case Str(_) => t == DynamicValueType.STRING
    case Num(_) => t == DynamicValueType.NUMBER
    case Bool(_) => t == DynamicValueType.BOOLEAN
    case Undefined => false
    case _ => t in {DynamicValueType.DATE, DynamicValueType.LIST, DynamicValueType.OBJECT}
  }

  function TypeMismatchMessage(v: Value, t: DynamicValueType): string {
    match v
    case Dyn(d) =>
      "Dynamic value '" + d.name + "' has type " + DynamicValueTypeWire(d.valueType)
      + ", but " + DynamicValueTypeWire(t) + " was expected"
    case _ =>
      "Value " + ToJsString(v) + " has type " + TypeOf(v) + ", but " + DynamicValueTypeWire(t) + " was expected"
  }

  /** `validateType()`. A failure is a TypeMismatchError, except for a literal
      checked against FUNCTION, where the type lookup itself raises. */
  function ValidateType(v: Value, t: DynamicValueType): (o: Outcome<Error>)
    ensures o.Pass? <==> Admits(t, v)
    ensures o.Fail? && (v.Dyn? || t != DynamicValueType.FUNCTION) ==> o.error == Error(TypeMismatchError, TypeMismatchMessage(v, t))
    ensures o.Fail? && !v.Dyn? && t == DynamicValueType.FUNCTION ==> o.error.kind == PlainError
  {
    if v.Dyn? then
      if v.dv.valueType != t then Fail(Error(TypeMismatchError, TypeMismatchMessage(v, t))) else Pass
    else
      match ExpectedJsType(t)
      case Failure(e) => Fail(e)
      case Success(js) =>
        if TypeOf(v) == js || (js == "object" && IsArray(v)) then Pass
        else Fail(Error(TypeMismatchError, TypeMismatchMessage(v, t)))
  }

  /** `new Argument(value, expectedType)`: the constructor runs the type check. */
  function New(v: Value, t: DynamicValueType): (r: Result<Argument, Error>)
    ensures r.Success? <==> Admits(t, v)
    ensures r.Success? ==> r.value == Argument(v, t)
    ensures r.Failure? ==> ValidateType(v, t) == Fail(r.error)
  {
    match ValidateType(v, t)
    case Fail(e) => Failure(e)
    case Pass => Success(Argument(v, t))
  }

  /** `toDict()`: a dynamic value renders to its wire object, which reads back
      as the same dynamic value; a literal comes back untouched (including any
      dynamic values nested inside it). */
  function ToDict(a: Argument): (r: Value)
    ensures a.value.Dyn? ==> NoDyn(r) && Values.ParseDict(r) == Some(a.value.dv)
    ensures !a.value.Dyn? ==> r == a.value
  {
    Values.ToDictRoundTrip(if a.value.Dyn? then a.value.dv else DynamicValue("", DynamicValueType.STRING));
    if a.value.Dyn? then Values.ToDict(a.value.dv) else a.value
  }

  /** Check then render, as every builder does with `new Argument(v, t).toDict()`. */
  function Render(v: Value, t: DynamicValueType): (r: Result<Value, Error>)
    ensures r.Success? <==> Admits(t, v)
    ensures r.Success? ==> r.value == ToDict(Argument(v, t))
    ensures r.Failure? ==> ValidateType(v, t) == Fail(r.error)
  {
    var a :- New(v, t);
    Success(ToDict(a))
  }

  /** `Argument.process(arg, expectedType)`: renders every dynamic value found
      at any depth; arrays keep their length and order, objects their keys;
      a `Date`, being an object without own entries, becomes `{}`. */
  function Process(v: Value, t: DynamicValueType): (r: Value)
    ensures NoDyn(r)
    ensures v.Dyn? ==> r == Values.ToDict(v.dv)
    ensures v.Arr? ==> r.Arr? && |r.items| == |v.items|
    ensures v.Arr? ==> forall i | 0 <= i < |v.items| :: r.items[i] == Process(v.items[i], t)
    ensures v.Obj? ==> r.Obj? && Assoc.Keys(r.entries) == Assoc.Keys(v.entries)
    ensures v.Obj? ==> |r.entries| == |v.entries| &&
                       forall i | 0 <= i < |v.entries| :: r.entries[i] == (v.entries[i].0, Process(v.entries[i].1, t))
    ensures v.Date? ==> r == Obj([])
    ensures v.Undefined? || v.Null? || v.Bool? || v.Num? || v.Str? ==> r == v
    decreases v
  {
    match v
    case Dyn(d) => Values.ToDict(d)
    case Arr(items) =>
      Arr(seq(|items|, i requires 0 <= i < |items| => Process(items[i], t)))
    case Obj(entries) =>
      Obj(seq(|entries|, i requires 0 <= i < |entries| => (entries[i].0, Process(entries[i].1, t))))
    case Date(_, _) => Obj([])
    case _ => v
  }

  /** Plain wire data with no `Date` inside: what `Process` leaves unchanged. */
  predicate Rendered(v: Value) {
    match v
    case Dyn(_) => false
    case Date(_, _) => false
    case Arr(items) => forall i | 0 <= i < |items| :: Rendered(items[i])
    case Obj(entries) => forall i | 0 <= i < |entries| :: Rendered(entries[i].1)
    case _ => true
  }

  /** `Process` only ever produces rendered data, and leaves rendered data as it is. */
  lemma {:induction false} ProcessRendered(v: Value, t: DynamicValueType)
    ensures Rendered(Process(v, t))
    ensures Rendered(v) ==> Process(v, t) == v
    decreases v
  {
    match v
    case Dyn(d) =>
    case Arr(items) =>
      forall i | 0 <= i < |items| ensures Rendered(Process(items[i], t)) && (Rendered(v) ==> Process(items[i], t) == items[i]) {
        ProcessRendered(items[i], t);
      }
    case Obj(entries) =>
      forall i | 0 <= i < |entries| ensures Rendered(Process(entries[i].1, t)) && (Rendered(v) ==> Process(entries[i].1, t) == entries[i].1) {
        ProcessRendered(entries[i].1, t);
      }
    case _ =>
  }

  /** Processing twice is processing once. */
  lemma ProcessIdempotent(v: Value, t: DynamicValueType, t': DynamicValueType)
    ensures Process(Process(v, t), t') == Process(v, t)
  {
    ProcessRendered(v, t);
    ProcessRendered(Process(v, t), t');
  }

  /** `toString()`: a dynamic value shows as its upper-cased name in angle brackets. */
  function ToString(a: Argument): (s: string)
    ensures a.value.Dyn? ==> |s| == |a.value.dv.name| + 2 && s[0] == '<' && s[|s| - 1] == '>'
    ensures a.value.Dyn? ==> forall i | 1 <= i < |s| - 1 :: !('a' <= s[i] <= 'z')
    ensures a.value.Dyn? ==> s[1..|s| - 1] == AsciiUpper(a.value.dv.name)
    ensures !a.value.Dyn? ==> s == ToJsString(a.value)
  {
    if a.value.Dyn? then "<" + AsciiUpper(a.value.dv.name) + ">" else ToJsString(a.value)
  }
}
