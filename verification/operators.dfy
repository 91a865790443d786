/** Shapes shared by the five field classes: building an operator catalogue
    from its descriptors, and the argument-rendering steps the builder
    methods are made of. */
module Operators {
  import opened Wrappers
  import opened Types
  import opened Js
  import Argument
  import Assoc

  /** The catalogue listing `keys` in order, each with its descriptor. */
  function BuildCatalogue(keys: seq<string>, def: string -> Option<OperatorDef>): (c: Catalogue)
    requires forall i | 0 <= i < |keys| :: def(keys[i]).Some?
    ensures Assoc.Keys(c) == keys
    ensures forall i | 0 <= i < |keys| :: c[i].1 == def(keys[i]).value
  {
    seq(|keys|, i requires 0 <= i < |keys| => (keys[i], def(keys[i]).value))
  }

  /** A builder with one argument: check it against `t`, then render it. */
  function Unary(name: string, v: Value, t: DynamicValueType): (r: Result<OperatorResult, Error>)
    ensures r.Success? <==> Argument.Admits(t, v)
    ensures r.Success? ==> r.value == (name, [Argument.ToDict(Argument.Argument(v, t))])
    ensures r.Failure? ==> Argument.ValidateType(v, t) == Fail(r.error)
  {
    var a :- Argument.Render(v, t);
    Success((name, [a]))
  }

  /** A builder with two arguments, checked first to last. */
  function Binary(name: string, a: Value, ta: DynamicValueType, b: Value, tb: DynamicValueType): (r: Result<OperatorResult, Error>)
    ensures r.Success? <==> Argument.Admits(ta, a) && Argument.Admits(tb, b)
    ensures r.Success? ==> r.value == (name, [Argument.ToDict(Argument.Argument(a, ta)), Argument.ToDict(Argument.Argument(b, tb))])
    ensures r.Failure? && !Argument.Admits(ta, a) ==> Argument.ValidateType(a, ta) == Fail(r.error)
    ensures r.Failure? && Argument.Admits(ta, a) ==> Argument.ValidateType(b, tb) == Fail(r.error)
  {
    var x :- Argument.Render(a, ta);
    var y :- Argument.Render(b, tb);
    Success((name, [x, y]))
  }

  /** `items.map(v => new Argument(v, t).toDict())`: stops at the first
      element that fails its check; otherwise renders every element in order. */
  function RenderEach(items: seq<Value>, t: DynamicValueType): (r: Result<seq<Value>, Error>)
    ensures r.Success? <==> forall i | 0 <= i < |items| :: Argument.Admits(t, items[i])
    ensures r.Success? ==> |r.value| == |items|
    ensures r.Success? ==> forall i | 0 <= i < |items| :: r.value[i] == Argument.ToDict(Argument.Argument(items[i], t))
    ensures r.Failure? ==> exists i | 0 <= i < |items| ::
      && (forall j | 0 <= j < i :: Argument.Admits(t, items[j]))
      && Argument.ValidateType(items[i], t) == Fail(r.error)
    decreases |items|
  {
    if |items| == 0 then Success([])
    else
      var head :- Argument.Render(items[0], t);
      var tail :- RenderEach(items[1..], t);
      Success([head] + tail)
  }

  function NotAListMessage(d: DynamicValue): string {
    "Dynamic value '" + d.name + "' has type " + DynamicValueTypeWire(d.valueType) + ", but list was expected"
  }

  /** `param.map` on a value that is not an array. */
  function NoMapError(param: string, v: Value): Error {
    if v.Null? || v.Undefined? then
      Error(RuntimeTypeError, "Cannot read properties of " + ToJsString(v) + " (reading 'map')")
    else Error(RuntimeTypeError, param + ".map is not a function")
  }

  /** The builders whose argument is a whole list: a dynamic value must be of
      type LIST; a literal array is rendered element by element against
      `elementType` and passed as one array argument. `param` is the source's
      parameter name, which a JavaScript TypeError message quotes. */
  function ListArgument(name: string, param: string, v: Value, elementType: DynamicValueType): (r: Result<OperatorResult, Error>)
    ensures v.Dyn? ==> (r.Success? <==> v.dv.valueType == DynamicValueType.LIST)
    ensures v.Dyn? && r.Failure? ==> r.error == Error(TypeMismatchError, NotAListMessage(v.dv))
    ensures v.Dyn? && r.Success? ==> r.value.0 == name && |r.value.1| == 1 && r.value.1[0] == Argument.ToDict(Argument.Argument(v, DynamicValueType.LIST))
    ensures v.Arr? ==> (r.Success? <==> forall i | 0 <= i < |v.items| :: Argument.Admits(elementType, v.items[i]))
    ensures v.Arr? && r.Success? ==> r.value.0 == name && |r.value.1| == 1 && r.value.1[0].Arr? && |r.value.1[0].items| == |v.items|
    ensures v.Arr? && r.Success? ==> forall i | 0 <= i < |v.items| :: r.value.1[0].items[i] == Argument.ToDict(Argument.Argument(v.items[i], elementType))
    ensures !v.Dyn? && !v.Arr? ==> r == Failure(NoMapError(param, v))
  {
    match v
    case Dyn(d) =>
      if d.valueType != DynamicValueType.LIST then Failure(Error(TypeMismatchError, NotAListMessage(d)))
      // the argument's own check passes here: the type was just compared
      else Success((name, [Argument.ToDict(Argument.Argument(v, DynamicValueType.LIST))]))
    case Arr(items) =>
      var rendered :- RenderEach(items, elementType);
      Success((name, [Arr(rendered)]))
    case _ => Failure(NoMapError(param, v))
  }

  /** Descriptor shorthands for the catalogues. */
  function NoArgs(name: string, description: string): OperatorDef {
    OperatorDef(name, [], Some(description), None, None)
  }

  function WithArgs(name: string, args: seq<OperatorArg>): OperatorDef {
    OperatorDef(name, args, None, None, None)
  }

  function Arg(name: string, argType: string, description: string): OperatorArg {
    OperatorArg(name, argType, description, None, None)
  }

  /** An operator's name, arguments and description, for the operators
      that neither skip the type check nor carry a validator. */
  type Descriptor = (string, seq<OperatorArg>, Option<string>)

  function Described(name: string, description: string): Descriptor {
    (name, [], Some(description))
  }

  function Undescribed(name: string, args: seq<OperatorArg>): Descriptor {
    (name, args, None)
  }

  function PlainOperator(d: Descriptor): (o: OperatorDef)
    ensures o.skipTypecheck.None? && o.validate.None?
  {
    OperatorDef(d.0, d.1, d.2, None, None)
  }

  /** A builder's result matches the catalogue entry `def`: it carries the
      entry's display name and one value per declared argument. */
  predicate Matches(def: Option<OperatorDef>, r: OperatorResult) {
    def.Some? && r.0 == def.value.name && |r.1| == |def.value.args|
  }

  /** The universal `any` operator every catalogue opens with. */
  function AnyOperator(description: string): OperatorDef {
    OperatorDef("any", [], Some(description), None, Some(true))
  }

  /** `op.validate(args)` for an operator-level validator. */
  predicate RunCheck(c: OperatorCheck, args: seq<Value>) {
    match c
    case StartBeforeEnd => |args| >= 2 && LessThan(args[0], args[1])
    case PositiveBase => |args| >= 1 && GreaterThanZero(args[0])
  }

  /** `!(op.validate && !op.validate(args))`: an operator without a validator passes. */
  predicate PassesCheck(def: OperatorDef, args: seq<Value>) {
    def.validate.None? || RunCheck(def.validate.value, args)
  }

  /** `!(arg.validate && !arg.validate(value))` for an argument-level validator. */
  function PassesArgumentCheck(arg: OperatorArg, v: Value): Result<bool, Error> {
    match arg.validate
    case None => Success(true)
    case Some(NonEmptyLength) => HasPositiveLength(v)
  }
}
