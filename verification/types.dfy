/** The shared shapes of the Forge builder: the two type enums with their
    wire strings, the JavaScript values the builder passes around, the field
    and operator-descriptor records, and the error classes. */
module Types {
  import opened Wrappers

  /** The value types an operator argument or a dynamic value may have. */
  datatype DynamicValueType = STRING | NUMBER | BOOLEAN | DATE | LIST | FUNCTION | OBJECT

  function DynamicValueTypeWire(t: DynamicValueType): string {
    match t
    case STRING => "string"
    case NUMBER => "number"
    case BOOLEAN => "boolean"
    case DATE => "date"
    case LIST => "list"
    case FUNCTION => "function"
    case OBJECT => "object"
  }

  /** The types a rule's request or response field may have. */
  datatype RuleType = BOOLEAN | NUMBER | STRING | DATE | LIST | FUNCTION

  function RuleTypeWire(t: RuleType): string {
    match t
    case BOOLEAN => "boolean"
    case NUMBER => "number"
    case STRING => "string"
    case DATE => "date"
    case LIST => "list"
    case FUNCTION => "function"
  }

  /** The `DynamicValueType` member whose wire string a `RuleType` member shares. */
  function RuleTypeAsDynamic(t: RuleType): DynamicValueType {
    match t
    case BOOLEAN => DynamicValueType.BOOLEAN
    case NUMBER => DynamicValueType.NUMBER
    case STRING => DynamicValueType.STRING
    case DATE => DynamicValueType.DATE
    case LIST => DynamicValueType.LIST
    case FUNCTION => DynamicValueType.FUNCTION
  }

  lemma DynamicValueTypeWireDistinct(a: DynamicValueType, b: DynamicValueType)
    ensures DynamicValueTypeWire(a) == DynamicValueTypeWire(b) <==> a == b
  {
  }

  lemma RuleTypeWireDistinct(a: RuleType, b: RuleType)
    ensures RuleTypeWire(a) == RuleTypeWire(b) <==> a == b
  {
  }

  /** Every rule type's wire string is a dynamic-value type's wire string, and
      OBJECT is the one dynamic-value type with no rule-type counterpart. */
  lemma RuleTypesEmbedInDynamicTypes(t: RuleType, d: DynamicValueType)
    ensures DynamicValueTypeWire(RuleTypeAsDynamic(t)) == RuleTypeWire(t)
    ensures (exists u: RuleType :: RuleTypeWire(u) == DynamicValueTypeWire(d)) <==> d != DynamicValueType.OBJECT
  {
    if d != DynamicValueType.OBJECT {
      var u: RuleType := match d
        case STRING => RuleType.STRING
        case NUMBER => RuleType.NUMBER
        case BOOLEAN => RuleType.BOOLEAN
        case DATE => RuleType.DATE
        case LIST => RuleType.LIST
        case FUNCTION => RuleType.FUNCTION;
      assert RuleTypeWire(u) == DynamicValueTypeWire(d);
    }
  }

  /** A reference to a value the remote engine resolves at evaluation time
      (the `DynamicValue` class; its methods live in module `Values`).
      Both parts are fixed at construction: the datatype has no setters. */
  datatype DynamicValue = DynamicValue(name: string, valueType: DynamicValueType)

  /** The JavaScript values the builder receives and emits (`any` in the source).
      Numbers are unbounded integers. A `Date` instance carries what its
      `valueOf()` returns, the milliseconds since the epoch (`None` for an
      invalid date, whose value is NaN), and the text `String(date)` prints,
      which depends on the host's time zone and so is an input. `Dyn` is a
      `DynamicValue` instance. */
  datatype Value =
    | Undefined
    | Null
    | Bool(b: bool)
    | Num(n: int)
    | Str(s: string)
    | Date(time: Option<int>, text: string)
    | Arr(items: seq<Value>)
    | Obj(entries: seq<(string, Value)>)
    | Dyn(dv: DynamicValue)

  /** A value with no `DynamicValue` instance anywhere inside it: plain wire data. */
  predicate NoDyn(v: Value) {
    match v
    case Dyn(_) => false
    case Arr(items) => forall i | 0 <= i < |items| :: NoDyn(items[i])
    case Obj(entries) => forall i | 0 <= i < |entries| :: NoDyn(entries[i].1)
    case _ => true
  }

  /** A builder's output: the operator's display name and its rendered arguments. */
  type OperatorResult = (string, seq<Value>)

  /** Per-operator validators, as data (the source embeds them as closures). */
  datatype OperatorCheck =
    | StartBeforeEnd   // args[0] < args[1]
    | PositiveBase     // args[0] > 0

  /** Per-argument validators, as data. */
  datatype ArgumentCheck = NonEmptyLength   // value.length > 0

  datatype OperatorArg = OperatorArg(
    name: string,
    argType: string,
    description: string,
    placeholder: Option<string>,
    validate: Option<ArgumentCheck>)

  datatype OperatorDef = OperatorDef(
    name: string,
    args: seq<OperatorArg>,
    description: Option<string>,
    validate: Option<OperatorCheck>,
    skipTypecheck: Option<bool>)

  /** An operator catalogue: operator key to descriptor, in declaration order. */
  type Catalogue = seq<(string, OperatorDef)>

  /** A typed slot of a request or response schema. Fields built by the
      `add*Field` operations carry their type's catalogue; fields rebuilt
      from a wire payload carry an empty one. */
  datatype Field = Field(
    name: string,
    description: string,
    defaultValue: Value,
    operators: Catalogue,
    fieldType: RuleType)

  /** The error classes: the two declared ones, a plain `Error`, and the
      engine's `TypeError` for a property read on `undefined`/`null` or a call
      of a missing method. */
  datatype ErrorKind = TypeMismatchError | DynamicValueNotFoundError | PlainError | RuntimeTypeError

  datatype Error = Error(kind: ErrorKind, message: string)

  /** The `name` property an error of each class carries. */
  function ErrorName(k: ErrorKind): string {
    match k
    case TypeMismatchError => "TypeMismatchError"
    case DynamicValueNotFoundError => "DynamicValueNotFoundError"
    case PlainError => "Error"
    case RuntimeTypeError => "TypeError"
  }

  lemma ErrorNamesDistinct(a: ErrorKind, b: ErrorKind)
    ensures ErrorName(a) == ErrorName(b) <==> a == b
  {
  }
}
