/** The parts of JavaScript's runtime semantics the Forge code relies on:
    `typeof`, truthiness, string conversion (`String(v)` and template
    interpolation), `Array.prototype.join`, `.length`, and the numeric
    coercion a relational comparison with a number performs. */
module Js {
  import opened Wrappers
  import opened Types
  import Assoc

  /** `typeof v`. A `null`, a `Date`, an array, a plain object and a
      `DynamicValue` instance are all "object". */
  function TypeOf(v: Value): string {
    match v
    case Undefined => "undefined"
    case Bool(_) => "boolean"
    case Num(_) => "number"
    case Str(_) => "string"
    case _ => "object"
  }

  predicate IsArray(v: Value) {
    v.Arr?
  }

  /** Whether `v` counts as true in a condition. */
  predicate Truthy(v: Value) {
    match v
    case Undefined => false
    case Null => false
    case Bool(b) => b
    case Num(n) => n != 0
    case Str(s) => s != ""
    case _ => true
  }

  function DigitChar(d: int): char
    requires 0 <= d < 10
  {
    "0123456789"[d]
  }

  function NatToString(n: nat): (s: string)
    ensures |s| >= 1
    decreases n
  {
    if n < 10 then [DigitChar(n)] else NatToString(n / 10) + [DigitChar(n % 10)]
  }

  /** Different numbers print differently. */
  lemma {:induction false} NatToStringInjective(a: nat, b: nat)
    requires NatToString(a) == NatToString(b)
    ensures a == b
    decreases a
  {
    var s := NatToString(a);
    if a >= 10 && b >= 10 {
      assert NatToString(a / 10) == s[..|s| - 1] == NatToString(b / 10);
      assert DigitChar(a % 10) == s[|s| - 1] == DigitChar(b % 10);
      NatToStringInjective(a / 10, b / 10);
    }
  }

  /** The decimal text of an integer, as `${n}` prints it. */
  function IntToString(n: int): string {
    if n < 0 then "-" + NatToString(-n) else NatToString(n)
  }

  /** `String(v)`. An array prints as its elements joined by ",", where
      `null` and `undefined` elements print as nothing; a plain object and a
      `DynamicValue` print as "[object Object]"; a `Date` prints its
      `toString()` text. */
  function ToJsString(v: Value): string
    decreases v, 1
  {
    match v
    case Undefined => "undefined"
    case Null => "null"
    case Bool(b) => if b then "true" else "false"
    case Num(n) => IntToString(n)
    case Str(s) => s
    case Date(_, text) => text
    case Arr(items) => JoinItems(items, ",", v)
    case Obj(_) => "[object Object]"
    case Dyn(_) => "[object Object]"
  }

  /** One element as `join` prints it. */
  function JoinElement(e: Value): string
    decreases e, 2
  {
    if e.Undefined? || e.Null? then "" else ToJsString(e)
  }

  /** `items.join(sep)`; `whole` is the array the items come from, for termination. */
  function JoinItems(items: seq<Value>, sep: string, ghost whole: Value): string
    requires forall i | 0 <= i < |items| :: items[i] < whole
    decreases whole, 0, |items|
  {
    if |items| == 0 then ""
    else if |items| == 1 then JoinElement(items[0])
    else JoinItems(items[..|items| - 1], sep, whole) + sep + JoinElement(items[|items| - 1])
  }

  /** `parts.join(sep)` for strings. */
  function Join(parts: seq<string>, sep: string): string {
    if |parts| == 0 then ""
    else if |parts| == 1 then parts[0]
    else Join(parts[..|parts| - 1], sep) + sep + parts[|parts| - 1]
  }

  predicate IsDigit(c: char) {
    '0' <= c <= '9'
  }

  function DigitsValue(s: string): nat
    requires forall i | 0 <= i < |s| :: IsDigit(s[i])
  {
    if |s| == 0 then 0
    else
      assert IsDigit(s[|s| - 1]);
      10 * DigitsValue(s[..|s| - 1]) + (s[|s| - 1] as int - '0' as int)
  }

  /** The number a relational comparison with a number converts `v` to, or
      `None` for NaN. A string converts when it is empty or all decimal digits;
      an array converts through its string form; a `Date` converts to its
      `valueOf()`; a plain object and a `DynamicValue` print as
      "[object Object]", which is NaN. */
  function LooseNumber(v: Value): Option<int> {
    match v
    case Undefined => None
    case Null => Some(0)
    case Bool(b) => Some(if b then 1 else 0)
    case Num(n) => Some(n)
    case Str(s) => StringNumber(s)
    case Arr(_) => StringNumber(ToJsString(v))
    case Date(time, _) => time
    case _ => None
  }

  function StringNumber(s: string): Option<int> {
    if forall i | 0 <= i < |s| :: IsDigit(s[i]) then Some(DigitsValue(s)) else None
  }

  /** `v > 0`. */
  predicate GreaterThanZero(v: Value) {
    var n := LooseNumber(v);
    n.Some? && n.value > 0
  }

  /** `a < b`; only ever applied to two numbers. */
  predicate LessThan(a: Value, b: Value) {
    var x, y := LooseNumber(a), LooseNumber(b);
    x.Some? && y.Some? && x.value < y.value
  }

  /** `v.length`: the length of a string or an array, a plain object's own
      `length` property, `undefined` on anything else, and a TypeError for
      `null` and `undefined`. */
  function Length(v: Value): (r: Result<Value, Error>)
    ensures r.Failure? <==> v.Null? || v.Undefined?
    ensures r.Failure? ==> r.error.kind == RuntimeTypeError
    ensures v.Str? ==> r == Success(Num(|v.s|))
    ensures v.Arr? ==> r == Success(Num(|v.items|))
    ensures v.Obj? && "length" in Assoc.Keys(v.entries) ==> r == Success(Assoc.Get(v.entries, "length").value)
    ensures v.Obj? && "length" !in Assoc.Keys(v.entries) ==> r == Success(Undefined)
    ensures v.Bool? || v.Num? || v.Date? || v.Dyn? ==> r == Success(Undefined)
  {
    match v
    case Undefined => Failure(Error(RuntimeTypeError, "Cannot read properties of undefined (reading 'length')"))
    case Null => Failure(Error(RuntimeTypeError, "Cannot read properties of null (reading 'length')"))
    case Str(s) => Success(Num(|s|))
    case Arr(items) => Success(Num(|items|))
    case Obj(entries) =>
      (match Assoc.Get(entries, "length")
       case Some(x) => Success(x)
       case None => Success(Undefined))
    case _ => Success(Undefined)
  }

  /** `value.length > 0`, as the argument validators of the catalogues run it. */
  function HasPositiveLength(v: Value): (r: Result<bool, Error>)
    ensures r.Failure? <==> v.Null? || v.Undefined?
    ensures r.Success? ==> (r.value <==> GreaterThanZero(Length(v).value))
  {
    var len :- Length(v);
    Success(GreaterThanZero(len))
  }

  /** `s.toUpperCase()` on ASCII letters. */
  function AsciiUpper(s: string): (r: string)
    ensures |r| == |s|
    ensures forall i | 0 <= i < |r| :: !('a' <= r[i] <= 'z')
    ensures forall i | 0 <= i < |s| :: !('a' <= s[i] <= 'z') ==> r[i] == s[i]
    ensures forall i | 0 <= i < |s| :: 'a' <= s[i] <= 'z' ==> r[i] as int == s[i] as int - 32
  {
    if |s| == 0 then ""
    else
      var c := s[0];
      [if 'a' <= c <= 'z' then (c as int - 32) as char else c] + AsciiUpper(s[1..])
  }
}
