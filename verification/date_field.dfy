/** The `DateField` class: its catalogue and builders. A date argument is
    checked against DATE, which a literal passes when its `typeof` is
    "object": a `Date`, but also `null`, an array or a plain object, while a
    date written as a string is refused. */
module DateField {
  import opened Wrappers
  import opened Types
  import opened Operators
  import Argument
  import Assoc
  import Js

  const Keys: seq<string> := [
    "any", "is_past", "is_future", "days_ago", "less_than_days_ago",
    "more_than_days_ago", "days_from_now", "less_than_days_from_now", "more_than_days_from_now", "is_today",
    "is_this_week", "is_this_month", "is_this_year", "is_next_week", "is_next_month",
    "is_next_year", "is_last_week", "is_last_month", "is_last_year", "after",
    "on_or_after", "before", "on_or_before", "between", "not_between"]

  /** Every date operator but `any`: none has a validator or skips the type check. */
  function Plain(key: string): Option<Descriptor> {
    if key == "is_past" then Some(Described("is in the past", "Date is in the past"))
    else if key == "is_future" then Some(Described("is in the future", "Date is in the future"))
    else if key == "days_ago" then Some(Undescribed("days ago", [Arg("days", "number", "Number of days ago that the date is equal to")]))
    else if key == "less_than_days_ago" then Some(Undescribed("is less than N days ago", [Arg("days", "number", "Number of days ago that the date is less than or equal to")]))
    else if key == "more_than_days_ago" then Some(Undescribed("is more than N days ago", [Arg("days", "number", "Number of days ago that the date is more than or equal to")]))
    else if key == "days_from_now" then Some(Undescribed("days from now", [Arg("days", "number", "Number of days from now that the date is equal to")]))
    else if key == "less_than_days_from_now" then Some(Undescribed("is less than N days from now", [Arg("days", "number", "Number of days from now that the date is less than or equal to")]))
    else if key == "more_than_days_from_now" then Some(Undescribed("is more than N days from now", [Arg("days", "number", "Number of days from now that the date is more than or equal to")]))
    else if key == "is_today" then Some(Described("is today", "Date is today"))
    else if key == "is_this_week" then Some(Described("is this week", "Date is in the current week"))
    else if key == "is_this_month" then Some(Described("is this month", "Date is in the current month"))
    else if key == "is_this_year" then Some(Described("is this year", "Date is in the current year"))
    else if key == "is_next_week" then Some(Described("is next week", "Date is in the next week"))
    else if key == "is_next_month" then Some(Described("is next month", "Date is in the next month"))
    else if key == "is_next_year" then Some(Described("is next year", "Date is in the next year"))
    else if key == "is_last_week" then Some(Described("is last week", "Date is in the previous week"))
    else if key == "is_last_month" then Some(Described("is last month", "Date is in the previous month"))
    else if key == "is_last_year" then Some(Described("is last year", "Date is in the previous year"))
    else if key == "after" then Some(Undescribed("after", [Arg("date", "date", "Date that value must be after")]))
    else if key == "on_or_after" then Some(Undescribed("on or after", [Arg("date", "date", "Date that value must be on or after")]))
    else if key == "before" then Some(Undescribed("before", [Arg("date", "date", "Date that value must be before")]))
    else if key == "on_or_before" then Some(Undescribed("on or before", [Arg("date", "date", "Date that value must be on or before")]))
    else if key == "between" then
      Some(Undescribed("between", [OperatorArg("start", "date", "Date that value must be after", Some("From"), None),
                                OperatorArg("end", "date", "Date that value must be before", Some("To"), None)]))
    else if key == "not_between" then
      Some(Undescribed("not between", [OperatorArg("start", "date", "Date that value must be before", Some("From"), None),
                                    OperatorArg("end", "date", "Date that value must be after", Some("To"), None)]))
    else None
  }

  function Def(key: string): Option<OperatorDef> {
    if key == "any" then Some(AnyOperator("Match any date value"))
    else match Plain(key)
      case Some(d) => Some(PlainOperator(d))
      case None => None
  }

  function OpName(key: string): string {
    match Def(key)
    case Some(d) => d.name
    case None => ""
  }

  function Catalogue(): Catalogue {
    BuildCatalogue(Keys, Def)
  }

  /** A JavaScript `Date` object. */
  type DateValue = v: Value | v.Date? witness Date(None, "Invalid Date")

  /** `new DateField(name, description, defaultValue)`: a missing default
      becomes `now`, the `new Date()` of the moment of construction. A `Date`
      object is always truthy, so a given default, valid or not, is kept. */
  function New(name: string, description: string, defaultValue: Option<DateValue>, now: DateValue): (f: Field)
    ensures f.fieldType == RuleType.DATE && f.defaultValue.Date?
    ensures defaultValue.Some? ==> f.defaultValue == defaultValue.value
    ensures defaultValue.None? ==> f.defaultValue == now
    ensures f.name == name && f.description == description && f.operators == Catalogue()
  {
    Field(name, description, defaultValue.GetOr(now), Catalogue(), RuleType.DATE)
  }

  /** What a one-argument builder promises: it succeeds exactly when `t`
      admits the argument, and then emits the catalogue's name for `key`
      with the one rendered argument. */
  predicate OneArgument(key: string, t: DynamicValueType, v: Value, r: Result<OperatorResult, Error>) {
    && (r.Success? <==> Argument.Admits(t, v))
    && (r.Success? ==> r.value == (OpName(key), [Argument.ToDict(Argument.Argument(v, t))]))
    && (r.Success? ==> Matches(Def(key), r.value))
    && (r.Failure? ==> r.error.kind == TypeMismatchError)
  }

  function IsPast(): (r: OperatorResult)
    ensures Matches(Def("is_past"), r)
  {
    ("is in the past", [])
  }

  function IsFuture(): (r: OperatorResult)
    ensures Matches(Def("is_future"), r)
  {
    ("is in the future", [])
  }

  function DaysAgo(days: Value): (r: Result<OperatorResult, Error>)
    ensures OneArgument("days_ago", DynamicValueType.NUMBER, days, r)
  {
    Unary("days ago", days, DynamicValueType.NUMBER)
  }

  function LessThanDaysAgo(days: Value): (r: Result<OperatorResult, Error>)
    ensures OneArgument("less_than_days_ago", DynamicValueType.NUMBER, days, r)
  {
    Unary("is less than N days ago", days, DynamicValueType.NUMBER)
  }

  function MoreThanDaysAgo(days: Value): (r: Result<OperatorResult, Error>)
    ensures OneArgument("more_than_days_ago", DynamicValueType.NUMBER, days, r)
  {
    Unary("is more than N days ago", days, DynamicValueType.NUMBER)
  }

  function DaysFromNow(days: Value): (r: Result<OperatorResult, Error>)
    ensures OneArgument("days_from_now", DynamicValueType.NUMBER, days, r)
  {
    Unary("days from now", days, DynamicValueType.NUMBER)
  }

  function LessThanDaysFromNow(days: Value): (r: Result<OperatorResult, Error>)
    ensures OneArgument("less_than_days_from_now", DynamicValueType.NUMBER, days, r)
  {
    Unary("is less than N days from now", days, DynamicValueType.NUMBER)
  }

  function MoreThanDaysFromNow(days: Value): (r: Result<OperatorResult, Error>)
    ensures OneArgument("more_than_days_from_now", DynamicValueType.NUMBER, days, r)
  {
    Unary("is more than N days from now", days, DynamicValueType.NUMBER)
  }

  function IsToday(): (r: OperatorResult)
    ensures Matches(Def("is_today"), r)
  {
    ("is today", [])
  }

  function IsThisWeek(): (r: OperatorResult)
    ensures Matches(Def("is_this_week"), r)
  {
    ("is this week", [])
  }

  function IsThisMonth(): (r: OperatorResult)
    ensures Matches(Def("is_this_month"), r)
  {
    ("is this month", [])
  }

  function IsThisYear(): (r: OperatorResult)
    ensures Matches(Def("is_this_year"), r)
  {
    ("is this year", [])
  }

  function IsNextWeek(): (r: OperatorResult)
    ensures Matches(Def("is_next_week"), r)
  {
    ("is next week", [])
  }

  function IsNextMonth(): (r: OperatorResult)
    ensures Matches(Def("is_next_month"), r)
  {
    ("is next month", [])
  }

  function IsNextYear(): (r: OperatorResult)
    ensures Matches(Def("is_next_year"), r)
  {
    ("is next year", [])
  }

  function IsLastWeek(): (r: OperatorResult)
    ensures Matches(Def("is_last_week"), r)
  {
    ("is last week", [])
  }

  function IsLastMonth(): (r: OperatorResult)
    ensures Matches(Def("is_last_month"), r)
  {
    ("is last month", [])
  }

  function IsLastYear(): (r: OperatorResult)
    ensures Matches(Def("is_last_year"), r)
  {
    ("is last year", [])
  }

  function After(date: Value): (r: Result<OperatorResult, Error>)
    ensures OneArgument("after", DynamicValueType.DATE, date, r)
  {
    Unary("after", date, DynamicValueType.DATE)
  }

  function OnOrAfter(date: Value): (r: Result<OperatorResult, Error>)
    ensures OneArgument("on_or_after", DynamicValueType.DATE, date, r)
  {
    Unary("on or after", date, DynamicValueType.DATE)
  }

  function Before(date: Value): (r: Result<OperatorResult, Error>)
    ensures OneArgument("before", DynamicValueType.DATE, date, r)
  {
    Unary("before", date, DynamicValueType.DATE)
  }

  function OnOrBefore(date: Value): (r: Result<OperatorResult, Error>)
    ensures OneArgument("on_or_before", DynamicValueType.DATE, date, r)
  {
    Unary("on or before", date, DynamicValueType.DATE)
  }

  /** `between(start, end)`: both bounds checked against DATE, start first;
      unlike the number version there is no range check. */
  function Between(start: Value, end: Value): (r: Result<OperatorResult, Error>)
    ensures r.Success? <==> Argument.Admits(DynamicValueType.DATE, start) && Argument.Admits(DynamicValueType.DATE, end)
    ensures r.Success? ==> Matches(Def("between"), r.value)
    ensures r.Success? ==> r.value == (OpName("between"), [Argument.ToDict(Argument.Argument(start, DynamicValueType.DATE)),
                                                          Argument.ToDict(Argument.Argument(end, DynamicValueType.DATE))])
    ensures r.Failure? ==> r.error.kind == TypeMismatchError
  {
    Binary("between", start, DynamicValueType.DATE, end, DynamicValueType.DATE)
  }

  /** A date given as a string is refused, naming the string and its type. */
  lemma StringDateRefused(s: string)
    ensures After(Str(s)) == Failure(Error(TypeMismatchError, "Value " + s + " has type string, but date was expected"))
  {
    assert Js.ToJsString(Str(s)) == s && Js.TypeOf(Str(s)) == "string";
    assert DynamicValueTypeWire(DynamicValueType.DATE) == "date";
    assert !Argument.Admits(DynamicValueType.DATE, Str(s));
    assert Argument.TypeMismatchMessage(Str(s), DynamicValueType.DATE) == "Value " + s + " has type string, but date was expected";
  }

  /** `null` and a dynamic DATE value are accepted, and a `Date` is passed
      through as it is. */
  lemma DateArgumentShapes(d: DynamicValue, time: Option<int>, text: string)
    ensures After(Null).Success?
    ensures After(Dyn(d)).Success? <==> d.valueType == DynamicValueType.DATE
    ensures After(Date(time, text)) == Success(("after", [Date(time, text)]))
  {
  }

  /** Keys are distinct and only `any` skips the type check. */
  lemma CatalogueShape()
    ensures Assoc.UniqueKeys(Catalogue())
    ensures forall i | 0 <= i < |Catalogue()| :: Catalogue()[i].1.skipTypecheck == Some(true) <==> Catalogue()[i].0 == "any"
  {
    KeysDistinct();
    forall i | 0 <= i < |Keys| ensures Def(Keys[i]).value.skipTypecheck == Some(true) <==> Keys[i] == "any" {
      OnlyAnySkips(Keys[i]);
    }
  }

  lemma OnlyAnySkips(k: string)
    requires Def(k).Some?
    ensures Def(k).value.skipTypecheck == Some(true) <==> k == "any"
  {
  }

  lemma KeysDistinct()
    ensures forall i, j | 0 <= i < j < |Keys| :: Keys[i] != Keys[j]
  {
  }

  /** No date operator has a validator, and `not_between` is catalogued
      though no builder emits it. */
  lemma CatalogueValidators()
    ensures forall i | 0 <= i < |Catalogue()| :: Catalogue()[i].1.validate.None?
    ensures "not_between" in Assoc.Keys(Catalogue())
  {
    assert Keys[|Keys| - 1] == "not_between";
  }
}
