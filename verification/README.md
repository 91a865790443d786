# Forge rule-authoring model in Dafny

This project models the rule-authoring layer ("Forge") of the Rulebricks
Node SDK. It covers:

- typed operator arguments (`Argument`);
- the five field kinds and their operator catalogues and builders
  (`BooleanField`, `NumberField`, `DateField`, `StringField`, `ListField`);
- dynamic values (`DynamicValue`);
- decision-table conditions (`Condition`);
- the synchronous operations of a `Rule`: identity and settings, the
  request and response schemas, conditions, the test suite, the wire
  payload of `toDict`/`fromJSON`, the workspace guards, and the `toTable`
  and `toString` text views.

Everything is a pure function over immutable datatypes. A builder returns a
`Result`, whose failure carries the error class and the message the source
throws.

## Layout

| module | file | models |
|---|---|---|
| `Wrappers` | wrappers.dfy | `Option`, `Result`, `Outcome` |
| `Types` | types.dfy | enums and their wire names, the JavaScript value universe `Value`, fields, operator definitions, error classes |
| `Js` | js.dfy | `typeof`, truthiness, `String(v)`, `Array.prototype.join`, loose numeric comparison, `.length` |
| `Assoc` | assoc.dfy | insertion-ordered records: assignment, folding entries into a record, `Object.assign` |
| `Values` | values.dfy | `DynamicValue.toDict`, `getExpectedType` |
| `Argument` | argument.dfy | the type check, rendering, `Argument.process`, `toString` |
| `Operators` | operators.dfy | what all the field classes share: the catalogue builder, one- and two-argument builders, whole-list arguments |
| `BooleanField` … `ListField` | *_field.dfy | each field class's catalogue, constructor and builders |
| `Condition` | condition.dfy | `Condition` |
| `RuleIds` | rule_ids.dfy | `generateUUID`, `generateSlug`, the alias checks |
| `Rule` | rule.dfy | the `Rule` class, without its wire form and text views |
| `RuleDict` | rule_dict.dfy | `toDict`, `fromJSON`, `update`, `publish`, `fromWorkspace` |
| `RuleTable` | rule_table.dfy | `toTable`, `toString` |

## Modelling choices

- **Values.** Builder parameters are JavaScript values (`Value`). These
  include `undefined`, `null`, dates and `DynamicValue` instances, so the
  type check models the source's `typeof` and `Array.isArray` test, not a
  static type.
- **Conditions.** A condition is identified by its position in the rule's
  condition list. `when`/`any` return that position, and `ThenAt`,
  `SetPriorityAt`, `EnableAt` and `DisableAt` update the condition there.
  This stands in for the source's shared mutable `Condition` object.
- **Randomness and the clock.** The random draws behind UUIDs and slugs are
  inputs (31 hexadecimal nibbles, 10 alphabet indices), and so is the
  current instant.
- **Wire payload.** `toDict`/`fromJSON` work on a typed payload (`RuleDict`),
  not on JSON text.
- **Builders and catalogues.** Every builder's contract also states that a
  successful result agrees with its field's catalogue entry
  (`Operators.Matches`). That means the same display name, and as many
  arguments as the entry declares.

## Behaviour of the source that the model keeps

The following follow from the code as written:

- **Request entries are always undefined.** `Condition.setRequest`
  (condition.ts:16-21) stores `{ op: value.operator, args: value.args }`.
  A builder result is a two-element array, so both properties are always
  `undefined` (`Condition.SetRequest`).
- **Consequence for `toTable`.** A rule with a condition that names one of
  its request fields cannot be printed: `cond.args.join` raises a
  TypeError (`RuleTable.WhenBreaksTable`).
- **`setAlias` changes the slug, not the alias** (`Rule.SetAlias`).
- **`is_power_of` checks its base before the type check.** So a
  non-numeric string is refused with the base message, and `true` or a
  `Date` after the epoch is refused by the type check
  (`NumberField.IsPowerOf`, `NumberField.PowerOfDate`).
- **`is_included_in` runs the catalogue's length check before the type
  check.** So the empty string, a number and an object without a positive
  `length` entry are refused as an empty list. A non-empty string and an
  object such as `{length: 5}` pass that check and then fail at
  `values.map` (`StringField.IncludedInObjectLength`).
- **`null` passes every date check,** because its `typeof` is "object".
- **Every list element must be an object.** The list builders check
  elements against OBJECT, so a list of strings or numbers is refused
  (`ListField.PrimitiveElementsRefused`).
- **Catalogued operators without builders.** The date `not_between` and
  the string `is_not_included_in` have catalogue entries but no builder.
- **No field-name validation.** `when`/`then` do not check the names they
  are given against the schemas, and neither does the model.
- **`setFolder` does no lookup.** It only checks that a client is attached
  and returns the rule unchanged; `folderName` and `createIfMissing` are
  ignored (`Rule.SetFolder`).

## Model

| member | source | states |
|---|---|---|
| Types.DynamicValueTypeWireDistinct | src/forge/types.ts:3-11 | the seven dynamic value types have seven distinct wire names |
| Types.RuleTypeWireDistinct | src/forge/types.ts:13-20 | the six rule field types have six distinct wire names |
| Types.RuleTypesEmbedInDynamicTypes | src/forge/types.ts:3-20 | each rule field type shares its wire name with exactly one dynamic value type |
| Types.ErrorNamesDistinct | src/forge/types.ts:57-69 | the error classes carry distinct `name` properties |
| Values.ToDict | src/forge/values.ts:9-15 | the wire object of a dynamic value holds no dynamic value itself |
| Values.ToDictRoundTrip | src/forge/values.ts:9-15 | reading the wire object back gives the name and value type it came from |
| Values.ToDictInjective | src/forge/values.ts:9-15 | two dynamic values have the same wire object exactly when they are equal |
| Values.GetExpectedType | src/forge/values.ts:17-33 | fails with "Unknown type: function" exactly for FUNCTION |
| Values.GetExpectedTypeCollapsesOnlyListAndObject | src/forge/values.ts:17-33 | two types map to the same constructor exactly when they are equal or both are LIST/OBJECT |
| Argument.ExpectedJsType | src/forge/operators.ts:30-46 | fails exactly for FUNCTION; DATE, LIST and OBJECT expect "object"; the others expect their own wire name |
| Argument.ValidateType | src/forge/operators.ts:11-28 | passes exactly when the value is admitted (a dynamic value of the same type, or a literal whose `typeof` or array-ness fits); otherwise the TypeMismatchError message of the source |
| Argument.New | src/forge/operators.ts:7-9 | construction succeeds exactly when the type check passes, and otherwise fails with its error |
| Argument.ToDict | src/forge/operators.ts:48-53 | a dynamic value becomes its wire object, which reads back to it; a literal is passed through |
| Argument.Render | src/forge/operators.ts:7-53 | type-checks then renders: succeeds exactly when the value is admitted |
| Argument.Process | src/forge/operators.ts:55-70 | a dynamic value becomes its wire object; an array is processed element by element and a record entry by entry, in order and under the same keys; a `Date` becomes `{}`; a primitive is kept; the output holds no dynamic value |
| Argument.ProcessRendered | src/forge/operators.ts:55-70 | the output is always fully rendered, and rendered input is left unchanged |
| Argument.ProcessIdempotent | src/forge/operators.ts:55-70 | processing twice is processing once, whatever the expected types |
| Argument.ToString | src/forge/operators.ts:72-77 | a dynamic value prints as its name upper-cased between "<" and ">", with no lower-case ASCII letter inside; a literal as `String(value)` |
| Js.AsciiUpper | src/forge/operators.ts:74 | no lower-case ASCII letter survives; each is shifted by 32 and every other character is kept |
| Operators.BuildCatalogue | src/forge/operators.ts:111-207 | the catalogue lists exactly the given keys, in order, each with its definition |
| Operators.Unary | src/forge/operators.ts:209-211 | a one-argument builder succeeds exactly when its argument is admitted, and passes it rendered |
| Operators.Binary | src/forge/operators.ts:496-501 | a two-argument builder checks the first argument, then the second, and reports the first failure |
| Operators.RenderEach | src/forge/operators.ts:957-967 | renders every element, or fails with the first element that is not admitted |
| Operators.ListArgument | src/forge/operators.ts:957-967 | a dynamic list must be of type LIST; a literal array is rendered element by element; any other value fails where `.map` is looked up |
| Operators.PlainOperator | src/forge/operators.ts:307-406 | an operator built from a descriptor neither skips the type check nor has a validator |
| BooleanField.New | src/forge/operators.ts:87-96 | a BOOLEAN field with the given name, description and default, and the boolean catalogue |
| BooleanField.Equals | src/forge/operators.ts:98-101 | a truthy value selects `is true` and a falsy one `is false`, with no arguments |
| BooleanField.EqualsOnDynamicValue | src/forge/operators.ts:98-101 | a dynamic value is an object and so always selects `is true` |
| BooleanField.CatalogueShape | src/forge/operators.ts:87-96 | keys are distinct; only `any` skips the type check; no operator has a validator |
| BooleanField.EqualsMatchesCatalogue | src/forge/operators.ts:87-101 | `equals` always yields one of the two argument-free catalogue entries, `is true` for a truthy value |
| NumberField.New | src/forge/operators.ts:111-207 | a NUMBER field with the given name, description and default, and the number catalogue |
| NumberField.Equals | src/forge/operators.ts:209-211 | succeeds exactly when the number argument is admitted; the result names the `equals` entry and carries the rendered argument, the one argument the entry declares; failures are type mismatches |
| NumberField.NotEquals | src/forge/operators.ts:213-215 | succeeds exactly when the number argument is admitted; the result names the `does_not_equal` entry and carries the rendered argument, the one argument the entry declares; failures are type mismatches |
| NumberField.GreaterThan | src/forge/operators.ts:217-219 | succeeds exactly when the number argument is admitted; the result names the `greater_than` entry and carries the rendered argument, the one argument the entry declares; failures are type mismatches |
| NumberField.LessThan | src/forge/operators.ts:221-223 | succeeds exactly when the number argument is admitted; the result names the `less_than` entry and carries the rendered argument, the one argument the entry declares; failures are type mismatches |
| NumberField.GreaterThanOrEqual | src/forge/operators.ts:225-227 | succeeds exactly when the number argument is admitted; the result names the `greater_than_or_equal` entry and carries the rendered argument, the one argument the entry declares; failures are type mismatches |
| NumberField.LessThanOrEqual | src/forge/operators.ts:229-231 | succeeds exactly when the number argument is admitted; the result names the `less_than_or_equal` entry and carries the rendered argument, the one argument the entry declares; failures are type mismatches |
| NumberField.IsMultipleOf | src/forge/operators.ts:281-283 | succeeds exactly when the number argument is admitted; the result names the `is_multiple_of` entry and carries the rendered argument, the one argument the entry declares; failures are type mismatches |
| NumberField.IsNotMultipleOf | src/forge/operators.ts:285-287 | succeeds exactly when the number argument is admitted; the result names the `is_not_multiple_of` entry and carries the rendered argument, the one argument the entry declares; failures are type mismatches |
| NumberField.Range | src/forge/operators.ts:233-255 | both bounds are type-checked, then two literal bounds must satisfy start < end; success exactly for a valid range, the range message otherwise |
| NumberField.Between | src/forge/operators.ts:233-243 | succeeds exactly for a valid range; two literal numbers out of order give "Invalid range for between: …"; a success carries the catalogue entry's name and as many arguments as it declares |
| NumberField.NotBetween | src/forge/operators.ts:245-255 | succeeds exactly for a valid range; two literal numbers out of order give "Invalid range for not between: …"; a success carries the catalogue entry's name and as many arguments as it declares |
| NumberField.IsPowerOf | src/forge/operators.ts:289-297 | the positive-base check runs on a literal before the type check: success exactly for an admitted base that is dynamic or positive; a literal not greater than zero gives the base message; one that compares positive but is not a number gives a type mismatch; a success carries the catalogue entry's name and as many arguments as it declares |
| NumberField.PowerOfDate | src/forge/operators.ts:201-205 | a `Date` compares through its epoch milliseconds: one after the epoch is refused by the type check, an invalid one or one at or before the epoch gets the base message |
| NumberField.IsEven | src/forge/operators.ts:257-259 | agrees with the `is_even` catalogue entry: its display name and, as the entry declares none, no arguments |
| NumberField.IsOdd | src/forge/operators.ts:261-263 | agrees with the `is_odd` catalogue entry: its display name and, as the entry declares none, no arguments |
| NumberField.IsPositive | src/forge/operators.ts:265-267 | agrees with the `is_positive` catalogue entry: its display name and, as the entry declares none, no arguments |
| NumberField.IsNegative | src/forge/operators.ts:269-271 | agrees with the `is_negative` catalogue entry: its display name and, as the entry declares none, no arguments |
| NumberField.IsZero | src/forge/operators.ts:273-275 | agrees with the `is_zero` catalogue entry: its display name and, as the entry declares none, no arguments |
| NumberField.IsNotZero | src/forge/operators.ts:277-279 | agrees with the `is_not_zero` catalogue entry: its display name and, as the entry declares none, no arguments |
| NumberField.BetweenExamples | src/forge/operators.ts:233-243 | (5, 2) is refused and (2, 5) yields `between` with both numbers |
| NumberField.CatalogueShape | src/forge/operators.ts:111-207 | keys are distinct and only `any` skips the type check |
| NumberField.CatalogueValidators | src/forge/operators.ts:111-207 | exactly `between` and `not_between` carry the range check, and exactly `is_power_of` the base check |
| NumberField.KeysDistinct | src/forge/operators.ts:111-207 | the 18 catalogue keys are pairwise distinct |
| NumberField.Flags | src/forge/operators.ts:111-207 | for every catalogued key: it skips the type check exactly when it is `any`, carries the range check exactly when it is `between` or `not_between`, and the base check exactly when it is `is_power_of` |
| DateField.New | src/forge/operators.ts:307-406 | a DATE field with the full date catalogue whose default is the given `Date`, valid or not, or the current `Date` when none is given |
| DateField.IsPast | src/forge/operators.ts:408-410 | agrees with the `is_past` catalogue entry: its display name and, as the entry declares none, no arguments |
| DateField.IsFuture | src/forge/operators.ts:412-414 | agrees with the `is_future` catalogue entry: its display name and, as the entry declares none, no arguments |
| DateField.IsToday | src/forge/operators.ts:440-442 | agrees with the `is_today` catalogue entry: its display name and, as the entry declares none, no arguments |
| DateField.IsThisWeek | src/forge/operators.ts:444-446 | agrees with the `is_this_week` catalogue entry: its display name and, as the entry declares none, no arguments |
| DateField.IsThisMonth | src/forge/operators.ts:448-450 | agrees with the `is_this_month` catalogue entry: its display name and, as the entry declares none, no arguments |
| DateField.IsThisYear | src/forge/operators.ts:452-454 | agrees with the `is_this_year` catalogue entry: its display name and, as the entry declares none, no arguments |
| DateField.IsNextWeek | src/forge/operators.ts:456-458 | agrees with the `is_next_week` catalogue entry: its display name and, as the entry declares none, no arguments |
| DateField.IsNextMonth | src/forge/operators.ts:460-462 | agrees with the `is_next_month` catalogue entry: its display name and, as the entry declares none, no arguments |
| DateField.IsNextYear | src/forge/operators.ts:464-466 | agrees with the `is_next_year` catalogue entry: its display name and, as the entry declares none, no arguments |
| DateField.IsLastWeek | src/forge/operators.ts:468-470 | agrees with the `is_last_week` catalogue entry: its display name and, as the entry declares none, no arguments |
| DateField.IsLastMonth | src/forge/operators.ts:472-474 | agrees with the `is_last_month` catalogue entry: its display name and, as the entry declares none, no arguments |
| DateField.IsLastYear | src/forge/operators.ts:476-478 | agrees with the `is_last_year` catalogue entry: its display name and, as the entry declares none, no arguments |
| DateField.DaysAgo | src/forge/operators.ts:416-418 | succeeds exactly when the number argument is admitted; the result names the `days_ago` entry and carries the rendered argument, the one argument the entry declares; failures are type mismatches |
| DateField.LessThanDaysAgo | src/forge/operators.ts:420-422 | succeeds exactly when the number argument is admitted; the result names the `less_than_days_ago` entry and carries the rendered argument, the one argument the entry declares; failures are type mismatches |
| DateField.MoreThanDaysAgo | src/forge/operators.ts:424-426 | succeeds exactly when the number argument is admitted; the result names the `more_than_days_ago` entry and carries the rendered argument, the one argument the entry declares; failures are type mismatches |
| DateField.DaysFromNow | src/forge/operators.ts:428-430 | succeeds exactly when the number argument is admitted; the result names the `days_from_now` entry and carries the rendered argument, the one argument the entry declares; failures are type mismatches |
| DateField.LessThanDaysFromNow | src/forge/operators.ts:432-434 | succeeds exactly when the number argument is admitted; the result names the `less_than_days_from_now` entry and carries the rendered argument, the one argument the entry declares; failures are type mismatches |
| DateField.MoreThanDaysFromNow | src/forge/operators.ts:436-438 | succeeds exactly when the number argument is admitted; the result names the `more_than_days_from_now` entry and carries the rendered argument, the one argument the entry declares; failures are type mismatches |
| DateField.After | src/forge/operators.ts:480-482 | succeeds exactly when the date argument is admitted; the result names the `after` entry and carries the rendered argument, the one argument the entry declares; failures are type mismatches |
| DateField.OnOrAfter | src/forge/operators.ts:484-486 | succeeds exactly when the date argument is admitted; the result names the `on_or_after` entry and carries the rendered argument, the one argument the entry declares; failures are type mismatches |
| DateField.Before | src/forge/operators.ts:488-490 | succeeds exactly when the date argument is admitted; the result names the `before` entry and carries the rendered argument, the one argument the entry declares; failures are type mismatches |
| DateField.OnOrBefore | src/forge/operators.ts:492-494 | succeeds exactly when the date argument is admitted; the result names the `on_or_before` entry and carries the rendered argument, the one argument the entry declares; failures are type mismatches |
| DateField.Between | src/forge/operators.ts:496-501 | succeeds exactly when both dates are admitted, passing both rendered; no order check; a success carries the catalogue entry's name and as many arguments as it declares |
| DateField.StringDateRefused | src/forge/operators.ts:480-482 | a date written as a string is refused with "Value … has type string, but date was expected" |
| DateField.DateArgumentShapes | src/forge/operators.ts:480-482 | `null` passes the date check (typeof is "object"); a dynamic value passes exactly when it is a DATE; a `Date` passes through unchanged |
| DateField.CatalogueShape | src/forge/operators.ts:307-406 | keys are distinct and only `any` skips the type check |
| DateField.OnlyAnySkips | src/forge/operators.ts:307-406 | for every catalogued key, it skips the type check exactly when it is `any` |
| DateField.KeysDistinct | src/forge/operators.ts:307-406 | the 25 catalogue keys are pairwise distinct |
| DateField.CatalogueValidators | src/forge/operators.ts:307-406 | no date operator has a validator; `not_between` is catalogued though no builder produces it |
| StringField.New | src/forge/operators.ts:511-676 | a STRING field with the given name, description and default, and the string catalogue |
| StringField.Equals | src/forge/operators.ts:700-702 | succeeds exactly when the string argument is admitted; the result names the `equals` entry and carries the rendered argument, the one argument the entry declares; failures are type mismatches |
| StringField.NotEquals | src/forge/operators.ts:704-706 | succeeds exactly when the string argument is admitted; the result names the `does_not_equal` entry and carries the rendered argument, the one argument the entry declares; failures are type mismatches |
| StringField.Pattern | src/forge/operators.ts:716-776 | type check first; then for a literal the catalogue argument validator: success exactly for a non-empty or dynamic string; the empty string gives the builder's prefix message |
| StringField.Contains | src/forge/operators.ts:678-687 | succeeds exactly for a non-empty or dynamic string, naming the `contains` entry; the empty string fails with "Invalid value for contains: "; a success carries the catalogue entry's name and as many arguments as it declares |
| StringField.NotContains | src/forge/operators.ts:689-698 | succeeds exactly for a non-empty or dynamic string, naming the `does_not_contain` entry; the empty string fails with "Invalid value for does not contain: "; a success carries the catalogue entry's name and as many arguments as it declares |
| StringField.StartsWith | src/forge/operators.ts:716-725 | succeeds exactly for a non-empty or dynamic string, naming the `starts_with` entry; the empty string fails with "Invalid value for starts with: "; a success carries the catalogue entry's name and as many arguments as it declares |
| StringField.EndsWith | src/forge/operators.ts:727-736 | succeeds exactly for a non-empty or dynamic string, naming the `ends_with` entry; the empty string fails with "Invalid value for ends with: "; a success carries the catalogue entry's name and as many arguments as it declares |
| StringField.MatchesRegex | src/forge/operators.ts:756-765 | succeeds exactly for a non-empty or dynamic string, naming the `matches_regex` entry; the empty string fails with "Invalid regex pattern: "; a success carries the catalogue entry's name and as many arguments as it declares |
| StringField.NotMatchesRegex | src/forge/operators.ts:767-776 | succeeds exactly for a non-empty or dynamic string, naming the `does_not_match_regex` entry; the empty string fails with "Invalid regex pattern: "; a success carries the catalogue entry's name and as many arguments as it declares |
| StringField.IsIncludedIn | src/forge/operators.ts:738-754 | a dynamic value goes through the whole-list check; a literal array succeeds exactly when non-empty and all strings; an empty one gives "List must not be empty"; `null` and `undefined` raise a TypeError; any other literal gives "List must not be empty" when its `length` is not positive and the no-`map` TypeError when it is; a success carries the catalogue entry's name and as many arguments as it declares |
| StringField.IncludedInObjectLength | src/forge/operators.ts:571-580 | `{length: 5}` passes the length check and fails with the no-`map` TypeError; `{}` is refused as an empty list |
| StringField.IsEmpty | src/forge/operators.ts:708-710 | agrees with the `is_empty` catalogue entry: its display name and, as the entry declares none, no arguments |
| StringField.IsNotEmpty | src/forge/operators.ts:712-714 | agrees with the `is_not_empty` catalogue entry: its display name and, as the entry declares none, no arguments |
| StringField.IsEmail | src/forge/operators.ts:778-780 | agrees with the `is_valid_email` catalogue entry: its display name and, as the entry declares none, no arguments |
| StringField.IsNotEmail | src/forge/operators.ts:782-784 | agrees with the `is_not_valid_email` catalogue entry: its display name and, as the entry declares none, no arguments |
| StringField.IsUrl | src/forge/operators.ts:786-788 | agrees with the `is_valid_url` catalogue entry: its display name and, as the entry declares none, no arguments |
| StringField.IsNotUrl | src/forge/operators.ts:790-792 | agrees with the `is_not_valid_url` catalogue entry: its display name and, as the entry declares none, no arguments |
| StringField.IsIp | src/forge/operators.ts:794-796 | agrees with the `is_valid_ip` catalogue entry: its display name and, as the entry declares none, no arguments |
| StringField.IsNotIp | src/forge/operators.ts:798-800 | agrees with the `is_not_valid_ip` catalogue entry: its display name and, as the entry declares none, no arguments |
| StringField.IsUppercase | src/forge/operators.ts:802-804 | agrees with the `is_uppercase` catalogue entry: its display name and, as the entry declares none, no arguments |
| StringField.IsLowercase | src/forge/operators.ts:806-808 | agrees with the `is_lowercase` catalogue entry: its display name and, as the entry declares none, no arguments |
| StringField.IsNumeric | src/forge/operators.ts:810-812 | agrees with the `is_numeric` catalogue entry: its display name and, as the entry declares none, no arguments |
| StringField.ContainsOnlyDigits | src/forge/operators.ts:814-816 | agrees with the `contains_only_digits` catalogue entry: its display name and, as the entry declares none, no arguments |
| StringField.ContainsOnlyLetters | src/forge/operators.ts:818-820 | agrees with the `contains_only_letters` catalogue entry: its display name and, as the entry declares none, no arguments |
| StringField.ContainsOnlyDigitsAndLetters | src/forge/operators.ts:822-824 | agrees with the `contains_only_digits_and_letters` catalogue entry: its display name and, as the entry declares none, no arguments |
| StringField.PatternExamples | src/forge/operators.ts:678-687 | a dynamic STRING and "a" pass `contains`; a number is refused |
| StringField.IncludedInStringArgument | src/forge/operators.ts:738-754 | a non-empty string passes the length check and then fails at `values.map` |
| StringField.IncludedInLengthless | src/forge/operators.ts:738-754 | the empty string and a number (no length) fail with "List must not be empty" |
| StringField.KeysDistinct | src/forge/operators.ts:511-676 | the 25 catalogue keys are pairwise distinct |
| StringField.OnlyAnySkips | src/forge/operators.ts:511-676 | for every catalogued key, it skips the type check exactly when it is `any`, and none has an operator validator |
| StringField.CatalogueShape | src/forge/operators.ts:511-676 | keys are distinct and only `any` skips the type check |
| StringField.CatalogueValidators | src/forge/operators.ts:511-676 | no operator-level validator; `is_not_included_in` is catalogued though no builder produces it |
| ListField.New | src/forge/operators.ts:834-927 | a LIST field with the given name, description and default, and the list catalogue |
| ListField.ListArgumentIsWholeList | src/forge/operators.ts:957-967 | the shared whole-list builder meets the whole-list contract for every catalogue key that declares one argument |
| ListField.Contains | src/forge/operators.ts:929-931 | succeeds exactly when the object argument is admitted; the result names the `contains` entry and carries the rendered argument, the one argument the entry declares; failures are type mismatches |
| ListField.NotContains | src/forge/operators.ts:993-995 | succeeds exactly when the object argument is admitted; the result names the `does_not_contain` entry and carries the rendered argument, the one argument the entry declares; failures are type mismatches |
| ListField.LengthEquals | src/forge/operators.ts:941-943 | succeeds exactly when the number argument is admitted; the result names the `is_of_length` entry and carries the rendered argument, the one argument the entry declares; failures are type mismatches |
| ListField.LengthNotEquals | src/forge/operators.ts:945-947 | succeeds exactly when the number argument is admitted; the result names the `is_not_of_length` entry and carries the rendered argument, the one argument the entry declares; failures are type mismatches |
| ListField.LongerThan | src/forge/operators.ts:949-951 | succeeds exactly when the number argument is admitted; the result names the `is_longer_than` entry and carries the rendered argument, the one argument the entry declares; failures are type mismatches |
| ListField.ShorterThan | src/forge/operators.ts:953-955 | succeeds exactly when the number argument is admitted; the result names the `is_shorter_than` entry and carries the rendered argument, the one argument the entry declares; failures are type mismatches |
| ListField.ContainsAll | src/forge/operators.ts:957-967 | a dynamic value succeeds exactly when it is a LIST; a literal array exactly when every element is an object, rendered in order; any other literal fails at `values.map`; a success carries the catalogue entry's name and as many arguments as it declares |
| ListField.ContainsAny | src/forge/operators.ts:969-979 | a dynamic value succeeds exactly when it is a LIST; a literal array exactly when every element is an object, rendered in order; any other literal fails at `values.map`; a success carries the catalogue entry's name and as many arguments as it declares |
| ListField.ContainsNone | src/forge/operators.ts:981-991 | a dynamic value succeeds exactly when it is a LIST; a literal array exactly when every element is an object, rendered in order; any other literal fails at `values.map`; a success carries the catalogue entry's name and as many arguments as it declares |
| ListField.Equals | src/forge/operators.ts:997-1007 | a dynamic value succeeds exactly when it is a LIST; a literal array exactly when every element is an object, rendered in order; any other literal fails at `other.map`; a success carries the catalogue entry's name and as many arguments as it declares |
| ListField.NotEquals | src/forge/operators.ts:1009-1019 | a dynamic value succeeds exactly when it is a LIST; a literal array exactly when every element is an object, rendered in order; any other literal fails at `other.map`; a success carries the catalogue entry's name and as many arguments as it declares |
| ListField.IsSublistOf | src/forge/operators.ts:1043-1053 | a dynamic value succeeds exactly when it is a LIST; a literal array exactly when every element is an object, rendered in order; any other literal fails at `superlist.map`; a success carries the catalogue entry's name and as many arguments as it declares |
| ListField.IsSuperlistOf | src/forge/operators.ts:1055-1065 | a dynamic value succeeds exactly when it is a LIST; a literal array exactly when every element is an object, rendered in order; any other literal fails at `sublist.map`; a success carries the catalogue entry's name and as many arguments as it declares |
| ListField.ContainsObjectWithKeyValue | src/forge/operators.ts:1029-1037 | succeeds exactly when the key is an admitted string and the value an admitted object; passes both rendered; a success carries the catalogue entry's name and as many arguments as it declares |
| ListField.IsEmpty | src/forge/operators.ts:933-935 | agrees with the `is_empty` catalogue entry: its display name and, as the entry declares none, no arguments |
| ListField.IsNotEmpty | src/forge/operators.ts:937-939 | agrees with the `is_not_empty` catalogue entry: its display name and, as the entry declares none, no arguments |
| ListField.HasDuplicates | src/forge/operators.ts:1021-1023 | agrees with the `contains_duplicates` catalogue entry: its display name and, as the entry declares none, no arguments |
| ListField.NoDuplicates | src/forge/operators.ts:1025-1027 | agrees with the `does_not_contain_duplicates` catalogue entry: its display name and, as the entry declares none, no arguments |
| ListField.HasUniqueElements | src/forge/operators.ts:1039-1041 | agrees with the `has_unique_elements` catalogue entry: its display name and, as the entry declares none, no arguments |
| ListField.PrimitiveElementsRefused | src/forge/operators.ts:929-967 | a list of strings, or a string element, is refused, since the element type is OBJECT |
| ListField.ObjectElementsAccepted | src/forge/operators.ts:957-967 | a list of records is accepted |
| ListField.KeysDistinct | src/forge/operators.ts:834-927 | the 20 catalogue keys are pairwise distinct |
| ListField.OnlyAnySkips | src/forge/operators.ts:834-927 | for every catalogued key, it skips the type check exactly when it is `any` |
| ListField.CatalogueShape | src/forge/operators.ts:834-927 | keys are distinct, only `any` skips the type check, and no operator has a validator |
| Condition.New | src/forge/condition.ts:8-14 | empty request and response, enabled, no priority and no `any` flag |
| Condition.TupleProperty | src/forge/condition.ts:16-21 | a builder result has only `0`, `1` and `length`; every other property reads as undefined |
| Condition.SetRequest | src/forge/condition.ts:16-21 | only the request changes; its keys are those of the input, each once, and every entry is `{op: undefined, args: undefined}` |
| Condition.SetRequestOfRecord | src/forge/condition.ts:16-21 | on a record the request lists the same keys in the same order |
| Condition.Then | src/forge/condition.ts:23-29 | only the response changes; its keys are those of the input, each once |
| Condition.ThenGet | src/forge/condition.ts:23-29 | each response key carries the value of its last entry |
| Condition.ThenOfRecord | src/forge/condition.ts:23-29 | on a record the response is the input, entry for entry |
| Condition.SetPriority | src/forge/condition.ts:31-34 | sets the priority and nothing else |
| Condition.Enable | src/forge/condition.ts:36-39 | sets the enabled flag and nothing else |
| Condition.Disable | src/forge/condition.ts:41-44 | clears the enabled flag and nothing else |
| Condition.EnableDisableLastWins | src/forge/condition.ts:36-44 | the last of enable/disable decides the flag |
| Condition.RequestAndResponseIndependent | src/forge/condition.ts:16-29 | setting the request and the response commute |
| RuleIds.TemplatePlaceholders | src/forge/rule.ts:46-52 | the UUID template has 31 characters to fill |
| RuleIds.FillShape | src/forge/rule.ts:46-52 | filling keeps the length and fixed characters, puts a hex digit at each x and one of 89ab at each y |
| RuleIds.GenerateUuid | src/forge/rule.ts:46-52 | a generated id has 36 characters |
| RuleIds.UuidFormat | src/forge/rule.ts:46-52 | dashes at 8, 13, 18, 23; version digit 4 at 14; variant 8, 9, a or b at 19; lower-case hex elsewhere |
| RuleIds.GenerateSlug | src/forge/rule.ts:54-57 | one alphabet character per draw |
| RuleIds.CheckAlias | src/forge/rule.ts:96-111 | passes exactly with a client and at least three characters from a-z, A-Z, 0-9, - and _; otherwise the message of the first failing check: no client, too short, slash or space, other special character |
| RuleIds.GeneratedSlugIsValidAlias | src/forge/rule.ts:54-111 | a generated ten-character slug is itself an acceptable alias |
| Rule.New | src/forge/rule.ts:7-40 | the id is the UUID generated from the draws and the slug the generated 10-character slug; both timestamps now, author "Rulebricks Forge SDK", empty schemas, conditions, tests and groups, published schemas `[]` and groups `{}`, default settings |
| Rule.NewIdentifiers | src/forge/rule.ts:7-40 | a new rule's id has the UUID v4 shape (dashes, '4' at 14, one of 89ab at 19, hex elsewhere) and its slug is alphanumeric |
| Rule.NewSlugIsValidAlias | src/forge/rule.ts:96-111 | the slug of a new rule passes the alias check |
| Rule.SetWorkspace | src/forge/rule.ts:68-71 | attaches a client and changes nothing else |
| Rule.SetName | src/forge/rule.ts:73-77 | sets the name and draws a new alphabet slug; nothing else changes |
| Rule.SetDescription | src/forge/rule.ts:79-82 | sets the description and nothing else |
| Rule.SetFolderId | src/forge/rule.ts:91-94 | sets the folder id and nothing else |
| Rule.SetFolder | src/forge/rule.ts:84-89 | fails without a client; with one, the rule is unchanged |
| Rule.SetAlias | src/forge/rule.ts:96-111 | succeeds exactly when the alias check passes, and then sets the slug (not the alias) to it; otherwise the check's error |
| Rule.AddTo | src/forge/rule.ts:113-117 | the field is filed under its name, other names keep their fields, a new name goes last and a known name keeps its place |
| Rule.AddRequestField | src/forge/rule.ts:113-141 | the request schema gains the field, other entries and the rest of the rule are unchanged, validity is kept |
| Rule.AddResponseField | src/forge/rule.ts:181-209 | the response schema gains the field, other entries and the rest of the rule are unchanged, validity is kept |
| Rule.AddBooleanField | src/forge/rule.ts:113-117 | adds a new boolean field to the request schema and returns it |
| Rule.AddNumberField | src/forge/rule.ts:119-123 | adds a new number field to the request schema and returns it |
| Rule.AddStringField | src/forge/rule.ts:125-129 | adds a new string field to the request schema and returns it |
| Rule.AddDateField | src/forge/rule.ts:131-135 | adds a new date field to the request schema and returns it |
| Rule.AddListField | src/forge/rule.ts:137-141 | adds a new list field to the request schema and returns it |
| Rule.AddBooleanResponse | src/forge/rule.ts:181-185 | adds a new boolean field to the response schema and returns it |
| Rule.AddNumberResponse | src/forge/rule.ts:187-191 | adds a new number field to the response schema and returns it |
| Rule.AddStringResponse | src/forge/rule.ts:193-197 | adds a new string field to the response schema and returns it |
| Rule.AddDateResponse | src/forge/rule.ts:199-203 | adds a new date field to the response schema and returns it |
| Rule.AddListResponse | src/forge/rule.ts:205-209 | adds a new list field to the response schema and returns it |
| Rule.AddFieldOrder | src/forge/rule.ts:113-117 | re-adding a name keeps the key order; a new name is appended |
| Rule.EnableContinuousTesting | src/forge/rule.ts:143-146 | sets the testing flag and nothing else |
| Rule.EnableSchemaValidation | src/forge/rule.ts:148-151 | sets the schema-validation flag and nothing else |
| Rule.RequireAllProperties | src/forge/rule.ts:153-156 | sets the all-properties flag and nothing else |
| Rule.LockSchema | src/forge/rule.ts:158-161 | sets the schema-lock flag and nothing else |
| Rule.AddAccessGroup | src/forge/rule.ts:163-171 | fails without a client; otherwise appends a group not yet present and keeps duplicates out |
| Rule.RemoveAccessGroup | src/forge/rule.ts:173-179 | removes the first occurrence of the group if present; nothing else changes |
| Rule.AddThenRemoveAccessGroup | src/forge/rule.ts:163-179 | adding a new group and removing it restores the rule |
| Rule.When | src/forge/rule.ts:211-216 | appends one enabled condition with no response or priority whose request names the given keys with undefined entries; returns its position |
| Rule.Any | src/forge/rule.ts:218-225 | as `when`, with the `any` flag set |
| Rule.WhenCountsOne | src/forge/rule.ts:211-233 | `when` and `any` each add exactly one condition, at the old `getConditionCount()` |
| Rule.ThenAt | src/forge/condition.ts:23-29 | replaces the response of one condition; the others and the rest of the rule are unchanged |
| Rule.SetPriorityAt | src/forge/condition.ts:31-34 | sets the priority of one condition; the others and the rest of the rule are unchanged |
| Rule.EnableAt | src/forge/condition.ts:36-39 | enables one condition; the others and the rest of the rule are unchanged |
| Rule.DisableAt | src/forge/condition.ts:41-44 | disables one condition; the others and the rest of the rule are unchanged |
| Rule.WhenThen | src/forge/rule.ts:211-216 | `when(q).then(s)` with a record `s` stores `s` as the response and the keys of `q` as the request |
| Rule.FindTestBy | src/forge/rule.ts:252-258 | the first test whose property equals the value, or none when no test matches |
| Rule.FindTestById | src/forge/rule.ts:252-254 | finds a test exactly when some test has that id, and the one found is the first with it |
| Rule.FindTestByName | src/forge/rule.ts:256-258 | finds a test exactly when some test has that name, and the one found is the first with it |
| Rule.AddTest | src/forge/rule.ts:235-243 | a test whose id matches an existing one is merged into it with Object.assign; otherwise it is appended |
| Rule.AddTestThenFind | src/forge/rule.ts:235-254 | after adding, looking the id up finds a test carrying every property of the added one |
| Rule.FindFirst | src/forge/rule.ts:252-254 | the lookup returns the first match |
| Rule.WithoutId | src/forge/rule.ts:245-250 | keeps every test whose id differs as many times as it occurs, and no test with that id |
| Rule.WithoutIdConcat | src/forge/rule.ts:248 | filtering a concatenation filters each part, so the kept tests stay in suite order |
| Rule.WithoutIdSingle | src/forge/rule.ts:248 | a single test is kept exactly when its id differs |
| Rule.WithoutAbsentId | src/forge/rule.ts:245-250 | filtering an id no test has changes nothing |
| Rule.RemoveTest | src/forge/rule.ts:245-250 | the suite becomes the filtered suite, also when no test has the id; nothing else changes |
| Rule.AddThenRemoveTest | src/forge/rule.ts:235-250 | adding a test with a fresh id and removing that id restores the rule |
| Rule.WithoutIdAppend | src/forge/rule.ts:245-250 | filtering drops an appended test with that id |
| Rule.GetEditorUrl | src/forge/rule.ts:394-399 | fails without a client; otherwise the editor address followed by the id |
| Rule.Solve | src/forge/rule.ts:401-406 | fails without a client; otherwise sends the slug and the request |
| Rule.OperationsPreserveValid | src/forge/rule.ts:113-250 | adding fields, naming, aliasing, adding or removing tests and adding conditions keep both schemas well formed |
| RuleDict.ToSchema | src/forge/rule.ts:288-327 | one entry per field, in order, named by its key, with its type, description and default, shown |
| RuleDict.IdOrFresh | src/forge/rule.ts:288-327 | a truthy id is kept, otherwise a fresh UUID; the result is always truthy |
| RuleDict.WithId | src/forge/rule.ts:288-327 | the test with its id replaced by `IdOrFresh`; every other property unchanged |
| RuleDict.ToDict | src/forge/rule.ts:288-327 | id, name, description, slug, timestamps, author, settings, access groups, conditions and published values are carried over; schemas become entry lists; the folder id becomes the tag; `publish` is false; every test leaves with a truthy id and keeps its other properties |
| RuleDict.FromSchema | src/forge/rule.ts:338-392 | the rebuilt schema is well formed, has exactly the entry names as keys, and each name holds the field of its last entry |
| RuleDict.Normalise | src/forge/rule.ts:338-392 | a read test has exactly id, name, description, request, expectedResponse, enabled; enabled is false only for an explicit false |
| RuleDict.FromJSON | src/forge/rule.ts:338-392 | a rule without client, folder name or alias whose id, name, description, slug, folder id, timestamps, author, settings, access groups, conditions and published values come from the payload, with rebuilt schemas and normalised tests |
| RuleDict.SchemaRoundTrip | src/forge/rule.ts:288-392 | rebuilding a well-formed schema from its entries gives the same fields without operators |
| RuleDict.RoundTrip | src/forge/rule.ts:288-392 | a trip through toDict and fromJSON loses only the client, folder name, alias, operators and extra test properties |
| RuleDict.NormaliseStable | src/forge/rule.ts:288-392 | a normalised test is unchanged by a further trip |
| RuleDict.RoundTripStable | src/forge/rule.ts:288-392 | after one trip, another trip gives the same rule |
| RuleDict.Update | src/forge/rule.ts:260-268 | fails without a client; otherwise sends exactly toDict() |
| RuleDict.Publish | src/forge/rule.ts:270-278 | fails without a client; otherwise sends toDict() flagged for publishing |
| RuleDict.FromWorkspace | src/forge/rule.ts:280-286 | fails without a client; otherwise reads the exported payload with fromJSON, giving a rule without client |
| RuleTable.JoinArgs | src/forge/rule.ts:408-447 | only an array joins; undefined and null raise their TypeErrors, other values "cond.args.join is not a function" |
| RuleTable.Cell | src/forge/rule.ts:408-447 | "-" when the condition does not name the field; fails exactly when the stored args are not an array |
| RuleTable.Cells | src/forge/rule.ts:408-447 | one cell per field name, failing exactly when some named field is unprintable |
| RuleTable.ResponseCellDash | src/forge/rule.ts:408-447 | the response cell is "-" exactly when the response is empty |
| RuleTable.Row | src/forge/rule.ts:408-447 | the tag, the field cells and the response cell; fails exactly when some field is unprintable |
| RuleTable.Rows | src/forge/rule.ts:408-447 | one row per condition, failing exactly when some condition has an unprintable field |
| RuleTable.MaxLength | src/forge/rule.ts:408-447 | the largest of the lengths, attained by some element |
| RuleTable.Width | src/forge/rule.ts:408-447 | the widest of the header and the column's cells |
| RuleTable.PadEnd | src/forge/rule.ts:408-447 | the string followed by spaces up to the width |
| RuleTable.Header | src/forge/rule.ts:408-447 | "Condition", the request field names, "Response" |
| RuleTable.ToTableLines | src/forge/rule.ts:408-447 | fails exactly when some condition names a schema field whose args are not an array; the error is a TypeError |
| RuleTable.ToTable | src/forge/rule.ts:408-447 | prints exactly when the lines do; the text opens with "Condition" and is as long as (conditions + 2) lines of one width plus the newlines between them; failures are TypeErrors |
| RuleTable.JoinedTable | src/forge/rule.ts:442-446 | equally long lines joined by newlines give their total length plus one per gap, and the text starts with every prefix of the first line |
| RuleTable.JoinLength | src/forge/rule.ts:408-447 | a join is as long as its parts plus the separators |
| RuleTable.JoinStartsWith | src/forge/rule.ts:408-447 | a join begins with its first part |
| RuleTable.FormatRowLength | src/forge/rule.ts:408-447 | a formatted row is the sum of the widths plus three per column boundary, and begins with its first cell |
| RuleTable.SeparatorLength | src/forge/rule.ts:408-447 | the separator is as long as a formatted row |
| RuleTable.LayoutShape | src/forge/rule.ts:408-447 | every line has the same length and begins with its row's first cell |
| RuleTable.RowsShape | src/forge/rule.ts:408-447 | every printable row has one cell per header column and opens with its condition's tag |
| RuleTable.TableShape | src/forge/rule.ts:408-447 | whenever the table prints: two lines more than conditions, all of one length, header opening with "Condition", row i opening with #i+1 |
| RuleTable.WhenBreaksTable | src/forge/rule.ts:408-447 | a condition added by `when` that names a schema field makes the table fail |
| RuleTable.EmptyTable | src/forge/rule.ts:408-447 | a rule without conditions prints as its header and separator |
| RuleTable.ToString | src/forge/rule.ts:449-451 | the name and id quoted, then the condition count |
| RuleTable.ToStringCountsConditions | src/forge/rule.ts:449-451 | with the same name and id, the strings agree exactly when the condition counts do |

## Left out

- Network calls: the requests `update`, `publish`, `fromWorkspace` and `solve` send are not modelled. Each is modelled up to its client check and its payload; the responses are not.
- `publish` reloading the rule from the workspace after sending it: this needs the network.
- `toJSON`: the payload is typed. JSON text, `Date` ISO formatting and `undefined` properties being dropped are not modelled.
- `fromJSON` on a string or a malformed payload: JSON parsing and missing properties are not modelled.
- `getFieldType` (rule.ts:59-66): private and never called.
- `getConditions` and `Condition.getCondition`: plain accessors; the model exposes the rule's conditions directly.
- The `any()` operator of the catalogues: it is catalogued (`skipTypecheck`), but no builder produces it.
- Number literals are integers: NaN, infinities and fractional numbers are not modelled.
- `Js.LooseNumber`: converts only empty or all-digit strings; signs, decimals, exponents and whitespace are not modelled.
- String lengths count characters; JavaScript's UTF-16 code units are not modelled.
- `Js.AsciiUpper`: upper-cases ASCII letters only; Unicode case mapping is not modelled.
- Object key order is insertion order. JavaScript lists integer-like keys first; that is not modelled.
- Properties inherited through the prototype chain (a field named `constructor`, say) are not modelled.
- An `Argument` instance passed to `Argument.process`: builders never pass one, so only dynamic values, arrays, records and primitives are modelled.
- A `Date` is its `valueOf()` milliseconds and its `String(date)` text, both inputs; date arithmetic, parsing and the time zone that shapes the text are not modelled.
- Object identity: `toDict` hands out the rule's own settings, access groups and conditions (rule.ts:314-318), `fromJSON` keeps the payload's (rule.ts:350-352), and `addTest` keeps the caller's test object and merges into it with `Object.assign` (rule.ts:238-240), so later changes show through on both sides. Values here are immutable, so that sharing is not modelled.
- Rule.FindTestBy: compares property values structurally, where the source's `===` compares objects by reference; the two agree on strings, numbers, booleans, `null` and `undefined`.
- `DynamicValueNotFoundError` and the registry of named dynamic values are outside this layer; only the error class is modelled.
