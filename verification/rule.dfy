/** The `Rule` class: a rule's metadata, its request and response schemas,
    its ordered conditions and its test suite, and the synchronous
    operations that edit them. An attached workspace client is reduced to
    whether one is attached; conditions handed out by `when` and `any` are
    addressed by their position in the rule's list. */
module Rule {
  import opened Wrappers
  import opened Types
  import opened Assoc
  import opened RuleIds
  import Condition
  import BooleanField
  import NumberField
  import StringField
  import DateField
  import ListField

  /** The settings record as this class reads and writes it. */
  datatype Settings = Settings(
    testing: bool,
    schemaValidation: bool,
    requireAllProperties: bool,
    schemaLocked: bool,
    published: bool)

  const DefaultSettings := Settings(false, false, false, false, false)

  /** A test case: a plain object, looked up by its `id` and `name` properties. */
  type RuleTest = Assoc<Value>

  /** `t[k]`, which is `undefined` when the property is missing. */
  function Prop(t: RuleTest, k: string): Value {
    Get(t, k).GetOr(Undefined)
  }

  datatype Rule = Rule(
    id: string,
    name: string,
    description: string,
    folder: string,
    folderId: string,
    alias: string,
    slug: string,
    settings: Settings,
    accessGroups: seq<string>,
    hasWorkspace: bool,
    conditions: seq<Condition.RuleCondition>,
    fields: Assoc<Field>,
    responseFields: Assoc<Field>,
    testSuite: seq<RuleTest>,
    publishedRequestSchema: Value,
    publishedResponseSchema: Value,
    publishedGroups: Value,
    createdAt: string,
    updatedAt: string,
    updatedBy: string)

  const ForgeAuthor := "Rulebricks Forge SDK"

  /** A schema record: keys are distinct and each field is filed under its own name. */
  predicate SchemaValid(s: Assoc<Field>) {
    UniqueKeys(s) && forall i | 0 <= i < |s| :: s[i].1.name == s[i].0
  }

  /** What every operation here keeps: both schemas are well formed. */
  predicate Valid(r: Rule) {
    SchemaValid(r.fields) && SchemaValid(r.responseFields)
  }

  predicate NoDuplicates(s: seq<string>) {
    forall i, j | 0 <= i < j < |s| :: s[i] != s[j]
  }

  /** `new Rule(client?)`: a fresh id and slug from the given draws, both
      timestamps set to `now`, and everything else empty or off. */
  function New(uuidDraws: seq<Nibble>, slugDraws: seq<SlugDraw>, now: string, hasWorkspace: bool): (r: Rule)
    requires |uuidDraws| == 31 && |slugDraws| == SlugLength
    ensures Valid(r)
    ensures r.id == GenerateUuid(uuidDraws) && r.slug == GenerateSlug(slugDraws)
    ensures |r.id| == 36 && |r.slug| == SlugLength
    ensures r.publishedRequestSchema == Arr([]) && r.publishedResponseSchema == Arr([]) && r.publishedGroups == Obj([])
    ensures r.createdAt == now && r.updatedAt == now && r.updatedBy == ForgeAuthor
    ensures r.conditions == [] && r.fields == [] && r.responseFields == [] && r.testSuite == [] && r.accessGroups == []
    ensures r.settings == DefaultSettings && r.hasWorkspace == hasWorkspace
    ensures r.name == "" && r.description == "" && r.folder == "" && r.folderId == "" && r.alias == ""
  {
    Rule(GenerateUuid(uuidDraws), "", "", "", "", "", GenerateSlug(slugDraws), DefaultSettings, [], hasWorkspace,
         [], [], [], [], Arr([]), Arr([]), Obj([]), now, now, ForgeAuthor)
  }

  /** A freshly made rule has a UUID-v4-shaped id and an alphanumeric slug. */
  lemma NewIdentifiers(uuidDraws: seq<Nibble>, slugDraws: seq<SlugDraw>, now: string, hasWorkspace: bool)
    requires |uuidDraws| == 31 && |slugDraws| == SlugLength
    ensures var r := New(uuidDraws, slugDraws, now, hasWorkspace);
      && r.id[8] == '-' && r.id[13] == '-' && r.id[18] == '-' && r.id[23] == '-'
      && r.id[14] == '4' && r.id[19] in "89ab"
      && (forall i | 0 <= i < 36 && i !in {8, 13, 14, 18, 19, 23} :: r.id[i] in HexDigits)
      && forall i | 0 <= i < |r.slug| :: r.slug[i] in SlugAlphabet
  {
    UuidFormat(uuidDraws);
  }

  /** A freshly made rule's slug would be accepted by `setAlias`. */
  lemma NewSlugIsValidAlias(uuidDraws: seq<Nibble>, slugDraws: seq<SlugDraw>, now: string)
    requires |uuidDraws| == 31 && |slugDraws| == SlugLength
    ensures CheckAlias(true, New(uuidDraws, slugDraws, now, true).slug).Pass?
  {
    GeneratedSlugIsValidAlias(slugDraws);
  }

  function SetWorkspace(r: Rule): (r': Rule)
    ensures r'.hasWorkspace && r'.(hasWorkspace := r.hasWorkspace) == r
  {
    r.(hasWorkspace := true)
  }

  /** `setName(name)`: also draws a new slug. */
  function SetName(r: Rule, name: string, slugDraws: seq<SlugDraw>): (r': Rule)
    requires |slugDraws| == SlugLength
    ensures r'.name == name && |r'.slug| == SlugLength
    ensures forall i | 0 <= i < |r'.slug| :: r'.slug[i] in SlugAlphabet
    ensures r'.(name := r.name, slug := r.slug) == r
  {
    r.(name := name, slug := GenerateSlug(slugDraws))
  }

  function SetDescription(r: Rule, description: string): (r': Rule)
    ensures r'.description == description && r'.(description := r.description) == r
  {
    r.(description := description)
  }

  function SetFolderId(r: Rule, folderId: string): (r': Rule)
    ensures r'.folderId == folderId && r'.(folderId := r.folderId) == r
  {
    r.(folderId := folderId)
  }

  /** `setFolder(name, createIfMissing)`: refuses without a client and
      otherwise leaves the rule exactly as it was. */
  function SetFolder(r: Rule, folderName: string, createIfMissing: bool): (res: Result<Rule, Error>)
    ensures res.Success? <==> r.hasWorkspace
    ensures res.Success? ==> res.value == r
    ensures res.Failure? ==> res.error == Error(PlainError, "A Rulebricks client is required to set a folder by name")
  {
    if !r.hasWorkspace then Failure(Error(PlainError, "A Rulebricks client is required to set a folder by name"))
    else Success(r)
  }

  /** `setAlias(alias)`: after the checks pass, the alias becomes the slug;
      the `alias` property itself is never written. */
  function SetAlias(r: Rule, alias: string): (res: Result<Rule, Error>)
    ensures res.Success? <==> r.hasWorkspace && |alias| >= 3 && forall i | 0 <= i < |alias| :: AliasChar(alias[i])
    ensures res.Success? ==> res.value == r.(slug := alias)
    ensures res.Failure? ==> CheckAlias(r.hasWorkspace, alias) == Fail(res.error)
  {
    match CheckAlias(r.hasWorkspace, alias)
    case Fail(e) => Failure(e)
    case Pass => Success(r.(slug := alias))
  }

  /** `schema[f.name] = f`. */
  function AddTo(schema: Assoc<Field>, f: Field): (s: Assoc<Field>)
    ensures SchemaValid(schema) ==> SchemaValid(s)
    ensures Get(s, f.name) == Some(f)
    ensures forall k | k != f.name :: Get(s, k) == Get(schema, k)
    ensures f.name in Keys(schema) ==> Keys(s) == Keys(schema)
    ensures f.name !in Keys(schema) ==> Keys(s) == Keys(schema) + [f.name]
  {
    PutFacts(schema, f);
    Put(schema, f.name, f)
  }

  lemma PutFacts(schema: Assoc<Field>, f: Field)
    ensures SchemaValid(schema) ==> SchemaValid(Put(schema, f.name, f))
    ensures Get(Put(schema, f.name, f), f.name) == Some(f)
    ensures forall k | k != f.name :: Get(Put(schema, f.name, f), k) == Get(schema, k)
    ensures f.name !in Keys(schema) ==> Keys(Put(schema, f.name, f)) == Keys(schema) + [f.name]
  {
    var s := Put(schema, f.name, f);
    PutGet(schema, f.name, f, f.name);
    forall k | k != f.name
      ensures Get(s, k) == Get(schema, k)
    {
      PutGet(schema, f.name, f, k);
    }
    if SchemaValid(schema) {
      PutUnique(schema, f.name, f);
    }
    if f.name !in Keys(schema) {
      assert Keys(s) == Keys(schema) + [f.name];
    }
  }

  /** What each `add…Field` call promises: `f` is filed under its name in
      the request schema, replacing any field of that name in its place, and
      nothing else about the rule changes. */
  ghost predicate AddedRequestField(r: Rule, r': Rule, f: Field) {
    && Get(r'.fields, f.name) == Some(f)
    && (forall k | k != f.name :: Get(r'.fields, k) == Get(r.fields, k))
    && (Valid(r) ==> Valid(r'))
    && r'.(fields := r.fields) == r
  }

  /** The same for `add…Response` and the response schema. */
  ghost predicate AddedResponseField(r: Rule, r': Rule, f: Field) {
    && Get(r'.responseFields, f.name) == Some(f)
    && (forall k | k != f.name :: Get(r'.responseFields, k) == Get(r.responseFields, k))
    && (Valid(r) ==> Valid(r'))
    && r'.(responseFields := r.responseFields) == r
  }

  function AddRequestField(r: Rule, f: Field): (r': Rule)
    ensures AddedRequestField(r, r', f)
  {
    r.(fields := AddTo(r.fields, f))
  }

  function AddResponseField(r: Rule, f: Field): (r': Rule)
    ensures AddedResponseField(r, r', f)
  {
    r.(responseFields := AddTo(r.responseFields, f))
  }

  function AddBooleanField(r: Rule, name: string, description: string, defaultValue: bool): (res: (Rule, Field))
    ensures res.1 == BooleanField.New(name, description, defaultValue) && res.1.name == name
    ensures AddedRequestField(r, res.0, res.1)
  {
    var f := BooleanField.New(name, description, defaultValue);
    (AddRequestField(r, f), f)
  }

  function AddNumberField(r: Rule, name: string, description: string, defaultValue: int): (res: (Rule, Field))
    ensures res.1 == NumberField.New(name, description, defaultValue) && res.1.name == name
    ensures AddedRequestField(r, res.0, res.1)
  {
    var f := NumberField.New(name, description, defaultValue);
    (AddRequestField(r, f), f)
  }

  function AddStringField(r: Rule, name: string, description: string, defaultValue: string): (res: (Rule, Field))
    ensures res.1 == StringField.New(name, description, defaultValue) && res.1.name == name
    ensures AddedRequestField(r, res.0, res.1)
  {
    var f := StringField.New(name, description, defaultValue);
    (AddRequestField(r, f), f)
  }

  /** `addDateField`: a missing default becomes `now`, the current `Date`. */
  function AddDateField(r: Rule, name: string, description: string, defaultValue: Option<DateField.DateValue>, now: DateField.DateValue): (res: (Rule, Field))
    ensures res.1 == DateField.New(name, description, defaultValue, now) && res.1.name == name
    ensures AddedRequestField(r, res.0, res.1)
  {
    var f := DateField.New(name, description, defaultValue, now);
    (AddRequestField(r, f), f)
  }

  function AddListField(r: Rule, name: string, description: string, defaultValue: seq<Value>): (res: (Rule, Field))
    ensures res.1 == ListField.New(name, description, defaultValue) && res.1.name == name
    ensures AddedRequestField(r, res.0, res.1)
  {
    var f := ListField.New(name, description, defaultValue);
    (AddRequestField(r, f), f)
  }

  function AddBooleanResponse(r: Rule, name: string, description: string, defaultValue: bool): (res: (Rule, Field))
    ensures res.1 == BooleanField.New(name, description, defaultValue) && res.1.name == name
    ensures AddedResponseField(r, res.0, res.1)
  {
    var f := BooleanField.New(name, description, defaultValue);
    (AddResponseField(r, f), f)
  }

  function AddNumberResponse(r: Rule, name: string, description: string, defaultValue: int): (res: (Rule, Field))
    ensures res.1 == NumberField.New(name, description, defaultValue) && res.1.name == name
    ensures AddedResponseField(r, res.0, res.1)
  {
    var f := NumberField.New(name, description, defaultValue);
    (AddResponseField(r, f), f)
  }

  function AddStringResponse(r: Rule, name: string, description: string, defaultValue: string): (res: (Rule, Field))
    ensures res.1 == StringField.New(name, description, defaultValue) && res.1.name == name
    ensures AddedResponseField(r, res.0, res.1)
  {
    var f := StringField.New(name, description, defaultValue);
    (AddResponseField(r, f), f)
  }

  function AddDateResponse(r: Rule, name: string, description: string, defaultValue: Option<DateField.DateValue>, now: DateField.DateValue): (res: (Rule, Field))
    ensures res.1 == DateField.New(name, description, defaultValue, now) && res.1.name == name
    ensures AddedResponseField(r, res.0, res.1)
  {
    var f := DateField.New(name, description, defaultValue, now);
    (AddResponseField(r, f), f)
  }

  function AddListResponse(r: Rule, name: string, description: string, defaultValue: seq<Value>): (res: (Rule, Field))
    ensures res.1 == ListField.New(name, description, defaultValue) && res.1.name == name
    ensures AddedResponseField(r, res.0, res.1)
  {
    var f := ListField.New(name, description, defaultValue);
    (AddResponseField(r, f), f)
  }

  /** Adding a field under a name already in use keeps the schema's size
      and order; a new name grows it by one at the end. */
  lemma AddFieldOrder(r: Rule, f: Field)
    ensures f.name in Keys(r.fields) ==> Keys(AddRequestField(r, f).fields) == Keys(r.fields)
    ensures f.name !in Keys(r.fields) ==> Keys(AddRequestField(r, f).fields) == Keys(r.fields) + [f.name]
  {
  }

  function EnableContinuousTesting(r: Rule, enabled: bool): (r': Rule)
    ensures r'.settings.testing == enabled
    ensures r'.(settings := r.settings) == r && r'.settings.(testing := r.settings.testing) == r.settings
  {
    r.(settings := r.settings.(testing := enabled))
  }

  function EnableSchemaValidation(r: Rule, enabled: bool): (r': Rule)
    ensures r'.settings.schemaValidation == enabled
    ensures r'.(settings := r.settings) == r && r'.settings.(schemaValidation := r.settings.schemaValidation) == r.settings
  {
    r.(settings := r.settings.(schemaValidation := enabled))
  }

  function RequireAllProperties(r: Rule, enabled: bool): (r': Rule)
    ensures r'.settings.requireAllProperties == enabled
    ensures r'.(settings := r.settings) == r && r'.settings.(requireAllProperties := r.settings.requireAllProperties) == r.settings
  {
    r.(settings := r.settings.(requireAllProperties := enabled))
  }

  function LockSchema(r: Rule, enabled: bool): (r': Rule)
    ensures r'.settings.schemaLocked == enabled
    ensures r'.(settings := r.settings) == r && r'.settings.(schemaLocked := r.settings.schemaLocked) == r.settings
  {
    r.(settings := r.settings.(schemaLocked := enabled))
  }

  /** `addAccessGroup(name, createIfMissing)`: refuses without a client;
      otherwise appends the group unless it is already listed. */
  function AddAccessGroup(r: Rule, group: string, createIfMissing: bool): (res: Result<Rule, Error>)
    ensures res.Success? <==> r.hasWorkspace
    ensures res.Failure? ==> res.error == Error(PlainError, "A Rulebricks client is required to manage access groups")
    ensures res.Success? ==> res.value.(accessGroups := r.accessGroups) == r
    ensures res.Success? && group in r.accessGroups ==> res.value.accessGroups == r.accessGroups
    ensures res.Success? && group !in r.accessGroups ==> res.value.accessGroups == r.accessGroups + [group]
    ensures res.Success? && NoDuplicates(r.accessGroups) ==> NoDuplicates(res.value.accessGroups)
  {
    if !r.hasWorkspace then Failure(Error(PlainError, "A Rulebricks client is required to manage access groups"))
    else if group in r.accessGroups then Success(r)
    else Success(r.(accessGroups := r.accessGroups + [group]))
  }

  /** `indexOf`: the first position of `x`. */
  function FirstIndex(s: seq<string>, x: string): (i: nat)
    requires x in s
    ensures i < |s| && s[i] == x && forall j | 0 <= j < i :: s[j] != x
  {
    if s[0] == x then 0 else 1 + FirstIndex(s[1..], x)
  }

  /** `removeAccessGroup(name)`: removes the first occurrence, if any. */
  function RemoveAccessGroup(r: Rule, group: string): (r': Rule)
    ensures r'.(accessGroups := r.accessGroups) == r
    ensures group !in r.accessGroups ==> r'.accessGroups == r.accessGroups
    ensures group in r.accessGroups ==> |r'.accessGroups| == |r.accessGroups| - 1
    ensures group in r.accessGroups ==> exists i | 0 <= i < |r.accessGroups| ::
      r.accessGroups[i] == group && group !in r.accessGroups[..i] && r'.accessGroups == r.accessGroups[..i] + r.accessGroups[i + 1..]
    ensures NoDuplicates(r.accessGroups) ==> group !in r'.accessGroups
  {
    if group !in r.accessGroups then r
    else
      var i := FirstIndex(r.accessGroups, group);
      var groups := r.accessGroups[..i] + r.accessGroups[i + 1..];
      assert group !in r.accessGroups[..i];
      assert NoDuplicates(r.accessGroups) ==> group !in r.accessGroups[i + 1..] by {
        if NoDuplicates(r.accessGroups) {
          forall j | i + 1 <= j < |r.accessGroups| ensures r.accessGroups[j] != group {
            assert r.accessGroups[i] != r.accessGroups[j];
          }
        }
      }
      r.(accessGroups := groups)
  }

  /** Adding a group the rule did not have and then removing it gives back
      the rule it started from. */
  lemma AddThenRemoveAccessGroup(r: Rule, group: string, createIfMissing: bool)
    requires r.hasWorkspace && group !in r.accessGroups
    ensures RemoveAccessGroup(AddAccessGroup(r, group, createIfMissing).value, group) == r
  {
    var added := r.accessGroups + [group];
    assert FirstIndex(added, group) == |r.accessGroups|;
    assert added[..|r.accessGroups|] + added[|r.accessGroups| + 1..] == r.accessGroups;
  }

  /** What `when` and `any` promise: one new condition at the end, whose
      request lists the given keys with the placeholder entries `setRequest`
      stores, with no response, enabled, without priority; every earlier
      condition and every other part of the rule is unchanged. */
  ghost predicate AppendedCondition(r: Rule, r': Rule, h: nat, conditions: Assoc<OperatorResult>) {
    && h == |r.conditions| && |r'.conditions| == h + 1
    && r'.conditions[..h] == r.conditions
    && r'.(conditions := r.conditions) == r
    && var c := r'.conditions[h];
       && c.response == [] && c.enabled && c.priority.None?
       && UniqueKeys(c.request)
       && (forall k :: k in Keys(c.request) <==> k in Keys(conditions))
       && (forall i | 0 <= i < |c.request| :: c.request[i].1 == Condition.RequestEntry(Undefined, Undefined))
  }

  /** `when(conditions)`: the new condition and its position. */
  function When(r: Rule, conditions: Assoc<OperatorResult>): (res: (Rule, nat))
    ensures AppendedCondition(r, res.0, res.1, conditions)
    ensures res.0.conditions[res.1].any.None?
  {
    var c := Condition.SetRequest(Condition.New(), conditions);
    (r.(conditions := r.conditions + [c]), |r.conditions|)
  }

  /** `any(conditions)`: the same, flagged to match when any request entry holds. */
  function Any(r: Rule, conditions: Assoc<OperatorResult>): (res: (Rule, nat))
    ensures AppendedCondition(r, res.0, res.1, conditions)
    ensures res.0.conditions[res.1].any == Some(true)
  {
    var c := Condition.SetRequest(Condition.New(), conditions);
    (r.(conditions := r.conditions + [c.(any := Some(true))]), |r.conditions|)
  }

  function GetConditionCount(r: Rule): (n: nat)
    ensures n == |r.conditions|
  {
    |r.conditions|
  }

  /** Each `when` or `any` adds exactly one to the condition count, and the
      handle it returns is the count before the call. */
  lemma WhenCountsOne(r: Rule, conditions: Assoc<OperatorResult>)
    ensures GetConditionCount(When(r, conditions).0) == GetConditionCount(r) + 1
    ensures GetConditionCount(Any(r, conditions).0) == GetConditionCount(r) + 1
    ensures When(r, conditions).1 == GetConditionCount(r)
  {
  }

  /** Applies `f` to the condition at handle `h`, leaving every other one alone. */
  predicate UpdatedAt(r: Rule, r': Rule, h: nat, c: Condition.RuleCondition)
    requires h < |r.conditions|
  {
    && |r'.conditions| == |r.conditions|
    && r'.conditions[h] == c
    && (forall i | 0 <= i < |r.conditions| && i != h :: r'.conditions[i] == r.conditions[i])
    && r'.(conditions := r.conditions) == r
  }

  /** `condition.then(responses)` through the handle `h`; the rule is returned. */
  function ThenAt(r: Rule, h: nat, responses: Assoc<Value>): (r': Rule)
    requires h < |r.conditions|
    ensures UpdatedAt(r, r', h, Condition.Then(r.conditions[h], responses))
  {
    r.(conditions := r.conditions[h := Condition.Then(r.conditions[h], responses)])
  }

  function SetPriorityAt(r: Rule, h: nat, priority: int): (r': Rule)
    requires h < |r.conditions|
    ensures UpdatedAt(r, r', h, Condition.SetPriority(r.conditions[h], priority))
  {
    r.(conditions := r.conditions[h := Condition.SetPriority(r.conditions[h], priority)])
  }

  function EnableAt(r: Rule, h: nat): (r': Rule)
    requires h < |r.conditions|
    ensures UpdatedAt(r, r', h, Condition.Enable(r.conditions[h]))
  {
    r.(conditions := r.conditions[h := Condition.Enable(r.conditions[h])])
  }

  function DisableAt(r: Rule, h: nat): (r': Rule)
    requires h < |r.conditions|
    ensures UpdatedAt(r, r', h, Condition.Disable(r.conditions[h]))
  {
    r.(conditions := r.conditions[h := Condition.Disable(r.conditions[h])])
  }

  /** The usual chain `when(q).then(s)`: one condition holding the request
      keys of `q` and, for a record `s`, exactly the responses of `s`. */
  lemma WhenThen(r: Rule, q: Assoc<OperatorResult>, s: Assoc<Value>)
    requires UniqueKeys(s)
    ensures var (r1, h) := When(r, q);
      var c := ThenAt(r1, h, s).conditions[h];
      && |c.response| == |s|
      && (forall i | 0 <= i < |s| :: c.response[i] == (s[i].0, Condition.ResponseEntry(s[i].1)))
      && (forall k :: k in Keys(c.request) <==> k in Keys(q))
  {
    var (r1, h) := When(r, q);
    Condition.ThenOfRecord(r1.conditions[h], s);
  }

  /** `testSuite.find(t => t[prop] === v)`: the first test whose property
      `prop` is `v`. */
  function FindTestBy(suite: seq<RuleTest>, prop: string, v: Value): (i: Option<nat>)
    ensures i.Some? ==> i.value < |suite| && Prop(suite[i.value], prop) == v
    ensures i.Some? ==> forall j | 0 <= j < i.value :: Prop(suite[j], prop) != v
    ensures i.None? ==> forall j | 0 <= j < |suite| :: Prop(suite[j], prop) != v
  {
    if |suite| == 0 then None
    else if Prop(suite[0], prop) == v then Some(0)
    else
      match FindTestBy(suite[1..], prop, v)
      case Some(i) => Some(i + 1)
      case None => None
  }

  /** `findTestById(id)`: the first test with that id. */
  function FindTestById(r: Rule, id: Value): (t: Option<RuleTest>)
    ensures t.Some? <==> exists j | 0 <= j < |r.testSuite| :: Prop(r.testSuite[j], "id") == id
    ensures t.Some? ==> t.value in r.testSuite && Prop(t.value, "id") == id
    ensures t.Some? ==> exists j | 0 <= j < |r.testSuite| :: t.value == r.testSuite[j] && forall k | 0 <= k < j :: Prop(r.testSuite[k], "id") != id
  {
    match FindTestBy(r.testSuite, "id", id)
    case Some(i) => Some(r.testSuite[i])
    case None => None
  }

  /** `findTestByName(name)`: the first test with that name. */
  function FindTestByName(r: Rule, name: Value): (t: Option<RuleTest>)
    ensures t.Some? <==> exists j | 0 <= j < |r.testSuite| :: Prop(r.testSuite[j], "name") == name
    ensures t.Some? ==> t.value in r.testSuite && Prop(t.value, "name") == name
    ensures t.Some? ==> exists j | 0 <= j < |r.testSuite| :: t.value == r.testSuite[j] && forall k | 0 <= k < j :: Prop(r.testSuite[k], "name") != name
  {
    match FindTestBy(r.testSuite, "name", name)
    case Some(i) => Some(r.testSuite[i])
    case None => None
  }

  /** `addTest(test)`: merges the test's properties into the first test with
      the same id, or appends it when there is none. */
  function AddTest(r: Rule, test: RuleTest): (r': Rule)
    ensures r'.(testSuite := r.testSuite) == r
    ensures FindTestBy(r.testSuite, "id", Prop(test, "id")).None? ==> r'.testSuite == r.testSuite + [test]
    ensures FindTestBy(r.testSuite, "id", Prop(test, "id")).Some? ==>
      var i := FindTestBy(r.testSuite, "id", Prop(test, "id")).value;
      r'.testSuite == r.testSuite[i := Assign(r.testSuite[i], test)]
  {
    match FindTestBy(r.testSuite, "id", Prop(test, "id"))
    case Some(i) => r.(testSuite := r.testSuite[i := Assign(r.testSuite[i], test)])
    case None => r.(testSuite := r.testSuite + [test])
  }

  /** After `addTest(test)`, looking the test's id up finds a test that
      carries every property of `test` (when `test` is a record). */
  lemma AddTestThenFind(r: Rule, test: RuleTest)
    requires UniqueKeys(test)
    ensures var r' := AddTest(r, test);
      var found := FindTestBy(r'.testSuite, "id", Prop(test, "id"));
      && found.Some?
      && forall i | 0 <= i < |test| :: Get(r'.testSuite[found.value], test[i].0) == Some(test[i].1)
  {
    var id := Prop(test, "id");
    var r' := AddTest(r, test);
    match FindTestBy(r.testSuite, "id", id)
    case Some(i) =>
      var merged := Assign(r.testSuite[i], test);
      forall j | 0 <= j < |test|
        ensures Get(merged, test[j].0) == Some(test[j].1)
      {
        AssignGet(r.testSuite[i], test, j);
      }
      assert Prop(merged, "id") == id by {
        if "id" in Keys(test) {
          AssignGet(r.testSuite[i], test, IndexOf(test, "id"));
        } else {
          AssignUntouched(r.testSuite[i], test, "id");
        }
      }
      FindFirst(r'.testSuite, "id", id, i);
    case None =>
      FindFirst(r'.testSuite, "id", id, |r.testSuite|);
      forall j | 0 <= j < |test|
        ensures Get(test, test[j].0) == Some(test[j].1)
      {
        IndexOfIsFirst(test, test[j].0, j);
      }
  }

  /** A position whose property is `v`, with none before it, is what `FindTestBy` finds. */
  lemma FindFirst(suite: seq<RuleTest>, prop: string, v: Value, i: nat)
    requires i < |suite| && Prop(suite[i], prop) == v
    requires forall j | 0 <= j < i :: Prop(suite[j], prop) != v
    ensures FindTestBy(suite, prop, v) == Some(i)
  {
    assert FindTestBy(suite, prop, v).Some?;
  }

  /** `suite.filter(t => t.id !== id)`: every test without that id is kept
      as often as it occurs, and no test with it is; `WithoutIdConcat` pins
      the order. */
  function WithoutId(suite: seq<RuleTest>, id: Value): (s: seq<RuleTest>)
    ensures |s| <= |suite|
    ensures forall t :: t in s <==> t in suite && Prop(t, "id") != id
    ensures forall i | 0 <= i < |s| :: Prop(s[i], "id") != id
    ensures forall t :: multiset(s)[t] == if Prop(t, "id") != id then multiset(suite)[t] else 0
  {
    if |suite| == 0 then []
    else
      var rest := WithoutId(suite[1..], id);
      assert suite == [suite[0]] + suite[1..];
      assert multiset(suite) == multiset([suite[0]]) + multiset(suite[1..]);
      assert forall t :: t in suite <==> t == suite[0] || t in suite[1..];
      if Prop(suite[0], "id") != id then
        assert multiset([suite[0]] + rest) == multiset([suite[0]]) + multiset(rest);
        [suite[0]] + rest
      else rest
  }

  /** Filtering distributes over concatenation; with `WithoutIdSingle` this
      fixes the order of the result as the order of the suite. */
  lemma {:induction false} WithoutIdConcat(a: seq<RuleTest>, b: seq<RuleTest>, id: Value)
    ensures WithoutId(a + b, id) == WithoutId(a, id) + WithoutId(b, id)
    decreases |a|
  {
    if |a| == 0 {
      assert a + b == b;
    } else {
      var h, ta, tb := KeptHead(a, id), WithoutId(a[1..], id), WithoutId(b, id);
      WithoutIdConsConcat(a, b, id);
      WithoutIdConcat(a[1..], b, id);
      WithoutIdCons(a, id);
      ConcatAssociative(h, ta, tb);
    }
  }

  lemma ConcatAssociative<T>(x: seq<T>, y: seq<T>, z: seq<T>)
    ensures x + (y + z) == (x + y) + z
  {
  }

  /** Unfolding `WithoutId` once on a concatenation. */
  lemma WithoutIdConsConcat(a: seq<RuleTest>, b: seq<RuleTest>, id: Value)
    requires |a| > 0
    ensures WithoutId(a + b, id) == KeptHead(a, id) + WithoutId(a[1..] + b, id)
  {
    assert (a + b)[1..] == a[1..] + b;
    WithoutIdCons(a + b, id);
  }

  /** A single test is kept exactly when its id differs. */
  lemma WithoutIdSingle(t: RuleTest, id: Value)
    ensures WithoutId([t], id) == if Prop(t, "id") != id then [t] else []
  {
    WithoutIdCons([t], id);
    assert [t][1..] == [];
  }

  /** The first test of `suite`, if filtering keeps it. */
  function KeptHead(suite: seq<RuleTest>, id: Value): seq<RuleTest>
    requires |suite| > 0
  {
    if Prop(suite[0], "id") != id then [suite[0]] else []
  }

  lemma WithoutIdCons(suite: seq<RuleTest>, id: Value)
    requires |suite| > 0
    ensures WithoutId(suite, id) == KeptHead(suite, id) + WithoutId(suite[1..], id)
  {
  }

  /** Filtering out an id no test carries keeps the suite as it is. */
  lemma {:induction false} WithoutAbsentId(suite: seq<RuleTest>, id: Value)
    requires forall j | 0 <= j < |suite| :: Prop(suite[j], "id") != id
    ensures WithoutId(suite, id) == suite
  {
    if |suite| > 0 {
      WithoutAbsentId(suite[1..], id);
      assert [suite[0]] + suite[1..] == suite;
    }
  }

  /** `removeTest(id)`: drops every test with that id; when there is none the
      suite is left as it is, which is what filtering would give too. */
  function RemoveTest(r: Rule, testId: string): (r': Rule)
    ensures r'.(testSuite := r.testSuite) == r
    ensures r'.testSuite == WithoutId(r.testSuite, Str(testId))
    ensures forall t :: t in r'.testSuite <==> t in r.testSuite && Prop(t, "id") != Str(testId)
  {
    if FindTestById(r, Str(testId)).Some? then r.(testSuite := WithoutId(r.testSuite, Str(testId)))
    else
      WithoutAbsentId(r.testSuite, Str(testId));
      r
  }

  /** Adding a test under an id the suite does not use and then removing
      that id gives back the rule it started from. */
  lemma AddThenRemoveTest(r: Rule, test: RuleTest, testId: string)
    requires Prop(test, "id") == Str(testId)
    requires forall j | 0 <= j < |r.testSuite| :: Prop(r.testSuite[j], "id") != Str(testId)
    ensures RemoveTest(AddTest(r, test), testId) == r
  {
    var r' := AddTest(r, test);
    assert FindTestBy(r.testSuite, "id", Str(testId)).None?;
    assert r'.testSuite == r.testSuite + [test];
    assert r'.testSuite[|r.testSuite|] == test;
    WithoutAbsentId(r.testSuite, Str(testId));
    WithoutIdAppend(r.testSuite, test, Str(testId));
  }

  lemma {:induction false} WithoutIdAppend(suite: seq<RuleTest>, t: RuleTest, id: Value)
    requires Prop(t, "id") == id
    ensures WithoutId(suite + [t], id) == WithoutId(suite, id)
    decreases |suite|
  {
    if |suite| == 0 {
      assert suite + [t] == [t];
    } else {
      assert (suite + [t])[1..] == suite[1..] + [t];
      WithoutIdAppend(suite[1..], t, id);
    }
  }

  const NoWorkspaceConfigured := "Workspace not configured. Call setWorkspace() first."

  /** `getEditorUrl()`. */
  function GetEditorUrl(r: Rule): (res: Result<string, Error>)
    ensures res.Success? <==> r.hasWorkspace
    ensures res.Success? ==> res.value == "https://app.rulebricks.com/rules/" + r.id
    ensures res.Failure? ==> res.error == Error(PlainError, NoWorkspaceConfigured)
  {
    if !r.hasWorkspace then Failure(Error(PlainError, NoWorkspaceConfigured))
    else Success("https://app.rulebricks.com/rules/" + r.id)
  }

  /** `solve(request)`: refuses without a client, and otherwise sends the
      request under the rule's slug; the pair returned is what is sent. */
  function Solve(r: Rule, request: Value): (res: Result<(string, Value), Error>)
    ensures res.Success? <==> r.hasWorkspace
    ensures res.Success? ==> res.value == (r.slug, request)
    ensures res.Failure? ==> res.error == Error(PlainError, NoWorkspaceConfigured)
  {
    if !r.hasWorkspace then Failure(Error(PlainError, NoWorkspaceConfigured))
    else Success((r.slug, request))
  }

  /** Every operation above that returns a rule keeps it `Valid`. */
  lemma OperationsPreserveValid(r: Rule, f: Field, name: string, slugDraws: seq<SlugDraw>, test: RuleTest, q: Assoc<OperatorResult>)
    requires Valid(r) && |slugDraws| == SlugLength
    ensures Valid(AddRequestField(r, f)) && Valid(AddResponseField(r, f))
    ensures Valid(SetName(r, name, slugDraws)) && Valid(AddTest(r, test)) && Valid(RemoveTest(r, name))
    ensures Valid(When(r, q).0) && Valid(Any(r, q).0)
    ensures SetAlias(r, name).Success? ==> Valid(SetAlias(r, name).value)
  {
  }
}
