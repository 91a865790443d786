/** The wire form of a rule: `toDict()`, `fromJSON()`, and the workspace
    operations that send or receive it. The payload is typed here; its
    JSON text and the network exchange are not modelled. */
module RuleDict {
  import opened Wrappers
  import opened Types
  import opened Assoc
  import opened Js
  import opened RuleIds
  import Condition
  import opened R = Rule

  /** One schema entry: `{ name, type, description, defaultValue, show }`. */
  datatype SchemaEntry = SchemaEntry(name: string, fieldType: RuleType, description: string, defaultValue: Value, show: bool)

  /** The object `toDict()` returns; `publish` stands for the `_publish`
      property `publish()` adds before sending it. */
  datatype RuleDict = RuleDict(
    id: string,
    name: string,
    description: string,
    tag: string,
    slug: string,
    createdAt: string,
    updatedAt: string,
    updatedBy: string,
    settings: Settings,
    accessGroups: seq<string>,
    requestSchema: seq<SchemaEntry>,
    responseSchema: seq<SchemaEntry>,
    conditions: seq<Condition.RuleCondition>,
    testSuite: seq<RuleTest>,
    publishedRequestSchema: Value,
    publishedResponseSchema: Value,
    publishedGroups: Value,
    publish: bool)

  /** One UUID's worth of draws for each test, used where a test lacks an id. */
  predicate DrawsFor(draws: seq<seq<Nibble>>, n: nat) {
    |draws| == n && forall i | 0 <= i < n :: |draws[i]| == 31
  }

  /** `Object.entries(schema).map(([name, field]) => ({ name, type, … show: true }))`. */
  function ToSchema(schema: Assoc<Field>): (s: seq<SchemaEntry>)
    ensures |s| == |schema|
    ensures forall i | 0 <= i < |s| :: s[i].name == schema[i].0 && s[i].show
    ensures forall i | 0 <= i < |s| ::
      s[i].fieldType == schema[i].1.fieldType && s[i].description == schema[i].1.description && s[i].defaultValue == schema[i].1.defaultValue
  {
    seq(|schema|, i requires 0 <= i < |schema| =>
      SchemaEntry(schema[i].0, schema[i].1.fieldType, schema[i].1.description, schema[i].1.defaultValue, true))
  }

  /** `test.id || generateUUID()`. */
  function IdOrFresh(t: RuleTest, draws: seq<Nibble>): (v: Value)
    requires |draws| == 31
    ensures Truthy(v)
    ensures Truthy(Prop(t, "id")) ==> v == Prop(t, "id")
  {
    if Truthy(Prop(t, "id")) then Prop(t, "id") else Str(GenerateUuid(draws))
  }

  /** `{ ...test, id: test.id || generateUUID() }`. */
  function WithId(t: RuleTest, draws: seq<Nibble>): (t': RuleTest)
    requires |draws| == 31
    ensures Prop(t', "id") == IdOrFresh(t, draws)
    ensures forall k | k != "id" :: Get(t', k) == Get(t, k)
  {
    PutGet(t, "id", IdOrFresh(t, draws), "id");
    assert forall k | k != "id" :: Get(Put(t, "id", IdOrFresh(t, draws)), k) == Get(t, k) by {
      forall k | k != "id" ensures Get(Put(t, "id", IdOrFresh(t, draws)), k) == Get(t, k) {
        PutGet(t, "id", IdOrFresh(t, draws), k);
      }
    }
    Put(t, "id", IdOrFresh(t, draws))
  }

  /** `toDict()`: every test leaves with a truthy id, and keeps every other
      property it had. */
  function ToDict(r: Rule, draws: seq<seq<Nibble>>): (d: RuleDict)
    requires DrawsFor(draws, |r.testSuite|)
    ensures d.id == r.id && d.name == r.name && d.description == r.description && d.slug == r.slug
    ensures d.createdAt == r.createdAt && d.updatedAt == r.updatedAt && d.updatedBy == r.updatedBy
    ensures d.settings == r.settings && d.accessGroups == r.accessGroups
    ensures d.publishedRequestSchema == r.publishedRequestSchema && d.publishedResponseSchema == r.publishedResponseSchema
    ensures d.publishedGroups == r.publishedGroups
    ensures d.requestSchema == ToSchema(r.fields) && d.responseSchema == ToSchema(r.responseFields)
    ensures d.tag == r.folderId && d.conditions == r.conditions && !d.publish
    ensures |d.testSuite| == |r.testSuite|
    ensures forall i | 0 <= i < |d.testSuite| :: Truthy(Prop(d.testSuite[i], "id"))
    ensures forall i | 0 <= i < |d.testSuite| :: Truthy(Prop(r.testSuite[i], "id")) ==> Prop(d.testSuite[i], "id") == Prop(r.testSuite[i], "id")
    ensures forall i, k | 0 <= i < |d.testSuite| && k != "id" :: Get(d.testSuite[i], k) == Get(r.testSuite[i], k)
  {
    RuleDict(r.id, r.name, r.description, r.folderId, r.slug, r.createdAt, r.updatedAt, r.updatedBy, r.settings,
             r.accessGroups, ToSchema(r.fields), ToSchema(r.responseFields), r.conditions,
             seq(|r.testSuite|, i requires 0 <= i < |r.testSuite| && DrawsFor(draws, |r.testSuite|) => WithId(r.testSuite[i], draws[i])),
             r.publishedRequestSchema, r.publishedResponseSchema, r.publishedGroups, false)
  }

  /** The field `fromJSON` rebuilds from a schema entry: no operators. */
  function FieldOf(e: SchemaEntry): (f: Field)
    ensures f.name == e.name && f.operators == []
  {
    Field(e.name, e.description, e.defaultValue, [], e.fieldType)
  }

  /** `schema.forEach(e => fields[e.name] = { … operators: {} })`: one field
      per name, and a name given more than once keeps its last entry. */
  function FromSchema(schema: seq<SchemaEntry>): (s: Assoc<Field>)
    ensures SchemaValid(s)
    ensures forall k :: k in Keys(s) <==> exists i | 0 <= i < |schema| :: schema[i].name == k
    ensures forall i | 0 <= i < |schema| && (forall j | i < j < |schema| :: schema[j].name != schema[i].name) ::
              Get(s, schema[i].name) == Some(FieldOf(schema[i]))
  {
    var es := seq(|schema|, i requires 0 <= i < |schema| => (schema[i].name, FieldOf(schema[i])));
    FromEntriesKeys(es);
    FromEntriesFromInput(es);
    assert forall k :: k in Keys(es) <==> exists i | 0 <= i < |schema| :: schema[i].name == k by {
      forall k ensures k in Keys(es) <==> exists i | 0 <= i < |schema| :: schema[i].name == k {
        if k in Keys(es) {
          var i :| 0 <= i < |es| && Keys(es)[i] == k;
          assert schema[i].name == k;
        }
        if exists i | 0 <= i < |schema| :: schema[i].name == k {
          var i :| 0 <= i < |schema| && schema[i].name == k;
          assert Keys(es)[i] == k;
        }
      }
    }
    forall i | 0 <= i < |schema| && (forall j | i < j < |schema| :: schema[j].name != schema[i].name)
      ensures Get(FromEntries(es), schema[i].name) == Some(FieldOf(schema[i]))
    {
      FromEntriesGet(es, i);
    }
    FromEntries(es)
  }

  /** `{ id, name, description, request, expectedResponse, enabled }`. */
  function TestRecord(id: Value, name: Value, description: Value, request: Value, expected: Value, enabled: Value): (t: RuleTest)
    ensures Keys(t) == ["id", "name", "description", "request", "expectedResponse", "enabled"]
    ensures Prop(t, "id") == id && Prop(t, "name") == name && Prop(t, "description") == description
    ensures Prop(t, "request") == request && Prop(t, "expectedResponse") == expected && Prop(t, "enabled") == enabled
  {
    var t := [("id", id), ("name", name), ("description", description),
              ("request", request), ("expectedResponse", expected), ("enabled", enabled)];
    IndexOfIsFirst(t, "id", 0);
    IndexOfIsFirst(t, "name", 1);
    IndexOfIsFirst(t, "description", 2);
    IndexOfIsFirst(t, "request", 3);
    IndexOfIsFirst(t, "expectedResponse", 4);
    IndexOfIsFirst(t, "enabled", 5);
    t
  }

  /** The test record `fromJSON` rebuilds: exactly the six properties id,
      name, description, request, expectedResponse and enabled, in that
      order; `enabled` is false only when the test said exactly `false`. */
  function Normalise(t: RuleTest, draws: seq<Nibble>): (t': RuleTest)
    requires |draws| == 31
    ensures Keys(t') == ["id", "name", "description", "request", "expectedResponse", "enabled"]
    ensures Prop(t', "id") == IdOrFresh(t, draws)
    ensures Prop(t', "name") == Prop(t, "name") && Prop(t', "description") == Prop(t, "description")
    ensures Prop(t', "request") == Prop(t, "request") && Prop(t', "expectedResponse") == Prop(t, "expectedResponse")
    ensures Prop(t', "enabled") == Bool(Prop(t, "enabled") != Bool(false))
  {
    TestRecord(IdOrFresh(t, draws), Prop(t, "name"), Prop(t, "description"), Prop(t, "request"),
               Prop(t, "expectedResponse"), Bool(Prop(t, "enabled") != Bool(false)))
  }

  /** `Rule.fromJSON(data)`: a new rule without a client whose properties
      are copied from the payload; the folder name and alias stay empty. */
  function FromJSON(d: RuleDict, draws: seq<seq<Nibble>>): (r: Rule)
    requires DrawsFor(draws, |d.testSuite|)
    ensures Valid(r) && !r.hasWorkspace && r.folder == "" && r.alias == ""
    ensures r.id == d.id && r.name == d.name && r.description == d.description && r.slug == d.slug
    ensures r.createdAt == d.createdAt && r.updatedAt == d.updatedAt && r.updatedBy == d.updatedBy
    ensures r.settings == d.settings && r.accessGroups == d.accessGroups
    ensures r.publishedRequestSchema == d.publishedRequestSchema && r.publishedResponseSchema == d.publishedResponseSchema
    ensures r.publishedGroups == d.publishedGroups
    ensures r.folderId == d.tag && r.conditions == d.conditions
    ensures r.fields == FromSchema(d.requestSchema) && r.responseFields == FromSchema(d.responseSchema)
    ensures |r.testSuite| == |d.testSuite|
    ensures forall i | 0 <= i < |r.testSuite| :: r.testSuite[i] == Normalise(d.testSuite[i], draws[i])
  {
    R.Rule(d.id, d.name, d.description, "", d.tag, "", d.slug, d.settings, d.accessGroups, false, d.conditions,
              FromSchema(d.requestSchema), FromSchema(d.responseSchema),
              seq(|d.testSuite|, i requires 0 <= i < |d.testSuite| && DrawsFor(draws, |d.testSuite|) => Normalise(d.testSuite[i], draws[i])),
              d.publishedRequestSchema, d.publishedResponseSchema, d.publishedGroups, d.createdAt, d.updatedAt, d.updatedBy)
  }

  /** A field as it comes back from the wire: everything but its operators. */
  function Strip(f: Field): Field {
    f.(operators := [])
  }

  /** Rebuilding a well-formed schema from its wire entries gives the same
      fields, in the same order, with their operators dropped. */
  lemma SchemaRoundTrip(schema: Assoc<Field>)
    requires SchemaValid(schema)
    ensures FromSchema(ToSchema(schema)) == MapValues(schema, Strip)
  {
    var wire := ToSchema(schema);
    var es := seq(|wire|, i requires 0 <= i < |wire| => (wire[i].name, FieldOf(wire[i])));
    assert es == MapValues(schema, Strip);
    MapValuesUnique(schema, Strip);
    FromEntriesOfUnique(es);
  }

  /** What a rule looks like after a trip through `toDict` and `fromJSON`:
      the same rule without its client, folder name and alias, with
      operator-less fields, and with its tests reduced to the six properties
      `fromJSON` keeps. */
  lemma RoundTrip(r: Rule, draws: seq<seq<Nibble>>, draws': seq<seq<Nibble>>)
    requires Valid(r) && DrawsFor(draws, |r.testSuite|) && DrawsFor(draws', |r.testSuite|)
    ensures FromJSON(ToDict(r, draws), draws') == r.(
      folder := "", alias := "", hasWorkspace := false,
      fields := MapValues(r.fields, Strip), responseFields := MapValues(r.responseFields, Strip),
      testSuite := seq(|r.testSuite|, i requires 0 <= i < |r.testSuite| => Normalise(WithId(r.testSuite[i], draws[i]), draws'[i])))
  {
    SchemaRoundTrip(r.fields);
    SchemaRoundTrip(r.responseFields);
  }

  /** A normalised test passes through another round unchanged. */
  lemma NormaliseStable(t: RuleTest, draws: seq<Nibble>, draws': seq<Nibble>, draws'': seq<Nibble>)
    requires |draws| == 31 && |draws'| == 31 && |draws''| == 31
    ensures Normalise(WithId(Normalise(t, draws), draws'), draws'') == Normalise(t, draws)
  {
    var n := Normalise(t, draws);
    var w := WithId(n, draws');
    var enabled := Prop(n, "enabled");
    assert enabled.Bool?;
    assert IdOrFresh(w, draws'') == Prop(n, "id");
    assert Prop(w, "name") == Prop(n, "name") && Prop(w, "description") == Prop(n, "description");
    assert Prop(w, "request") == Prop(n, "request") && Prop(w, "expectedResponse") == Prop(n, "expectedResponse");
    assert Bool(Prop(w, "enabled") != Bool(false)) == enabled;
  }

  lemma StripTwice(schema: Assoc<Field>)
    ensures MapValues(MapValues(schema, Strip), Strip) == MapValues(schema, Strip)
  {
  }

  /** After one round trip the rule is a fixed point: sending it and
      reading it back again changes nothing. */
  lemma RoundTripStable(r: Rule, d1: seq<seq<Nibble>>, d2: seq<seq<Nibble>>, d3: seq<seq<Nibble>>, d4: seq<seq<Nibble>>)
    requires Valid(r)
    requires DrawsFor(d1, |r.testSuite|) && DrawsFor(d2, |r.testSuite|) && DrawsFor(d3, |r.testSuite|) && DrawsFor(d4, |r.testSuite|)
    ensures var r1 := FromJSON(ToDict(r, d1), d2);
      FromJSON(ToDict(r1, d3), d4) == r1
  {
    var r1 := FromJSON(ToDict(r, d1), d2);
    RoundTrip(r, d1, d2);
    RoundTrip(r1, d3, d4);
    StripTwice(r.fields);
    StripTwice(r.responseFields);
    var s1 := r1.testSuite;
    var s2 := FromJSON(ToDict(r1, d3), d4).testSuite;
    assert |s2| == |s1|;
    forall i | 0 <= i < |s1|
      ensures s2[i] == s1[i]
    {
      NormaliseStable(WithId(r.testSuite[i], d1[i]), d2[i], d3[i], d4[i]);
    }
  }

  /** `update()`: refuses without a client; otherwise the payload sent is `toDict()`. */
  function Update(r: Rule, draws: seq<seq<Nibble>>): (res: Result<RuleDict, Error>)
    requires DrawsFor(draws, |r.testSuite|)
    ensures res.Success? <==> r.hasWorkspace
    ensures res.Success? ==> res.value == ToDict(r, draws)
    ensures res.Failure? ==> res.error == Error(PlainError, "Workspace not set. Call setWorkspace() before updating the rule.")
  {
    if !r.hasWorkspace then Failure(Error(PlainError, "Workspace not set. Call setWorkspace() before updating the rule."))
    else Success(ToDict(r, draws))
  }

  /** `publish()`: refuses without a client; otherwise the payload sent is
      `toDict()` flagged for publishing. */
  function Publish(r: Rule, draws: seq<seq<Nibble>>): (res: Result<RuleDict, Error>)
    requires DrawsFor(draws, |r.testSuite|)
    ensures res.Success? <==> r.hasWorkspace
    ensures res.Success? ==> res.value.publish && res.value.(publish := false) == ToDict(r, draws)
    ensures res.Failure? ==> res.error == Error(PlainError, "A Rulebricks client is required to publish a rule")
  {
    if !r.hasWorkspace then Failure(Error(PlainError, "A Rulebricks client is required to publish a rule"))
    else Success(ToDict(r, draws).(publish := true))
  }

  /** `fromWorkspace(id)`: refuses without a client; otherwise the exported
      payload `exported` is read back with `fromJSON`. */
  function FromWorkspace(r: Rule, ruleId: string, exported: RuleDict, draws: seq<seq<Nibble>>): (res: Result<Rule, Error>)
    requires DrawsFor(draws, |exported.testSuite|)
    ensures res.Success? <==> r.hasWorkspace
    ensures res.Success? ==> res.value == FromJSON(exported, draws) && !res.value.hasWorkspace
    ensures res.Failure? ==> res.error == Error(PlainError, "A Rulebricks client is required to load a rule from the workspace")
  {
    if !r.hasWorkspace then Failure(Error(PlainError, "A Rulebricks client is required to load a rule from the workspace"))
    else Success(FromJSON(exported, draws))
  }
}
