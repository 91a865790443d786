/** The `Condition` class: one row of a rule's decision table, built in
    place. `setRequest` and `then` fold a record of entries into the row's
    request and response; the request fold reads `operator` and `args` off
    each builder result, which is a two-element array and has neither. */
module Condition {
  import opened Wrappers
  import opened Types
  import opened Assoc

  /** `{ op, args }` as stored for one request field. */
  datatype RequestEntry = RequestEntry(op: Value, args: Value)

  /** `{ value }` as stored for one response field. */
  datatype ResponseEntry = ResponseEntry(value: Value)

  /** A rule condition: request and response records, the enabled flag, and
      the optional priority and `any` flag. */
  datatype RuleCondition = RuleCondition(
    request: Assoc<RequestEntry>,
    response: Assoc<ResponseEntry>,
    enabled: bool,
    priority: Option<int>,
    any: Option<bool>)

  /** `new Condition(rule)`: empty request and response, enabled, with no
      priority and no `any` flag. */
  function New(): (c: RuleCondition)
    ensures c.request == [] && c.response == []
    ensures c.enabled && c.priority.None? && c.any.None?
  {
    RuleCondition([], [], true, None, None)
  }

  /** Reading the property `p` of an `OperatorResult`, a two-element array
      `[name, args]`: only the indices and `length` exist. */
  function TupleProperty(r: OperatorResult, p: string): (v: Value)
    ensures p !in {"0", "1", "length"} ==> v == Undefined
  {
    if p == "0" then Str(r.0)
    else if p == "1" then Arr(r.1)
    else if p == "length" then Num(2)
    else Undefined
  }

  function AsRequestEntry(r: OperatorResult): RequestEntry {
    RequestEntry(TupleProperty(r, "operator"), TupleProperty(r, "args"))
  }

  /** `setRequest(conditions)`: replaces the request with the fold of
      `acc[key] = { op: value.operator, args: value.args }`. Whatever the
      builder produced, every stored entry is `{ op: undefined, args:
      undefined }`; the keys are those of the input, each once. */
  function SetRequest(c: RuleCondition, conditions: Assoc<OperatorResult>): (r: RuleCondition)
    ensures r == c.(request := r.request)
    ensures UniqueKeys(r.request)
    ensures forall k :: k in Keys(r.request) <==> k in Keys(conditions)
    ensures forall i | 0 <= i < |r.request| :: r.request[i].1 == RequestEntry(Undefined, Undefined)
  {
    var es := MapValues(conditions, AsRequestEntry);
    FromEntriesKeys(es);
    FromEntriesFromInput(es);
    c.(request := FromEntries(es))
  }

  /** On a record (whose keys are distinct) the request lists the same keys
      in the same order. */
  lemma SetRequestOfRecord(c: RuleCondition, conditions: Assoc<OperatorResult>)
    requires UniqueKeys(conditions)
    ensures Keys(SetRequest(c, conditions).request) == Keys(conditions)
  {
    MapValuesUnique(conditions, AsRequestEntry);
    FromEntriesOfUnique(MapValues(conditions, AsRequestEntry));
  }

  function AsResponseEntry(v: Value): ResponseEntry {
    ResponseEntry(v)
  }

  /** `then(responses)`: replaces the response with the fold of
      `acc[key] = { value }`; each key reads the value of its last entry. */
  function Then(c: RuleCondition, responses: Assoc<Value>): (r: RuleCondition)
    ensures r == c.(response := r.response)
    ensures UniqueKeys(r.response)
    ensures forall k :: k in Keys(r.response) <==> k in Keys(responses)
  {
    FromEntriesKeys(MapValues(responses, AsResponseEntry));
    c.(response := FromEntries(MapValues(responses, AsResponseEntry)))
  }

  /** Each response key carries the value of the last entry for it. */
  lemma ThenGet(c: RuleCondition, responses: Assoc<Value>, i: nat)
    requires i < |responses|
    requires forall j | i < j < |responses| :: responses[j].0 != responses[i].0
    ensures Get(Then(c, responses).response, responses[i].0) == Some(ResponseEntry(responses[i].1))
  {
    var es := MapValues(responses, AsResponseEntry);
    assert es[i].0 == responses[i].0;
    FromEntriesGet(es, i);
  }

  /** On a record the response is the input, entry for entry. */
  lemma ThenOfRecord(c: RuleCondition, responses: Assoc<Value>)
    requires UniqueKeys(responses)
    ensures |Then(c, responses).response| == |responses|
    ensures forall i | 0 <= i < |responses| :: Then(c, responses).response[i] == (responses[i].0, ResponseEntry(responses[i].1))
  {
    MapValuesUnique(responses, AsResponseEntry);
    FromEntriesOfUnique(MapValues(responses, AsResponseEntry));
  }

  function SetPriority(c: RuleCondition, priority: int): (r: RuleCondition)
    ensures r.priority == Some(priority)
    ensures r.(priority := c.priority) == c
  {
    c.(priority := Some(priority))
  }

  function Enable(c: RuleCondition): (r: RuleCondition)
    ensures r.enabled
    ensures r.(enabled := c.enabled) == c
  {
    c.(enabled := true)
  }

  function Disable(c: RuleCondition): (r: RuleCondition)
    ensures !r.enabled
    ensures r.(enabled := c.enabled) == c
  {
    c.(enabled := false)
  }

  /** The enabled flag ends up as the last call sets it, whatever came before. */
  lemma EnableDisableLastWins(c: RuleCondition)
    ensures Enable(Disable(c)) == Enable(c)
    ensures Disable(Enable(c)) == Disable(c)
    ensures Enable(Enable(c)) == Enable(c) && Disable(Disable(c)) == Disable(c)
  {
  }

  /** Setting the request and then the response, or the response and then
      the request, gives the same condition. */
  lemma RequestAndResponseIndependent(c: RuleCondition, q: Assoc<OperatorResult>, s: Assoc<Value>)
    ensures Then(SetRequest(c, q), s) == SetRequest(Then(c, s), q)
  {
  }
}
