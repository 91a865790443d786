/** The `BooleanField` class: its catalogue and its one builder. */
module BooleanField {
  import opened Wrappers
  import opened Types
  import opened Js
  import opened Operators
  import Assoc

  const Keys: seq<string> := ["any", "is_true", "is_false"]

  function Def(key: string): Option<OperatorDef> {
    if key == "any" then Some(AnyOperator("Match any boolean value"))
    else if key == "is_true" then Some(NoArgs("is true", "Check if value is true"))
    else if key == "is_false" then Some(NoArgs("is false", "Check if value is false"))
    else None
  }

  /** The display name the catalogue lists under `key`. */
  function OpName(key: string): string {
    match Def(key)
    case Some(d) => d.name
    case None => ""
  }

  function Catalogue(): Catalogue {
    BuildCatalogue(Keys, Def)
  }

  /** `new BooleanField(name, description, defaultValue)`. */
  function New(name: string, description: string, defaultValue: bool): (f: Field)
    ensures f.fieldType == RuleType.BOOLEAN && f.defaultValue == Bool(defaultValue)
    ensures f.name == name && f.description == description && f.operators == Catalogue()
  {
    Field(name, description, Bool(defaultValue), Catalogue(), RuleType.BOOLEAN)
  }

  /** `equals(value)`: "is true" for a truthy value and "is false" otherwise,
      with no arguments. A dynamic value is an object and so always truthy. */
  function Equals(v: Value): (r: OperatorResult)
    ensures r.1 == []
    ensures Truthy(v) ==> r.0 == OpName("is_true")
    ensures !Truthy(v) ==> r.0 == OpName("is_false")
  {
    if Truthy(v) then ("is true", []) else ("is false", [])
  }

  /** Whatever its type, a dynamic value passed to `equals` yields "is true". */
  lemma EqualsOnDynamicValue(d: DynamicValue)
    ensures Equals(Dyn(d)) == ("is true", [])
  {
  }

  /** Keys are distinct and only `any` skips the type check. */
  lemma CatalogueShape()
    ensures Assoc.UniqueKeys(Catalogue())
    ensures forall i | 0 <= i < |Catalogue()| :: Catalogue()[i].1.skipTypecheck == Some(true) <==> Catalogue()[i].0 == "any"
    ensures forall i | 0 <= i < |Catalogue()| :: Catalogue()[i].1.validate.None?
  {
  }

  /** `equals` always yields one of the two argument-free catalogue entries. */
  lemma EqualsMatchesCatalogue(v: Value)
    ensures Matches(Def("is_true"), Equals(v)) || Matches(Def("is_false"), Equals(v))
    ensures Truthy(v) ==> Matches(Def("is_true"), Equals(v))
  {
  }
}
