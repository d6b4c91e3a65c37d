/** validate_context: the checks on the context the action is triggered with. */
module Validation {
  import opened Wrappers

  /** The JSON-like values a context entry can hold. */
  datatype Value = Null | Bool(b: bool) | Int(i: int) | Str(s: string) | List(elems: seq<Value>)

  /** Python truthiness: None, False, 0, "" and [] are false. */
  predicate Truthy(v: Value) {
    match v
    case Null => false
    case Bool(b) => b
    case Int(i) => i != 0
    case Str(s) => s != ""
    case List(elems) => elems != []
  }

  /** The context is a dictionary, or None. */
  type Context = Option<map<string, Value>>

  /** context.get(key): None when the key is absent. */
  function Get(entries: map<string, Value>, key: string): Value {
    if key in entries then entries[key] else Null
  }

  /** The three fields the action keeps from its context. */
  datatype SaData = SaData(items: Value, projectId: Value, teamId: Value)

  /** Which of the three checks rejected the context. */
  datatype ContextError = InvalidContext | InvalidItems | InvalidIds

  function ValidateContext(context: Context): (r: Result<SaData, ContextError>)
    ensures r.Ok? <==> && context.Some? && context.value != map[]
                       && Truthy(Get(context.value, "items"))
                       && Truthy(Get(context.value, "project_id"))
                       && Truthy(Get(context.value, "team_id"))
    ensures r.Ok? ==> r.value == SaData(context.value["items"], context.value["project_id"], context.value["team_id"])
    ensures r == Err(InvalidContext) <==> context.None? || context.value == map[]
    ensures r == Err(InvalidItems) <==> context.Some? && context.value != map[] && !Truthy(Get(context.value, "items"))
  {
    if context.None? || context.value == map[] then Err(InvalidContext)
    else
      var entries := context.value;
      var items := Get(entries, "items");
      if !Truthy(items) then Err(InvalidItems)
      else
        var projectId := Get(entries, "project_id");
        var teamId := Get(entries, "team_id");
        if !Truthy(projectId) || !Truthy(teamId) then Err(InvalidIds)
        else Ok(SaData(items, projectId, teamId))
  }

  /** The context built from validated fields validates to exactly those fields. */
  lemma ValidateContextRoundTrip(data: SaData)
    requires Truthy(data.items) && Truthy(data.projectId) && Truthy(data.teamId)
    ensures ValidateContext(Some(map["items" := data.items, "project_id" := data.projectId, "team_id" := data.teamId])) == Ok(data)
  {
    var entries := map["items" := data.items, "project_id" := data.projectId, "team_id" := data.teamId];
    assert "items" in entries && entries != map[];
    assert Get(entries, "items") == data.items;
    assert Get(entries, "project_id") == data.projectId;
    assert Get(entries, "team_id") == data.teamId;
  }

  /** Entries other than the three fields never change the outcome of a non-empty context. */
  lemma ValidateContextIgnoresOtherKeys(entries: map<string, Value>, key: string, v: Value)
    requires entries != map[]
    requires key != "items" && key != "project_id" && key != "team_id"
    ensures ValidateContext(Some(entries[key := v])) == ValidateContext(Some(entries))
  {
    var e' := entries[key := v];
    assert key in e';
    assert Get(e', "items") == Get(entries, "items");
    assert Get(e', "project_id") == Get(entries, "project_id");
    assert Get(e', "team_id") == Get(entries, "team_id");
  }
}
