/** The JSON Schema bundle: one definition per namespace and name. */
module SchemaBundle {
  import opened Common
  import opened JsonValues
  import opened Specgen
  import opened EndpointTable

  datatype Definition = Definition(
    title: string, description: string, request: Option<Json>, response: Option<Json>, notes: Notes)

  function DefinitionName(e: Endpoint): string { e.ns + "_" + e.name }

  function DefinitionOf(e: Endpoint): Definition
  {
    Definition(e.summary, e.description,
               if e.request.Object? then Some(e.request) else None,
               if e.response.Object? then Some(e.response) else None, NotesOf(e))
  }

  function DefinitionsOf(e: Endpoint): map<string, Definition>
  {
    map[DefinitionName(e) := DefinitionOf(e)]
  }

  method EmitJsonSchema(sorted: seq<Endpoint>) returns (definitions: map<string, Definition>)
    ensures definitions == Table(sorted, DefinitionsOf)
  {
    hide Table;
    definitions := map[];
    TableEnds(sorted, DefinitionsOf);
    for i := 0 to |sorted|
      invariant definitions == Table(sorted[..i], DefinitionsOf)
    {
      TableStep(sorted, DefinitionsOf, i);
      var entry := MakeDefinition(sorted[i]);
      var name := sorted[i].ns + "_" + sorted[i].name;
      PutOne(definitions, name, entry);
      definitions := definitions[name := entry];
    }
  }

  method MakeDefinition(endpoint: Endpoint) returns (entry: Definition)
    ensures entry == DefinitionOf(endpoint)
  {
    entry := Definition(endpoint.summary, endpoint.description, None, None, NotesOf(endpoint));
    if endpoint.request.Object? {
      entry := entry.(request := Some(endpoint.request));
    }
    if endpoint.response.Object? {
      entry := entry.(response := Some(endpoint.response));
    }
  }

  /** The bundle defines an endpoint. */
  ghost predicate Defines(definitions: map<string, Definition>, e: Endpoint)
  {
    DefinitionName(e) in definitions && definitions[DefinitionName(e)] == DefinitionOf(e)
  }

  /** It does exactly when the canonically last definition of that name equals the endpoint's. */
  lemma DefinesIff(es: seq<Endpoint>, e: Endpoint)
    requires Ordered(es) && DistinctKeys(es) && e in es
    ensures Defines(Table(es, DefinitionsOf), e) <==> Kept(es, DefinitionsOf, e, DefinitionName(e))
  {
    hide Ordered, DistinctKeys, Kept, Table;
    FindsOwnEntry(es, DefinitionsOf, e, DefinitionName(e));
  }
}
