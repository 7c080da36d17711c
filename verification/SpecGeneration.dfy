/** Spec generation: limits, the duplicate check, and one document per format. */
module SpecGeneration {
  import opened Common
  import opened JsonValues
  import opened Specgen
  import opened EndpointTable
  import opened OpenApi
  import opened AsyncApi
  import opened SchemaBundle

  const MAX_ENDPOINTS: nat := 256

  datatype Format = OpenApi31 | AsyncApi2 | JsonSchema

  datatype Context = Context(generatorVersion: string, source: string, schemaVersion: string)

  datatype Document =
    | OpenApiDocument(context: Context, paths: map<string, PathItem>, schemas: map<string, Json>)
    | AsyncApiDocument(context: Context, channels: map<string, ChannelDoc>, messages: map<string, MessageDoc>)
    | JsonSchemaDocument(context: Context, definitions: map<string, Definition>)

  datatype Outcome = TooMany | Duplicate | Generated(document: Document)

  function DocumentOf(format: Format, arranged: seq<Endpoint>, context: Context): Document
  {
    match format
    case OpenApi31 => OpenApiDocument(context, Emitted(arranged).paths, Emitted(arranged).schemas)
    case AsyncApi2 => AsyncApiDocument(context, Table(arranged, ChannelsOf), Table(arranged, MessagesOf))
    case JsonSchema => JsonSchemaDocument(context, Table(arranged, DefinitionsOf))
  }

  function OutcomeOf(format: Format, endpoints: seq<Endpoint>, context: Context): Outcome
  {
    if |endpoints| > MAX_ENDPOINTS then TooMany
    else if !DistinctKeys(endpoints) then Duplicate
    else Generated(DocumentOf(format, Sorted(endpoints), context))
  }

  method HasDuplicate(endpoints: seq<Endpoint>) returns (found: bool)
    ensures found <==> !DistinctKeys(endpoints)
  {
    hide KeyOf;
    for i := 0 to |endpoints|
      invariant forall k, l :: 0 <= k < i && k < l < |endpoints| ==> KeyOf(endpoints[k]) != KeyOf(endpoints[l])
    {
      for j := i + 1 to |endpoints|
        invariant forall l :: i < l < j ==> KeyOf(endpoints[i]) != KeyOf(endpoints[l])
      {
        if KeyOf(endpoints[i]) == KeyOf(endpoints[j]) {
          return true;
        }
      }
    }
    return false;
  }

  method Generate(format: Format, endpoints: seq<Endpoint>, context: Context) returns (outcome: Outcome)
    ensures outcome == OutcomeOf(format, endpoints, context)
  {
    hide DistinctKeys, Ordered, Sorted, Emitted, Table;
    if |endpoints| > MAX_ENDPOINTS {
      return TooMany;
    }
    var duplicate := HasDuplicate(endpoints);
    if duplicate {
      return Duplicate;
    }
    var arranged := SortEndpoints(endpoints);
    DistinctAnyway(endpoints, arranged);
    SortedArranges(endpoints);
    OneArrangement(arranged, Sorted(endpoints));
    match format {
      case OpenApi31 =>
        var b := EmitEndpoints(arranged);
        outcome := Generated(OpenApiDocument(context, b.paths, b.schemas));
      case AsyncApi2 =>
        var channels, messages := EmitAsyncApi(arranged);
        outcome := Generated(AsyncApiDocument(context, channels, messages));
      case JsonSchema =>
        var definitions := EmitJsonSchema(arranged);
        outcome := Generated(JsonSchemaDocument(context, definitions));
    }
  }

  /** The order in which endpoints are listed never shows in the outcome, success or failure, in any format. */
  lemma OrderDoesNotMatter(format: Format, a: seq<Endpoint>, b: seq<Endpoint>, context: Context)
    requires multiset(a) == multiset(b)
    ensures OutcomeOf(format, a, context) == OutcomeOf(format, b, context)
  {
    hide DistinctKeys, Ordered, Sorted, DocumentOf;
    assert |a| == |multiset(a)| == |multiset(b)| == |b|;
    if DistinctKeys(a) {
      DistinctAnyway(a, b);
      SortedArranges(a);
      SortedArranges(b);
      DistinctAnyway(a, Sorted(a));
      OneArrangement(Sorted(a), Sorted(b));
    } else if DistinctKeys(b) {
      DistinctAnyway(b, a);
    }
  }

  // ---------- From the bundle to its arrangement ----------

  lemma SameMembers(a: seq<Endpoint>, b: seq<Endpoint>, e: Endpoint)
    requires multiset(a) == multiset(b)
    ensures e in a <==> e in b
  {
    assert e in a <==> e in multiset(a);
    assert e in b <==> e in multiset(b);
  }

  /** What holds of the arrangement a generated document is made from. */
  lemma ArrangementOf(endpoints: seq<Endpoint>)
    requires AllNamesValid(endpoints) && DistinctKeys(endpoints)
    ensures var es := Sorted(endpoints);
      && Ordered(es) && DistinctKeys(es) && multiset(es) == multiset(endpoints) && AllNamesValid(es)
      && (forall e :: e in es <==> e in endpoints) && (forall e :: e in es ==> ValidNames(e))
  {
    hide Ordered, DistinctKeys, Sorted, ValidNames;
    var es := Sorted(endpoints);
    SortedArranges(endpoints);
    DistinctAnyway(endpoints, es);
    forall e: Endpoint ensures e in es <==> e in endpoints {
      SameMembers(es, endpoints, e);
    }
    forall e | e in endpoints ensures ValidNames(e) {
    }
    forall i | 0 <= i < |es| ensures ValidNames(es[i]) {
      assert es[i] in endpoints;
    }
  }

  // ---------- OpenAPI ----------

  /** A generated document has one path for each endpoint, holding that endpoint's call or marker and nothing else. */
  lemma DocumentCoversBundle(endpoints: seq<Endpoint>, context: Context)
    requires AllNamesValid(endpoints) && OutcomeOf(OpenApi31, endpoints, context).Generated?
    ensures var paths := OutcomeOf(OpenApi31, endpoints, context).document.paths;
      && |paths| == |endpoints|
      && (forall e :: e in endpoints ==> Path(e) in paths && paths[Path(e)] == ItemOf(e))
  {
    hide DistinctKeys, Ordered, Sorted, Emitted, ValidNames, Path, ItemOf, Marks;
    ArrangementOf(endpoints);
    EveryEndpointPlaced(Sorted(endpoints));
  }

  /** Every reference in the document leads to the schema of the endpoint whose path it stands in. */
  ghost predicate ReferencesRight(document: Document, endpoints: seq<Endpoint>)
    requires document.OpenApiDocument?
  {
    forall e :: e in endpoints ==> RefersRightly(document.paths, document.schemas, e)
  }

  lemma CallsKeptAnyway(a: seq<Endpoint>, b: seq<Endpoint>)
    requires multiset(a) == multiset(b) && CallsKept(a)
    ensures CallsKept(b)
  {
    hide Kept, SchemasOf;
    forall e, name | e in b && IsCall(e) && name in SchemasOf(e) ensures Kept(b, SchemasOf, e, name) {
      SameMembers(a, b, e);
      KeptAnyway(a, b, SchemasOf, e, name);
    }
  }

  /**
   All references of a generated document are right exactly when, for every call of the bundle and each of
   its schema names, the canonically last endpoint that stores a schema of that name stores the call's own.
   */
  lemma DocumentResolves(endpoints: seq<Endpoint>, context: Context)
    requires AllNamesValid(endpoints) && OutcomeOf(OpenApi31, endpoints, context).Generated?
    ensures ReferencesRight(OutcomeOf(OpenApi31, endpoints, context).document, endpoints) <==> CallsKept(endpoints)
  {
    hide DistinctKeys, Ordered, Sorted, Emitted, ValidNames, CallsKept, RefersRightly;
    var es := Sorted(endpoints);
    ArrangementOf(endpoints);
    ReferencesResolve(es);
    if CallsKept(endpoints) {
      CallsKeptAnyway(endpoints, es);
    } else if CallsKept(es) {
      CallsKeptAnyway(es, endpoints);
    }
  }

  /** Two calls that store different requests under one name: the document misdescribes one of them. */
  lemma SharedNameClashes(first: Endpoint, second: Endpoint, context: Context)
    requires ValidNames(first) && ValidNames(second) && IsCall(first) && IsCall(second)
    requires KeyOf(first) != KeyOf(second) && RequestName(first) == RequestName(second)
    requires first.request.Object? && second.request.Object? && first.request != second.request
    ensures var outcome := OutcomeOf(OpenApi31, [first, second], context);
      outcome.Generated? && !ReferencesRight(outcome.document, [first, second])
  {
    var es, name := [first, second], RequestName(first);
    assert DistinctKeys(es);
    assert name in SchemasOf(first) && SchemasOf(first)[name] == first.request by { RequestIsFirst(first); }
    assert name in SchemasOf(second) && SchemasOf(second)[name] == second.request by { RequestIsFirst(second); }
    hide Sorted, Emitted, SchemasOf, ReferencesRight, DistinctKeys, ValidNames, RequestName;
    DocumentResolves(es, context);
    SortedArranges(es);
    SameMembers(es, Sorted(es), first);
    OneIsLost(Sorted(es), SchemasOf, first, second, name);
    KeptAnyway(es, Sorted(es), SchemasOf, first, name);
    KeptAnyway(es, Sorted(es), SchemasOf, second, name);
    assert first in es && second in es;
  }

  lemma RequestIsFirst(e: Endpoint)
    requires e.request.Object?
    ensures RequestName(e) in SchemasOf(e) && SchemasOf(e)[RequestName(e)] == e.request
  {
    assert RequestName(e)[|RequestName(e)| - 1] == 't';
    assert ResponseName(e)[|ResponseName(e)| - 1] == 'e';
  }

  function Call(ns: string, name: string, version: string, shape: map<string, Json>): Endpoint
  {
    Endpoint(ns, name, version, "operation", "call", "", Object(shape), Null, [], "", [])
  }

  /** Two versions of one call clash over their request. */
  lemma TwoVersionsClash(shape: map<string, Json>, other: map<string, Json>, context: Context)
    requires shape != other
    ensures var es := [Call("n", "c", "1.0", shape), Call("n", "c", "2.0", other)];
      var outcome := OutcomeOf(OpenApi31, es, context);
      outcome.Generated? && !ReferencesRight(outcome.document, es)
  {
    hide OutcomeOf, ReferencesRight, Path, IsVersion;
    SomeVersions();
    SharedNameClashes(Call("n", "c", "1.0", shape), Call("n", "c", "2.0", other), context);
  }

  /** So do two namespaces, because names and namespaces may hold the separator. */
  lemma TwoNamespacesClash(shape: map<string, Json>, other: map<string, Json>, context: Context)
    requires shape != other
    ensures var es := [Call("a_b", "c", "1.0", shape), Call("a", "b_c", "1.0", other)];
      var outcome := OutcomeOf(OpenApi31, es, context);
      outcome.Generated? && !ReferencesRight(outcome.document, es)
  {
    hide OutcomeOf, ReferencesRight, Path, IsVersion;
    SomeVersions();
    var first, second := Call("a_b", "c", "1.0", shape), Call("a", "b_c", "1.0", other);
    assert RequestName(first) == RequestName(second) by {
      assert "a_b" + "_" + "c" + "_request" == "a" + "_" + "b_c" + "_request";
    }
    assert ValidNames(first) && ValidNames(second);
    hide RequestName, ValidNames;
    SharedNameClashes(first, second, context);
  }

  lemma SomeVersions()
    ensures IsVersion("1.0") && IsVersion("2.0")
  {
    hide IsVersion;
    OneDotZero("1");
    OneDotZero("2");
    assert "1" + ".0" == "1.0" && "2" + ".0" == "2.0";
  }

  lemma OneDotZero(major: string)
    requires |major| == 1 && IsDigit(major[0])
    ensures IsVersion(major + ".0")
  {
    var parts := [major, "0"];
    assert parts[1..] == ["0"];
    assert JoinDots(parts) == major + "." + "0";
    assert "." + "0" == ".0" && major + "." + "0" == major + ("." + "0");
    assert NumericParts(parts);
  }

  // ---------- AsyncAPI ----------

  /** Each event or stream has its own channel, and every channel is one's. */
  lemma ChannelsCoverEvents(endpoints: seq<Endpoint>, context: Context)
    requires AllNamesValid(endpoints) && OutcomeOf(AsyncApi2, endpoints, context).Generated?
    ensures var channels := OutcomeOf(AsyncApi2, endpoints, context).document.channels;
      && (forall e :: e in endpoints && HasChannel(e) ==>
            ChannelName(e) in channels && channels[ChannelName(e)] == ChannelOf(e))
      && (forall name :: name in channels ==> exists e :: e in endpoints && HasChannel(e) && name == ChannelName(e))
  {
    hide DistinctKeys, Ordered, Sorted, ValidNames, Table, ChannelName, ChannelOf;
    var es := Sorted(endpoints);
    ArrangementOf(endpoints);
    forall e | e in endpoints && HasChannel(e)
      ensures ChannelName(e) in Table(es, ChannelsOf) && Table(es, ChannelsOf)[ChannelName(e)] == ChannelOf(e)
    {
      OwnChannel(es, e);
    }
    forall name | name in Table(es, ChannelsOf)
      ensures exists e :: e in endpoints && HasChannel(e) && name == ChannelName(e) {
      EntryHasOwner(es, ChannelsOf, name);
      var e :| e in es && name in ChannelsOf(e);
      assert e in endpoints && HasChannel(e) && name == ChannelName(e);
    }
  }

  /** A channel refers to its own endpoint's message exactly when the canonically last
   message of that name is the same. */
  lemma ChannelsDescribe(endpoints: seq<Endpoint>, context: Context, e: Endpoint)
    requires AllNamesValid(endpoints) && OutcomeOf(AsyncApi2, endpoints, context).Generated?
    requires e in endpoints && HasChannel(e)
    ensures var document := OutcomeOf(AsyncApi2, endpoints, context).document;
      Describes(document.channels, document.messages, e) <==> Kept(endpoints, MessagesOf, e, MessageName(e))
  {
    hide DistinctKeys, Ordered, Sorted, ValidNames, Table, Kept, Describes;
    var es := Sorted(endpoints);
    ArrangementOf(endpoints);
    DescribesIff(es, e);
    KeptAnyway(es, endpoints, MessagesOf, e, MessageName(e));
  }

  // ---------- JSON Schema ----------

  /** The bundle defines an endpoint exactly when the canonically last definition of its name is the same. */
  lemma BundleDefines(endpoints: seq<Endpoint>, context: Context, e: Endpoint)
    requires OutcomeOf(JsonSchema, endpoints, context).Generated? && e in endpoints
    ensures Defines(OutcomeOf(JsonSchema, endpoints, context).document.definitions, e) <==>
      Kept(endpoints, DefinitionsOf, e, DefinitionName(e))
  {
    hide DistinctKeys, Ordered, Sorted, Table, Kept, Defines;
    var es := Sorted(endpoints);
    SortedArranges(endpoints);
    DistinctAnyway(endpoints, es);
    SameMembers(es, endpoints, e);
    DefinesIff(es, e);
    KeptAnyway(es, endpoints, DefinitionsOf, e, DefinitionName(e));
  }

  // ---------- Clashes in the other two formats ----------

  function EventOf(version: string, summary: string): Endpoint
  {
    Endpoint("n", "c", version, "event", summary, "", Null, Null, [], "", [])
  }

  lemma TwoEvents(summary: string, other: string)
    ensures var es := [EventOf("1.0", summary), EventOf("2.0", other)];
      && AllNamesValid(es) && DistinctKeys(es) && |es| <= MAX_ENDPOINTS
      && es[0] in es && es[1] in es && es[0] in Sorted(es)
      && multiset(Sorted(es)) == multiset(es) && Ordered(Sorted(es))
  {
    hide IsVersion, Sorted, Ordered;
    SomeVersions();
    var es := [EventOf("1.0", summary), EventOf("2.0", other)];
    assert es[0].version != es[1].version;
    SortedArranges(es);
    SameMembers(es, Sorted(es), es[0]);
  }

  /** Two versions of an event share a message: the channel of one of them describes the other. */
  lemma TwoVersionsShareMessage(summary: string, other: string, context: Context)
    requires summary != other
    ensures var es := [EventOf("1.0", summary), EventOf("2.0", other)];
      var outcome := OutcomeOf(AsyncApi2, es, context);
      && outcome.Generated?
      && !(Describes(outcome.document.channels, outcome.document.messages, es[0])
           && Describes(outcome.document.channels, outcome.document.messages, es[1]))
  {
    hide Sorted, Ordered, Table, Describes, AllNamesValid, DistinctKeys, Kept;
    var es := [EventOf("1.0", summary), EventOf("2.0", other)];
    TwoEvents(summary, other);
    var name := MessageName(es[0]);
    OneIsLost(Sorted(es), MessagesOf, es[0], es[1], name);
    KeptAnyway(es, Sorted(es), MessagesOf, es[0], name);
    KeptAnyway(es, Sorted(es), MessagesOf, es[1], name);
    ChannelsDescribe(es, context, es[0]);
    ChannelsDescribe(es, context, es[1]);
  }

  /** They share a definition too: the bundle does not define one of them. */
  lemma TwoVersionsShareDefinition(summary: string, other: string, context: Context)
    requires summary != other
    ensures var es := [EventOf("1.0", summary), EventOf("2.0", other)];
      var outcome := OutcomeOf(JsonSchema, es, context);
      && outcome.Generated?
      && !(Defines(outcome.document.definitions, es[0]) && Defines(outcome.document.definitions, es[1]))
  {
    hide Sorted, Ordered, Table, Defines, AllNamesValid, DistinctKeys, Kept;
    var es := [EventOf("1.0", summary), EventOf("2.0", other)];
    TwoEvents(summary, other);
    var name := DefinitionName(es[0]);
    OneIsLost(Sorted(es), DefinitionsOf, es[0], es[1], name);
    KeptAnyway(es, Sorted(es), DefinitionsOf, es[0], name);
    KeptAnyway(es, Sorted(es), DefinitionsOf, es[1], name);
    BundleDefines(es, context, es[0]);
    BundleDefines(es, context, es[1]);
  }

  // ---------- What the documents say, field by field ----------

  /** The outcome is settled by the number of endpoints and by whether two share namespace, name and version. */
  lemma OutcomeMeans(format: Format, endpoints: seq<Endpoint>, context: Context)
    ensures OutcomeOf(format, endpoints, context) == TooMany <==> |endpoints| > 256
    ensures OutcomeOf(format, endpoints, context) == Duplicate <==>
      && |endpoints| <= 256
      && exists i, j :: 0 <= i < j < |endpoints| && endpoints[i].ns == endpoints[j].ns
           && endpoints[i].name == endpoints[j].name && endpoints[i].version == endpoints[j].version
  {
    hide Sorted, DocumentOf;
  }

  predicate SameNotes(notes: Notes, e: Endpoint)
  {
    notes.attribution == e.attribution && notes.confidence == e.confidence && notes.privacy == e.privacy
  }

  /** What the OpenAPI document holds under an endpoint's path. */
  lemma OpenApiContents(endpoints: seq<Endpoint>, context: Context, e: Endpoint)
    requires AllNamesValid(endpoints) && OutcomeOf(OpenApi31, endpoints, context).Generated? && e in endpoints
    ensures
      var document := OutcomeOf(OpenApi31, endpoints, context).document;
      var path := "/" + e.ns + "/" + e.name + "/v" + e.version;
      && document.OpenApiDocument? && document.context == context && path in document.paths
      && var item := document.paths[path];
      if e.kind == "operation" || e.kind == "event" then
        && item.get.None? && item.post.Some?
        && var op := item.post.value;
        && op.operationId == e.ns + "." + e.name && op.summary == e.summary && op.description == e.description
        && SameNotes(op.notes, e) && (op.isEvent <==> e.kind == "event")
        && op.requestRef == (if e.request.Object? then Some(e.ns + "_" + e.name + "_request") else None)
        && op.responseRef == (if e.response.Object? then Some(e.ns + "_" + e.name + "_response") else None)
      else
        && item.post.None? && item.get.Some? && SameNotes(item.get.value.notes, e)
        && item.get.value.summary == e.summary + " (stream; see AsyncAPI spec)"
  {
    DocumentCoversBundle(endpoints, context);
    hide DistinctKeys, Sorted, Emitted, ValidNames;
  }

  /** What the AsyncAPI document holds for an event or stream whose message is kept. */
  lemma AsyncApiContents(endpoints: seq<Endpoint>, context: Context, e: Endpoint)
    requires AllNamesValid(endpoints) && OutcomeOf(AsyncApi2, endpoints, context).Generated? && e in endpoints
    requires e.kind != "operation"
    ensures
      var document := OutcomeOf(AsyncApi2, endpoints, context).document;
      var name := e.ns + "/" + e.name + "/v" + e.version;
      && document.AsyncApiDocument? && document.context == context && name in document.channels
      && document.channels[name].messageRef == e.ns + "_" + e.name
      && document.channels[name].confidence == e.confidence
      && (Kept(endpoints, MessagesOf, e, e.ns + "_" + e.name) ==>
            && e.ns + "_" + e.name in document.messages
            && var message := document.messages[e.ns + "_" + e.name];
            && message.name == e.ns + "." + e.name && message.title == e.summary
            && message.description == e.description && SameNotes(message.notes, e)
            && message.payload == if e.response.Object? then Some(e.response) else None)
  {
    ChannelsCoverEvents(endpoints, context);
    ChannelsDescribe(endpoints, context, e);
    hide DistinctKeys, Sorted, Table, ValidNames, Kept;
  }

  /** What the schema bundle holds for an endpoint whose definition is kept. */
  lemma BundleContents(endpoints: seq<Endpoint>, context: Context, e: Endpoint)
    requires OutcomeOf(JsonSchema, endpoints, context).Generated? && e in endpoints
    requires Kept(endpoints, DefinitionsOf, e, e.ns + "_" + e.name)
    ensures
      var document := OutcomeOf(JsonSchema, endpoints, context).document;
      && document.JsonSchemaDocument? && document.context == context
      && e.ns + "_" + e.name in document.definitions
      && var entry := document.definitions[e.ns + "_" + e.name];
      && entry.title == e.summary && entry.description == e.description && SameNotes(entry.notes, e)
      && entry.request == (if e.request.Object? then Some(e.request) else None)
      && entry.response == (if e.response.Object? then Some(e.response) else None)
  {
    BundleDefines(endpoints, context, e);
    hide DistinctKeys, Sorted, Table, Kept;
  }
}
