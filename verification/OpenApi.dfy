/** The OpenAPI document generated from a bundle of endpoint descriptors. */
module OpenApi {
  import opened Common
  import opened JsonValues
  import opened Specgen
  import opened EndpointTable

  /** A missing response reference is the 204 response. */
  datatype Operation = Operation(
    operationId: string, summary: string, description: string, notes: Notes,
    requestRef: Option<string>, responseRef: Option<string>, isEvent: bool)

  datatype Marker = Marker(summary: string, notes: Notes)

  datatype PathItem = PathItem(post: Option<Operation>, get: Option<Marker>)

  /** The document under construction. */
  datatype Build = Build(paths: map<string, PathItem>, schemas: map<string, Json>, seen: set<string>)

  const EMPTY := Build(map[], map[], {})

  function RequestName(e: Endpoint): string { e.ns + "_" + e.name + "_request" }

  function ResponseName(e: Endpoint): string { e.ns + "_" + e.name + "_response" }

  function OperationId(e: Endpoint): string { e.ns + "." + e.name }

  function OperationOf(e: Endpoint): Operation
  {
    Operation(
      OperationId(e), e.summary, e.description, NotesOf(e),
      if e.request.Object? then Some(RequestName(e)) else None,
      if e.response.Object? then Some(ResponseName(e)) else None,
      e.kind == "event")
  }

  function MarkerOf(e: Endpoint): Marker
  {
    Marker(e.summary + " (stream; see AsyncAPI spec)", NotesOf(e))
  }

  predicate IsCall(e: Endpoint) { e.kind == "operation" || e.kind == "event" }

  /** What the path of an endpoint should hold. */
  function ItemOf(e: Endpoint): PathItem
  {
    if IsCall(e) then PathItem(Some(OperationOf(e)), None) else PathItem(None, Some(MarkerOf(e)))
  }

  function AddSchemas(schemas: map<string, Json>, e: Endpoint): map<string, Json>
  {
    var withRequest := if e.request.Object? then schemas[RequestName(e) := e.request] else schemas;
    if e.response.Object? then withRequest[ResponseName(e) := e.response] else withRequest
  }

  function AddPath(b: Build, e: Endpoint): Build
  {
    var path := Path(e);
    if IsCall(e) then
      var item := if path in b.seen && path in b.paths then b.paths[path] else PathItem(None, None);
      b.(paths := b.paths[path := item.(post := Some(OperationOf(e)))], seen := b.seen + {path})
    else if path + "#stream" in b.seen then b
    else
      b.(paths := b.paths[path := PathItem(None, Some(MarkerOf(e)))], seen := b.seen + {path + "#stream"})
  }

  function Emitted(es: seq<Endpoint>): Build
  {
    if es == [] then EMPTY
    else
      var n := |es| - 1;
      var b := Emitted(es[..n]);
      AddPath(b.(schemas := AddSchemas(b.schemas, es[n])), es[n])
  }

  method EmitEndpoints(sorted: seq<Endpoint>) returns (b: Build)
    ensures b == Emitted(sorted)
  {
    hide AddPath, AddSchemas;
    b := EMPTY;
    assert sorted[..0] == [];
    for i := 0 to |sorted|
      invariant b == Emitted(sorted[..i])
    {
      assert sorted[..i + 1][..i] == sorted[..i];
      var endpoint := sorted[i];
      var schemas := RegisterSchemas(b.schemas, endpoint);
      b := PlaceEndpoint(b.(schemas := schemas), endpoint);
    }
    assert sorted[..|sorted|] == sorted;
  }

  method RegisterSchemas(schemas: map<string, Json>, endpoint: Endpoint) returns (extended: map<string, Json>)
    ensures extended == AddSchemas(schemas, endpoint)
  {
    extended := schemas;
    if endpoint.request.Object? {
      extended := extended[RequestName(endpoint) := endpoint.request];
    }
    if endpoint.response.Object? {
      extended := extended[ResponseName(endpoint) := endpoint.response];
    }
  }

  method PlaceEndpoint(b: Build, endpoint: Endpoint) returns (placed: Build)
    ensures placed == AddPath(b, endpoint)
  {
    hide OperationOf, MarkerOf, Path;
    var path := Path(endpoint);
    var paths := b.paths;
    if IsCall(endpoint) {
      if path !in b.seen {
        paths := paths[path := PathItem(None, None)];
      }
      var item := if path in paths then paths[path] else PathItem(None, None);
      paths := paths[path := item.(post := Some(OperationOf(endpoint)))];
      placed := b.(paths := paths, seen := b.seen + {path});
    } else if path + "#stream" !in b.seen {
      paths := paths[path := PathItem(None, Some(MarkerOf(endpoint)))];
      placed := b.(paths := paths, seen := b.seen + {path + "#stream"});
    } else {
      placed := b;
    }
  }

  // ---------- Paths ----------

  predicate HashFree(s: string)
  {
    forall i :: 0 <= i < |s| ==> s[i] != '#'
  }

  lemma {:induction false} VersionHashFree(parts: seq<string>)
    requires parts != [] && NumericParts(parts)
    ensures HashFree(JoinDots(parts))
  {
    assert AllDigits(parts[0]);
    if |parts| > 1 {
      VersionHashFree(parts[1..]);
    }
  }

  lemma PathHashFree(e: Endpoint)
    requires ValidNames(e)
    ensures HashFree(Path(e))
  {
    var parts :| 2 <= |parts| <= 3 && NumericParts(parts) && JoinDots(parts) == e.version;
    VersionHashFree(parts);
  }

  /** Every mark in the seen set comes from a path. */
  predicate Marks(seen: set<string>, es: seq<Endpoint>)
  {
    forall mark :: mark in seen ==>
      exists i :: 0 <= i < |es| && (mark == Path(es[i]) || mark == Path(es[i]) + "#stream")
  }

  ghost predicate AllNamesValid(es: seq<Endpoint>)
  {
    forall i :: 0 <= i < |es| ==> ValidNames(es[i])
  }

  ghost predicate Placed(b: Build, es: seq<Endpoint>)
  {
    && |b.paths| == |es|
    && (forall i :: 0 <= i < |es| ==> Path(es[i]) in b.paths && b.paths[Path(es[i])] == ItemOf(es[i]))
    && (forall path :: path in b.paths ==> exists i :: 0 <= i < |es| && path == Path(es[i]))
  }

  lemma NewPath(es: seq<Endpoint>, e: Endpoint, b: Build)
    requires AllNamesValid(es + [e]) && DistinctKeys(es + [e]) && Placed(b, es) && Marks(b.seen, es)
    ensures Path(e) !in b.paths
    ensures Path(e) + "#stream" !in b.seen
  {
    hide Path, ValidNames, ItemOf;
    var all := es + [e];
    assert all[|es|] == e && ValidNames(e);
    PathHashFree(e);
    forall i | 0 <= i < |es|
      ensures Path(es[i]) != Path(e) && Path(es[i]) != Path(e) + "#stream"
        && Path(es[i]) + "#stream" != Path(e) + "#stream"
    {
      assert all[i] == es[i] && ValidNames(es[i]);
      if Path(es[i]) == Path(e) {
        PathIsInjective(es[i], e);
      }
      PathHashFree(es[i]);
      SuffixDiffers(Path(es[i]), Path(e));
    }
  }

  lemma SuffixDiffers(p: string, q: string)
    requires HashFree(p)
    ensures p != q + "#stream"
    ensures p + "#stream" == q + "#stream" ==> p == q
  {
    assert (q + "#stream")[|q|] == '#';
    assert (p + "#stream")[..|p + "#stream"| - 7] == p;
    assert (q + "#stream")[..|q + "#stream"| - 7] == q;
  }

  lemma AddNewPath(b: Build, e: Endpoint)
    requires Path(e) !in b.paths && Path(e) + "#stream" !in b.seen
    ensures AddPath(b, e).paths == b.paths[Path(e) := ItemOf(e)]
    ensures AddPath(b, e).seen <= b.seen + {Path(e), Path(e) + "#stream"}
  {
    hide Path, OperationOf, MarkerOf;
  }

  lemma PlacedStep(es: seq<Endpoint>, e: Endpoint, b: Build, c: Build)
    requires Placed(b, es) && Path(e) !in b.paths && c.paths == b.paths[Path(e) := ItemOf(e)]
    ensures Placed(c, es + [e])
  {
    hide Path, ItemOf;
    var all := es + [e];
    assert |c.paths| == |all| by {
      assert c.paths.Keys == b.paths.Keys + {Path(e)};
    }
    forall i | 0 <= i < |all| ensures Path(all[i]) in c.paths && c.paths[Path(all[i])] == ItemOf(all[i]) {
      if i < |es| {
        assert all[i] == es[i];
      }
    }
    forall path | path in c.paths ensures exists i :: 0 <= i < |all| && path == Path(all[i]) {
      if path == Path(e) {
        assert path == Path(all[|es|]);
      } else {
        var i :| 0 <= i < |es| && path == Path(es[i]);
        assert path == Path(all[i]);
      }
    }
  }

  lemma MarksStep(es: seq<Endpoint>, e: Endpoint, seen: set<string>, more: set<string>)
    requires Marks(seen, es) && more <= seen + {Path(e), Path(e) + "#stream"}
    ensures Marks(more, es + [e])
  {
    hide Path;
    var all := es + [e];
    forall mark | mark in more
      ensures exists i :: 0 <= i < |all| && (mark == Path(all[i]) || mark == Path(all[i]) + "#stream")
    {
      if mark in seen {
        var i :| 0 <= i < |es| && (mark == Path(es[i]) || mark == Path(es[i]) + "#stream");
        assert Path(all[i]) == Path(es[i]);
      } else {
        assert all[|es|] == e;
      }
    }
  }

  lemma {:induction false} EveryEndpointPlaced(es: seq<Endpoint>)
    requires AllNamesValid(es) && DistinctKeys(es)
    ensures Placed(Emitted(es), es) && Marks(Emitted(es).seen, es)
  {
    hide AddPath, AddSchemas, ItemOf, Path, ValidNames, KeyOf;
    if es != [] {
      var n := |es| - 1;
      var b := Emitted(es[..n]);
      EveryEndpointPlaced(es[..n]);
      assert es == es[..n] + [es[n]];
      var extended := b.(schemas := AddSchemas(b.schemas, es[n]));
      assert Placed(extended, es[..n]);
      NewPath(es[..n], es[n], extended);
      AddNewPath(extended, es[n]);
      PlacedStep(es[..n], es[n], extended, Emitted(es));
      MarksStep(es[..n], es[n], extended.seen, Emitted(es).seen);
    }
  }

  // ---------- Schemas and references ----------

  /** The schemas an endpoint stores. */
  function SchemasOf(e: Endpoint): map<string, Json>
  {
    (if e.request.Object? then map[RequestName(e) := e.request] else map[])
    + (if e.response.Object? then map[ResponseName(e) := e.response] else map[])
  }

  lemma AddPathKeepsSchemas(b: Build, e: Endpoint)
    ensures AddPath(b, e).schemas == b.schemas
  {
  }

  lemma AddSchemasIs(schemas: map<string, Json>, e: Endpoint)
    ensures AddSchemas(schemas, e) == schemas + SchemasOf(e)
  {
    hide RequestName, ResponseName;
  }

  lemma {:induction false} SchemasAreTable(es: seq<Endpoint>)
    ensures Emitted(es).schemas == Table(es, SchemasOf)
  {
    hide AddPath, AddSchemas, SchemasOf;
    if es != [] {
      var n := |es| - 1;
      var b := Emitted(es[..n]);
      SchemasAreTable(es[..n]);
      AddSchemasIs(b.schemas, es[n]);
      AddPathKeepsSchemas(b.(schemas := AddSchemas(b.schemas, es[n])), es[n]);
    }
  }

  /** The schema names a path entry refers to. */
  function ReferencesIn(item: PathItem): set<string>
  {
    if item.post.None? then {}
    else
      var call := item.post.value;
      (if call.requestRef.Some? then {call.requestRef.value} else {})
      + (if call.responseRef.Some? then {call.responseRef.value} else {})
  }

  lemma ReferencesOf(e: Endpoint, name: string)
    ensures name in ReferencesIn(ItemOf(e)) <==> IsCall(e) && name in SchemasOf(e)
  {
    hide RequestName, ResponseName;
  }

  /** Every reference in the entry of an endpoint's path leads to that endpoint's own schema. */
  ghost predicate RefersRightly(paths: map<string, PathItem>, schemas: map<string, Json>, e: Endpoint)
  {
    && Path(e) in paths
    && (forall name :: name in ReferencesIn(paths[Path(e)]) ==>
          name in SchemasOf(e) && name in schemas && schemas[name] == SchemasOf(e)[name])
  }

  /** For every call, the canonically last schema stored under each of its names is its own. */
  ghost predicate CallsKept(es: seq<Endpoint>)
  {
    forall e, name :: e in es && IsCall(e) && name in SchemasOf(e) ==> Kept(es, SchemasOf, e, name)
  }

  lemma RefersRightlyIff(es: seq<Endpoint>, e: Endpoint)
    requires AllNamesValid(es) && Ordered(es) && DistinctKeys(es) && e in es
    ensures RefersRightly(Emitted(es).paths, Emitted(es).schemas, e) <==>
      forall name :: IsCall(e) && name in SchemasOf(e) ==> Kept(es, SchemasOf, e, name)
  {
    hide Emitted, SchemasOf, ItemOf, Path, Kept, Ordered, DistinctKeys, ValidNames, Table, Marks;
    EveryEndpointPlaced(es);
    SchemasAreTable(es);
    var i :| 0 <= i < |es| && es[i] == e;
    assert Emitted(es).paths[Path(e)] == ItemOf(e);
    forall name ensures name in ReferencesIn(ItemOf(e)) <==> IsCall(e) && name in SchemasOf(e) {
      ReferencesOf(e, name);
    }
    forall name | name in SchemasOf(e)
      ensures name in Table(es, SchemasOf)
      ensures Table(es, SchemasOf)[name] == SchemasOf(e)[name] <==> Kept(es, SchemasOf, e, name)
    {
      FindsOwnEntry(es, SchemasOf, e, name);
    }
  }

  /** All references in the document are right exactly when every call's names are stored last
   by the call's own schemas. */
  lemma ReferencesResolve(es: seq<Endpoint>)
    requires AllNamesValid(es) && Ordered(es) && DistinctKeys(es)
    ensures (forall e :: e in es ==> RefersRightly(Emitted(es).paths, Emitted(es).schemas, e)) <==> CallsKept(es)
  {
    hide Emitted, SchemasOf, Kept, Ordered, DistinctKeys, ValidNames, RefersRightly;
    forall e | e in es
      ensures RefersRightly(Emitted(es).paths, Emitted(es).schemas, e) <==>
        forall name :: IsCall(e) && name in SchemasOf(e) ==> Kept(es, SchemasOf, e, name)
    {
      RefersRightlyIff(es, e);
    }
  }

  // ---------- Operation identifiers ----------

  /** No two calls of the bundle carry one operation identifier. */
  predicate IdsUnique(es: seq<Endpoint>)
  {
    forall i, j :: 0 <= i < j < |es| && IsCall(es[i]) && IsCall(es[j]) ==> OperationId(es[i]) != OperationId(es[j])
  }

  /** No two calls of the bundle are versions of one endpoint. */
  predicate OneVersionEach(es: seq<Endpoint>)
  {
    forall i, j :: 0 <= i < j < |es| && IsCall(es[i]) && IsCall(es[j]) ==>
      (es[i].ns, es[i].name) != (es[j].ns, es[j].name)
  }

  lemma DotSplits(a: string, x: string, b: string, y: string)
    requires DotFree(a) && DotFree(b) && a + "." + x == b + "." + y
    ensures a == b && x == y
  {
    var s := a + "." + x;
    assert s[|a|] == '.' && (b + "." + y)[|b|] == '.';
    assert |a| == |b|;
    assert s[..|a|] == a && (b + "." + y)[..|b|] == b;
    assert s[|a| + 1..] == x && (b + "." + y)[|b| + 1..] == y;
  }

  /** Operation identifiers leave the version out: they are unique exactly when no call has two versions. */
  lemma IdsUniqueMeans(es: seq<Endpoint>)
    requires AllNamesValid(es)
    ensures IdsUnique(es) <==> OneVersionEach(es)
  {
    hide IsVersion;
    if OneVersionEach(es) {
      forall i, j | 0 <= i < j < |es| && IsCall(es[i]) && IsCall(es[j])
        ensures OperationId(es[i]) != OperationId(es[j]) {
        assert ValidNames(es[i]) && ValidNames(es[j]);
        if OperationId(es[i]) == OperationId(es[j]) {
          DotSplits(es[i].ns, es[i].name, es[j].ns, es[j].name);
        }
      }
    }
  }
}
