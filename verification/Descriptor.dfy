/** Validation of endpoint descriptors, and of the schema subset their shapes are written in. */
module Descriptor {
  import opened Common
  import opened JsonValues
  import opened Specgen

  const MAX_SCHEMA_DEPTH: nat := 8
  const MAX_SCHEMA_PROPERTIES: nat := 64
  const MAX_SCHEMA_ENUM_ITEMS: nat := 64

  const SCHEMA_KEYS := {"type", "description", "properties", "items", "required", "enum"}
  const SCHEMA_TYPES := ["object", "array", "string", "number", "integer", "boolean", "null"]

  predicate BoundedString(value: Json, limit: nat)
  {
    value.String? && |value.text| <= limit
  }

  predicate Scalar(value: Json)
  {
    value.String? || value.Int? || value.Float? || value.Bool? || value.Null?
  }

  predicate PropertyChar(c: char) { IsDigit(c) || IsUpper(c) || 'a' <= c <= 'z' || c == '_' }

  predicate PropertyName(name: string)
  {
    name != "" && |name| <= 64 && forall i :: 0 <= i < |name| ==> PropertyChar(name[i])
  }

  // ---------- One schema node ----------

  predicate KnownKeys(fields: map<string, Json>)
  {
    forall key :: key in fields ==> key in SCHEMA_KEYS
  }

  predicate TypeFits(fields: map<string, Json>)
  {
    "type" in fields && fields["type"].String? && fields["type"].text in SCHEMA_TYPES
  }

  predicate DescriptionFits(fields: map<string, Json>)
  {
    "description" in fields ==> BoundedString(fields["description"], 512)
  }

  predicate PropertiesFit(fields: map<string, Json>)
  {
    "properties" in fields ==>
      && fields["properties"].Object? && |fields["properties"].fields| <= MAX_SCHEMA_PROPERTIES
      && (forall name :: name in fields["properties"].fields ==> PropertyName(name))
  }

  predicate RequiredFits(fields: map<string, Json>)
  {
    "required" in fields ==>
      && fields["required"].Array? && |fields["required"].items| <= MAX_SCHEMA_PROPERTIES
      && (forall i :: 0 <= i < |fields["required"].items| ==> BoundedString(fields["required"].items[i], 64))
  }

  predicate EnumFits(fields: map<string, Json>)
  {
    "enum" in fields ==>
      && fields["enum"].Array? && |fields["enum"].items| <= MAX_SCHEMA_ENUM_ITEMS
      && (forall i :: 0 <= i < |fields["enum"].items| ==> Scalar(fields["enum"].items[i]))
  }

  /** Everything demanded of one node apart from the nodes below it. */
  predicate WellMade(doc: Json)
  {
    && doc.Object? && KnownKeys(doc.fields) && TypeFits(doc.fields) && DescriptionFits(doc.fields)
    && PropertiesFit(doc.fields) && RequiredFits(doc.fields) && EnumFits(doc.fields)
  }

  // What one node may say, in the numbers and names of the descriptor format.

  lemma KeyRules(f: map<string, Json>)
    ensures KnownKeys(f) <==>
      forall key :: key in f ==> key in ["type", "description", "properties", "items", "required", "enum"]
  {
  }

  lemma TypeRules(f: map<string, Json>)
    ensures TypeFits(f) <==>
      && "type" in f && f["type"].String?
      && f["type"].text in ["object", "array", "string", "number", "integer", "boolean", "null"]
  {
  }

  lemma DescriptionRules(f: map<string, Json>)
    requires "description" in f
    ensures DescriptionFits(f) <==> f["description"].String? && |f["description"].text| <= 512
  {
  }

  lemma PropertyRules(f: map<string, Json>)
    requires "properties" in f
    ensures PropertiesFit(f) <==>
      && f["properties"].Object? && |f["properties"].fields| <= 64
      && forall name :: name in f["properties"].fields ==> 1 <= |name| <= 64 && Word(name)
  {
    hide PropertyName, Word;
    forall name: string ensures PropertyName(name) <==> 1 <= |name| <= 64 && Word(name) {
      PropertyNameRules(name);
    }
  }

  lemma PropertyNameRules(name: string)
    ensures PropertyName(name) <==> 1 <= |name| <= 64 && Word(name)
  {
  }

  lemma RequiredRules(f: map<string, Json>)
    requires "required" in f
    ensures RequiredFits(f) <==>
      && f["required"].Array? && |f["required"].items| <= 64
      && forall v :: v in f["required"].items ==> v.String? && |v.text| <= 64
  {
  }

  lemma EnumRules(f: map<string, Json>)
    requires "enum" in f
    ensures EnumFits(f) <==>
      && f["enum"].Array? && |f["enum"].items| <= 64
      && forall v :: v in f["enum"].items ==> !v.Object? && !v.Array?
  {
  }

  /** A node's parts are each free to be absent, its type excepted. */
  lemma NodeRules(doc: Json)
    requires doc.Object?
    ensures
      var f := doc.fields;
      WellMade(doc) <==>
      && KnownKeys(f) && TypeFits(f) && ("description" in f ==> DescriptionFits(f))
      && ("properties" in f ==> PropertiesFit(f)) && ("required" in f ==> RequiredFits(f))
      && ("enum" in f ==> EnumFits(f))
  {
    hide KnownKeys, TypeFits, PropertyName;
  }

  /** ASCII letters, digits and underscores, by code point. */
  predicate Word(name: string)
  {
    forall i :: 0 <= i < |name| ==>
      var c := name[i] as int;
      48 <= c <= 57 || 65 <= c <= 90 || 97 <= c <= 122 || c == 95
  }

  // ---------- The tree of nodes ----------

  datatype Step = Property(name: string) | Items

  function Child(doc: Json, step: Step): Option<Json>
  {
    if !doc.Object? then None
    else match step
      case Property(name) =>
        if "properties" in doc.fields && doc.fields["properties"].Object? && name in doc.fields["properties"].fields
        then Some(doc.fields["properties"].fields[name]) else None
      case Items => if "items" in doc.fields then Some(doc.fields["items"]) else None
  }

  function NodeAt(doc: Json, route: seq<Step>): Option<Json>
  {
    if route == [] then Some(doc)
    else match Child(doc, route[0])
      case None => None
      case Some(child) => NodeAt(child, route[1..])
  }

  /** Every node reachable from one at the given depth is well made and none lies too deep. */
  ghost predicate Conforms(doc: Json, depth: nat)
  {
    forall route :: NodeAt(doc, route).Some? ==>
      depth + |route| <= MAX_SCHEMA_DEPTH && WellMade(NodeAt(doc, route).value)
  }

  /** A shape of a descriptor: every node it reaches in at most eight steps is well made, and it reaches no further. */
  lemma ShapeRules(doc: Json)
    ensures Conforms(doc, 0) <==>
      forall route :: NodeAt(doc, route).Some? ==> |route| <= 8 && WellMade(NodeAt(doc, route).value)
  {
    hide WellMade, NodeAt;
  }

  ghost predicate ChildrenConform(doc: Json, depth: nat)
  {
    forall step :: Child(doc, step).Some? ==> Conforms(Child(doc, step).value, depth + 1)
  }

  lemma ConformsDown(doc: Json, depth: nat, step: Step)
    requires Conforms(doc, depth) && Child(doc, step).Some?
    ensures Conforms(Child(doc, step).value, depth + 1)
  {
    hide Child, WellMade;
    var child := Child(doc, step).value;
    forall route | NodeAt(child, route).Some?
      ensures depth + 1 + |route| <= MAX_SCHEMA_DEPTH && WellMade(NodeAt(child, route).value)
    {
      var longer := [step] + route;
      assert longer[1..] == route;
      assert NodeAt(doc, longer) == NodeAt(child, route);
    }
  }

  /** The property of the whole tree is the property of the root and of each tree below it. */
  lemma ConformsHere(doc: Json, depth: nat)
    ensures Conforms(doc, depth) <==> depth <= MAX_SCHEMA_DEPTH && WellMade(doc) && ChildrenConform(doc, depth)
  {
    hide Child, WellMade;
    if Conforms(doc, depth) {
      assert NodeAt(doc, []) == Some(doc);
      forall step | Child(doc, step).Some? ensures Conforms(Child(doc, step).value, depth + 1) {
        ConformsDown(doc, depth, step);
      }
    } else if depth <= MAX_SCHEMA_DEPTH && WellMade(doc) && ChildrenConform(doc, depth) {
      forall route | NodeAt(doc, route).Some?
        ensures depth + |route| <= MAX_SCHEMA_DEPTH && WellMade(NodeAt(doc, route).value)
      {
        if route != [] {
          assert Conforms(Child(doc, route[0]).value, depth + 1);
          assert NodeAt(doc, route) == NodeAt(Child(doc, route[0]).value, route[1..]);
        }
      }
      assert false;
    }
  }

  method CheckKeys(fields: map<string, Json>) returns (ok: bool)
    ensures ok <==> KnownKeys(fields)
  {
    var rest := fields.Keys;
    while rest != {}
      invariant rest <= fields.Keys && forall key :: key in fields && key !in rest ==> key in SCHEMA_KEYS
    {
      var key :| key in rest;
      if key != "type" && key != "description" && key != "properties"
        && key != "items" && key != "required" && key != "enum" {
        return false;
      }
      rest := rest - {key};
    }
    return true;
  }

  method CheckRequired(fields: map<string, Json>) returns (ok: bool)
    ensures ok <==> RequiredFits(fields)
  {
    if "required" in fields {
      var required := fields["required"];
      if !required.Array? || |required.items| > MAX_SCHEMA_PROPERTIES {
        return false;
      }
      for i := 0 to |required.items|
        invariant forall k :: 0 <= k < i ==> BoundedString(required.items[k], 64)
      {
        if !required.items[i].String? || |required.items[i].text| > 64 {
          return false;
        }
      }
    }
    return true;
  }

  method CheckEnum(fields: map<string, Json>) returns (ok: bool)
    ensures ok <==> EnumFits(fields)
  {
    if "enum" in fields {
      var enumeration := fields["enum"];
      if !enumeration.Array? || |enumeration.items| > MAX_SCHEMA_ENUM_ITEMS {
        return false;
      }
      for i := 0 to |enumeration.items|
        invariant forall k :: 0 <= k < i ==> Scalar(enumeration.items[k])
      {
        if !Scalar(enumeration.items[i]) {
          return false;
        }
      }
    }
    return true;
  }

  /** The loop over properties, which descends into each. */
  method CheckProperties(doc: Json, depth: nat) returns (ok: bool)
    requires doc.Object? && depth <= MAX_SCHEMA_DEPTH
    ensures ok <==> (
      && PropertiesFit(doc.fields)
      && forall name :: Child(doc, Property(name)).Some? ==> Conforms(Child(doc, Property(name)).value, depth + 1))
    decreases MAX_SCHEMA_DEPTH + 1 - depth, 0
  {
    hide Conforms, PropertyName;
    if "properties" !in doc.fields {
      return true;
    }
    var props := doc.fields["properties"];
    if !props.Object? || |props.fields| > MAX_SCHEMA_PROPERTIES {
      return false;
    }
    var rest := props.fields.Keys;
    while rest != {}
      invariant rest <= props.fields.Keys
      invariant forall name :: name in props.fields && name !in rest ==>
        PropertyName(name) && Conforms(props.fields[name], depth + 1)
    {
      var name :| name in rest;
      if !PropertyName(name) {
        return false;
      }
      var fits := CheckSchema(props.fields[name], depth + 1);
      if !fits {
        assert Child(doc, Property(name)) == Some(props.fields[name]);
        return false;
      }
      rest := rest - {name};
    }
    return true;
  }

  method CheckSchema(doc: Json, depth: nat) returns (ok: bool)
    ensures ok <==> Conforms(doc, depth)
    decreases MAX_SCHEMA_DEPTH + 1 - depth, 1
  {
    hide Conforms, KnownKeys, TypeFits, DescriptionFits, PropertiesFit, RequiredFits, EnumFits;
    ConformsHere(doc, depth);
    if depth > MAX_SCHEMA_DEPTH || !doc.Object? {
      return false;
    }
    var known := CheckKeys(doc.fields);
    if !known || !TypeFits(doc.fields) || !DescriptionFits(doc.fields) {
      return false;
    }
    var properties := CheckProperties(doc, depth);
    if !properties {
      return false;
    }
    if "items" in doc.fields {
      var items := CheckSchema(doc.fields["items"], depth + 1);
      assert Child(doc, Items) == Some(doc.fields["items"]);
      if !items {
        return false;
      }
    }
    assert ChildrenConform(doc, depth) by {
      forall step | Child(doc, step).Some? ensures Conforms(Child(doc, step).value, depth + 1) {
      }
    }
    var required := CheckRequired(doc.fields);
    if !required {
      return false;
    }
    ok := CheckEnum(doc.fields);
  }

  // ---------- Whole descriptors ----------

  const DESCRIPTOR_KEYS := {
    "name", "namespace", "version", "kind", "summary", "description", "request", "response", "metadata_only",
    "attribution", "confidence", "privacy"}

  predicate HasText(fields: map<string, Json>, key: string)
  {
    key in fields && fields[key].String?
  }

  predicate OptionalText(fields: map<string, Json>, key: string, limit: nat)
  {
    key in fields && !fields[key].Null? ==> BoundedString(fields[key], limit)
  }

  predicate ListFits(fields: map<string, Json>, key: string)
  {
    key in fields ==>
      && fields[key].Array? && |fields[key].items| <= 16
      && (forall i :: 0 <= i < |fields[key].items| ==> BoundedString(fields[key].items[i], 512))
  }

  ghost predicate ShapeFits(fields: map<string, Json>, key: string)
  {
    key in fields && !fields[key].Null? ==> Conforms(fields[key], 0)
  }

  ghost predicate NamesFit(fields: map<string, Json>)
  {
    && HasText(fields, "name") && MatchesPattern(fields["name"].text, 64, true)
    && HasText(fields, "namespace") && MatchesPattern(fields["namespace"].text, 64, false)
    && HasText(fields, "version") && IsVersion(fields["version"].text)
  }

  predicate KindFits(fields: map<string, Json>)
  {
    && HasText(fields, "kind") && fields["kind"].text in ["operation", "stream", "event"]
    && HasText(fields, "summary") && 1 <= |fields["summary"].text| <= 256
    && "metadata_only" in fields && fields["metadata_only"] == Bool(true)
  }

  predicate NotesFit(fields: map<string, Json>)
  {
    && OptionalText(fields, "description", 2048) && OptionalText(fields, "confidence", 256)
    && ListFits(fields, "attribution") && ListFits(fields, "privacy")
  }

  ghost predicate Acceptable(doc: Json)
  {
    && doc.Object? && NamesFit(doc.fields) && KindFits(doc.fields)
    && (forall key :: key in doc.fields ==> key in DESCRIPTOR_KEYS)
    && NotesFit(doc.fields) && ShapeFits(doc.fields, "request") && ShapeFits(doc.fields, "response")
  }

  method CheckNames(fields: map<string, Json>) returns (ok: bool)
    ensures ok <==> NamesFit(fields)
  {
    hide IsVersion, MatchesPattern;
    if !HasText(fields, "name") || !MatchesPattern(fields["name"].text, 64, true) {
      return false;
    }
    if !HasText(fields, "namespace") || !MatchesPattern(fields["namespace"].text, 64, false) {
      return false;
    }
    if !HasText(fields, "version") {
      return false;
    }
    ok := ValidVersion(fields["version"].text);
  }

  method ReadList(fields: map<string, Json>, key: string) returns (ok: bool, entries: seq<string>)
    ensures ok <==> ListFits(fields, key)
    ensures ok ==> entries == Texts(fields, key)
  {
    entries := [];
    if key in fields {
      var list := fields[key];
      if !list.Array? || |list.items| > 16 {
        return false, entries;
      }
      for i := 0 to |list.items|
        invariant |entries| == i
          && forall k :: 0 <= k < i ==> BoundedString(list.items[k], 512) && entries[k] == list.items[k].text
      {
        if !BoundedString(list.items[i], 512) {
          return false, entries;
        }
        entries := entries + [list.items[i].text];
      }
    }
    ok := true;
  }

  method CheckShape(fields: map<string, Json>, key: string) returns (ok: bool)
    ensures ok <==> ShapeFits(fields, key)
  {
    hide Conforms;
    ok := true;
    if key in fields && !fields[key].Null? {
      ok := CheckSchema(fields[key], 0);
    }
  }

  function Texts(fields: map<string, Json>, key: string): seq<string>
    requires ListFits(fields, key)
  {
    if key in fields then
      seq(|fields[key].items|, i requires 0 <= i < |fields[key].items| => fields[key].items[i].text)
    else []
  }

  function TextOr(fields: map<string, Json>, key: string): string
  {
    if HasText(fields, key) then fields[key].text else ""
  }

  function ShapeOr(fields: map<string, Json>, key: string): Json
  {
    if key in fields && fields[key].Object? then fields[key] else Null
  }

  /** A parsed endpoint meets what the generator relies on: valid names, and shapes that are conforming schemas. */
  function Parsed(doc: Json): (e: Endpoint)
    requires Acceptable(doc)
    ensures ValidNames(e) && e.kind in ["operation", "stream", "event"]
    ensures e.request.Null? || Conforms(e.request, 0)
    ensures e.response.Null? || Conforms(e.response, 0)
    ensures |e.attribution| <= 16 && |e.privacy| <= 16
  {
    var fields := doc.fields;
    Endpoint(
      fields["namespace"].text, fields["name"].text, fields["version"].text, fields["kind"].text,
      fields["summary"].text, TextOr(fields, "description"), ShapeOr(fields, "request"), ShapeOr(fields, "response"),
      Texts(fields, "attribution"), TextOr(fields, "confidence"), Texts(fields, "privacy"))
  }

  method ParseEndpoint(doc: Json) returns (endpoint: Option<Endpoint>)
    ensures endpoint.Some? <==> Acceptable(doc)
    ensures endpoint.Some? ==> endpoint.value == Parsed(doc)
  {
    hide Conforms, IsVersion, MatchesPattern, ListFits, ShapeFits, Texts;
    endpoint := None;
    if !doc.Object? {
      return;
    }
    var names := CheckNames(doc.fields);
    if !names || !KindFits(doc.fields) {
      return;
    }
    if exists key :: key in doc.fields && key !in DESCRIPTOR_KEYS {
      return;
    }
    if !OptionalText(doc.fields, "description", 2048) || !OptionalText(doc.fields, "confidence", 256) {
      return;
    }
    var attributed, attribution := ReadList(doc.fields, "attribution");
    if !attributed {
      return;
    }
    var private, privacy := ReadList(doc.fields, "privacy");
    if !private {
      return;
    }
    var request := CheckShape(doc.fields, "request");
    if !request {
      return;
    }
    var response := CheckShape(doc.fields, "response");
    if !response {
      return;
    }
    var fields := doc.fields;
    endpoint := Some(Endpoint(
      fields["namespace"].text, fields["name"].text, fields["version"].text, fields["kind"].text,
      fields["summary"].text, TextOr(fields, "description"), ShapeOr(fields, "request"), ShapeOr(fields, "response"),
      attribution, TextOr(fields, "confidence"), privacy));
  }

  // ---------- Descriptors written from endpoints ----------

  function StringArray(texts: seq<string>): Json
  {
    Array(seq(|texts|, i requires 0 <= i < |texts| => String(texts[i])))
  }

  /** The descriptor that says all there is to say of an endpoint. */
  function Describe(e: Endpoint): Json
  {
    Object(map[
      "name" := String(e.name), "namespace" := String(e.ns), "version" := String(e.version),
      "kind" := String(e.kind), "summary" := String(e.summary), "description" := String(e.description),
      "request" := e.request, "response" := e.response, "metadata_only" := Bool(true),
      "attribution" := StringArray(e.attribution), "confidence" := String(e.confidence),
      "privacy" := StringArray(e.privacy)])
  }

  predicate ShortList(texts: seq<string>)
  {
    |texts| <= 16 && forall i :: 0 <= i < |texts| ==> |texts[i]| <= 512
  }

  /** The endpoints a descriptor can be accepted for. */
  ghost predicate Describable(e: Endpoint)
  {
    && ValidNames(e) && (e.kind == "operation" || e.kind == "stream" || e.kind == "event")
    && 1 <= |e.summary| <= 256 && |e.description| <= 2048 && |e.confidence| <= 256
    && ShortList(e.attribution) && ShortList(e.privacy)
    && (e.request.Null? || Conforms(e.request, 0)) && (e.response.Null? || Conforms(e.response, 0))
  }

  lemma ListRoundTrip(fields: map<string, Json>, key: string, texts: seq<string>)
    requires key in fields && fields[key] == StringArray(texts)
    ensures ListFits(fields, key) <==> ShortList(texts)
    ensures ListFits(fields, key) ==> Texts(fields, key) == texts
  {
    forall i | 0 <= i < |texts| ensures fields[key].items[i] == String(texts[i]) {
    }
  }

  lemma ConformingIsObject(doc: Json)
    requires Conforms(doc, 0)
    ensures doc.Object?
  {
    hide WellMade;
    ConformsHere(doc, 0);
    assert WellMade(doc) ==> doc.Object? by { WellMadeIsObject(doc); }
  }

  lemma WellMadeIsObject(doc: Json)
    ensures WellMade(doc) ==> doc.Object?
  {
  }

  lemma DescribedNames(e: Endpoint)
    ensures NamesFit(Describe(e).fields) <==> ValidNames(e)
  {
    hide MatchesPattern, IsVersion, StringArray;
  }

  lemma DescribedKind(e: Endpoint)
    ensures KindFits(Describe(e).fields) <==>
      (e.kind == "operation" || e.kind == "stream" || e.kind == "event") && 1 <= |e.summary| <= 256
  {
    hide StringArray;
  }

  lemma DescribedNotes(e: Endpoint)
    ensures NotesFit(Describe(e).fields) <==>
      |e.description| <= 2048 && |e.confidence| <= 256 && ShortList(e.attribution) && ShortList(e.privacy)
  {
    hide ListFits, ShortList, Texts, StringArray;
    var fields := Describe(e).fields;
    ListRoundTrip(fields, "attribution", e.attribution);
    ListRoundTrip(fields, "privacy", e.privacy);
  }

  lemma DescribedKeys(e: Endpoint)
    ensures Describe(e).fields.Keys == DESCRIPTOR_KEYS
  {
    hide StringArray;
  }

  lemma DescribeAccepted(e: Endpoint)
    ensures Acceptable(Describe(e)) <==> Describable(e)
  {
    hide Conforms, ValidNames, NamesFit, KindFits, NotesFit, ShortList;
    DescribedNames(e);
    DescribedKind(e);
    DescribedNotes(e);
    DescribedKeys(e);
  }

  /** The written descriptor is accepted exactly for these endpoints, and gives the endpoint back. */
  lemma DescribeRoundTrip(e: Endpoint)
    ensures Acceptable(Describe(e)) <==> Describable(e)
    ensures Describable(e) ==> Parsed(Describe(e)) == e
  {
    DescribeAccepted(e);
    hide Conforms, ValidNames, ListFits, ShortList, Texts, StringArray, Acceptable;
    if Describable(e) {
      var fields := Describe(e).fields;
      ListRoundTrip(fields, "attribution", e.attribution);
      ListRoundTrip(fields, "privacy", e.privacy);
      if !e.request.Null? {
        ConformingIsObject(e.request);
      }
      if !e.response.Null? {
        ConformingIsObject(e.response);
      }
    }
  }

  /** What an accepted descriptor leaves out is empty in the endpoint. */
  lemma OmittedIsEmpty(doc: Json)
    requires Acceptable(doc)
    ensures "description" !in doc.fields ==> Parsed(doc).description == ""
    ensures "confidence" !in doc.fields ==> Parsed(doc).confidence == ""
    ensures "request" !in doc.fields ==> Parsed(doc).request == Null
    ensures "response" !in doc.fields ==> Parsed(doc).response == Null
    ensures "attribution" !in doc.fields ==> Parsed(doc).attribution == []
    ensures "privacy" !in doc.fields ==> Parsed(doc).privacy == []
  {
    hide Conforms, MatchesPattern, IsVersion;
  }
}
