/** The policy engine: the active policy, its replacement by set_policy documents, and its application to events. */
module PolicyEngineModel {
  import opened Common
  import opened Events
  import opened JsonValues
  import opened RedactorModel

  const MAX_DOMAINS: nat := 256
  const MAX_DOMAIN_BYTES: nat := 253
  const MIN_RETENTION: int := 60
  const MAX_RETENTION: int := 31536000

  function ModeName(mode: RedactionMode): string
  {
    match mode
    case HostnameOnly => "hostname-only"
    case QueryStringRemoval => "query-string-removal"
    case FullHostname => "full-hostname"
    case DomainHash => "domain-hash"
    case DomainMask => "domain-mask"
  }

  function ModeFromName(name: string): Option<RedactionMode>
  {
    if name == "hostname-only" then Some(HostnameOnly)
    else if name == "query-string-removal" then Some(QueryStringRemoval)
    else if name == "full-hostname" then Some(FullHostname)
    else if name == "domain-hash" then Some(DomainHash)
    else if name == "domain-mask" then Some(DomainMask)
    else None
  }

  /** The policy a new engine holds. */
  const DEFAULT: Policy := Policy(QueryStringRemoval, true, true, [], false, 604800, [], "ip or ip6")

  // ---------- Acceptable documents and their effect ----------

  predicate DomainEntry(d: Json)
  {
    d.String? && |d.text| <= MAX_DOMAIN_BYTES
  }

  predicate AcceptableRedaction(red: Json)
  {
    && red.Object?
    && ("mode" in red.fields ==> red.fields["mode"].String? && ModeFromName(red.fields["mode"].text).Some?)
    && ("sensitive_domains" in red.fields ==> AcceptableDomains(red.fields["sensitive_domains"]))
  }

  predicate AcceptableDomains(domains: Json)
  {
    && domains.Array? && |domains.items| <= MAX_DOMAINS
    && forall i :: 0 <= i < |domains.items| ==> DomainEntry(domains.items[i])
  }

  predicate AcceptablePersistence(persist: Json)
  {
    && persist.Object?
    && ("enabled" in persist.fields ==> persist.fields["enabled"].Bool?)
    && ("retention_seconds" in persist.fields ==>
          var seconds := persist.fields["retention_seconds"];
          seconds.Int? && MIN_RETENTION <= seconds.value <= MAX_RETENTION)
  }

  /** The documents set_policy takes; in particular none that turns metadata-only mode off. */
  predicate Acceptable(doc: Json)
  {
    && doc.Object?
    && ("metadata_only" in doc.fields ==> doc.fields["metadata_only"] == Bool(true))
    && ("redaction" in doc.fields ==> AcceptableRedaction(doc.fields["redaction"]))
    && ("persistence" in doc.fields ==> AcceptablePersistence(doc.fields["persistence"]))
  }

  function Texts(items: seq<Json>): (r: seq<string>)
    requires forall i :: 0 <= i < |items| ==> DomainEntry(items[i])
    ensures |r| == |items|
  {
    seq(|items|, i requires 0 <= i < |items| && DomainEntry(items[i]) => items[i].text)
  }

  function OverlayRedaction(p: Policy, red: Json): Policy
    requires AcceptableRedaction(red)
  {
    p.(mode := if "mode" in red.fields then ModeFromName(red.fields["mode"].text).value else p.mode,
       sensitiveDomains :=
         if "sensitive_domains" in red.fields then Texts(red.fields["sensitive_domains"].items)
         else p.sensitiveDomains)
  }

  function OverlayPersistence(p: Policy, persist: Json): Policy
    requires AcceptablePersistence(persist)
  {
    p.(persistenceEnabled := if "enabled" in persist.fields then persist.fields["enabled"].flag
         else p.persistenceEnabled,
       retention := if "retention_seconds" in persist.fields then persist.fields["retention_seconds"].value
         else p.retention)
  }

  /** The policy after a document: what it names is replaced, the rest is kept; a rejected document changes nothing. */
  function Updated(p: Policy, doc: Json): Policy
  {
    if !Acceptable(doc) then p
    else
      var q := if "redaction" in doc.fields then OverlayRedaction(p, doc.fields["redaction"]) else p;
      if "persistence" in doc.fields then OverlayPersistence(q, doc.fields["persistence"]) else q
  }

  /** The document get_policy returns. */
  function ToJson(p: Policy): Json
    requires MIN_RETENTION <= p.retention <= MAX_RETENTION
  {
    Object(map[
      "metadata_only" := Bool(true),
      "redaction" := Object(map[
        "mode" := String(ModeName(p.mode)),
        "sensitive_domains" := Array(
          seq(|p.sensitiveDomains|, i requires 0 <= i < |p.sensitiveDomains| => String(p.sensitiveDomains[i])))]),
      "persistence" := Object(map[
        "enabled" := Bool(p.persistenceEnabled),
        "retention_seconds" := Int(p.retention)])])
  }

  // ---------- Applying the policy ----------

  datatype Decision = Allow | Redact | Drop

  function AppliedNetwork(p: Policy, event: Event): Option<NetworkInfo>
  {
    if event.network.None? || event.network.value.dnsQueryName == "" then event.network
    else Some(event.network.value.(dnsQueryName := RedactDnsName(p, event.network.value.dnsQueryName)))
  }

  function AppliedBrowser(p: Policy, event: Event): Option<BrowserInfo>
  {
    if event.browser.None? || event.browser.value.url == "" then event.browser
    else
      var url := RedactUrl(p, event.browser.value.url);
      if url == "" then None else Some(event.browser.value.(url := url))
  }

  /** The kinds of the last redaction call only: a URL's audit replaces a DNS name's. */
  function AuditedKinds(p: Policy, event: Event): set<RedactionKind>
  {
    if event.browser.Some? && event.browser.value.url != "" then UrlKinds(p, event.browser.value.url)
    else if event.network.Some? && event.network.value.dnsQueryName != "" then
      DnsKinds(p, event.network.value.dnsQueryName)
    else {}
  }

  /** The event that leaves the engine, for an event that is not dropped. */
  function Applied(p: Policy, event: Event): Event
  {
    var network, browser := AppliedNetwork(p, event), AppliedBrowser(p, event);
    var changed := network != event.network || browser != event.browser;
    event.(network := network, browser := browser,
           privacy := event.privacy.(redacted := changed,
                                     redactions := event.privacy.redactions + AuditedKinds(p, event)))
  }

  class PolicyEngine {
    var policy: Policy

    constructor ()
      ensures policy == DEFAULT
    {
      policy := Policy(QueryStringRemoval, true, true, [], false, 86400 * 7, [], "ip or ip6");
    }

    method Apply(input: Event) returns (decision: Decision, event: Event)
      ensures decision == Drop <==> !input.privacy.metadataOnly
      ensures decision == Drop ==> event == input
      ensures decision != Drop ==> event == Applied(policy, input)
      ensures decision == Redact <==> decision != Drop && event.privacy.redacted
    {
      hide RedactUrl, RedactDnsName, UrlKinds, DnsKinds;
      event := input;
      if !event.privacy.metadataOnly {
        return Drop, event;
      }
      var redactor := new Redactor(policy);
      var redacted := false;

      if event.network.Some? {
        if event.network.value.dnsQueryName != "" {
          var name := redactor.RedactName(event.network.value.dnsQueryName);
          if name == "" {
            event := event.(network := Some(event.network.value.(dnsQueryName := "")));
            redacted := true;
          } else if name != event.network.value.dnsQueryName {
            event := event.(network := Some(event.network.value.(dnsQueryName := name)));
            redacted := true;
          }
        }
      }

      if event.browser.Some? && event.browser.value.url != "" {
        var url := redactor.Redact(event.browser.value.url);
        if url == "" {
          event := event.(browser := None);
          redacted := true;
        } else if url != event.browser.value.url {
          event := event.(browser := Some(event.browser.value.(url := url)));
          redacted := true;
        }
      }

      event := event.(privacy := event.privacy.(redacted := redacted,
      redactions := event.privacy.redactions + redactor.lastRedactions));
      decision := if redacted then Redact else Allow;
    }

    /** The first critical section of an update. */
    method Snapshot() returns (copy: Policy)
      ensures copy == policy
    {
      copy := policy;
    }

    /** The second critical section of an update. */
    method Replace(next: Policy)
      modifies this
      ensures policy == next
    {
      policy := next;
    }

    /** The work between the two, done on the copy. */
    static method Build(base: Policy, doc: Json) returns (ok: bool, next: Policy)
      ensures ok <==> Acceptable(doc)
      ensures ok ==> next == Updated(base, doc)
    {
      next := base;
      if !doc.Object? {
        return false, next;
      }

      if "metadata_only" in doc.fields {
        var flag := doc.fields["metadata_only"];
        if !flag.Bool? || !flag.flag {
          return false, next;
        }
      }

      if "redaction" in doc.fields {
        var good;
        good, next := ReadRedaction(next, doc.fields["redaction"]);
        if !good {
          return false, next;
        }
      }

      if "persistence" in doc.fields {
        var good;
        good, next := ReadPersistence(next, doc.fields["persistence"]);
        if !good {
          return false, next;
        }
      }

      return true, next;
    }

    /** A whole update that no other one overlaps. */
    method UpdateFromJson(doc: Json) returns (ok: bool)
      modifies this
      ensures ok <==> Acceptable(doc)
      ensures policy == Updated(old(policy), doc)
    {
      if !doc.Object? {
        return false;
      }
      var next := Snapshot();
      ok, next := Build(next, doc);
      if ok {
        Replace(next);
      }
    }

    static method ReadRedaction(p: Policy, red: Json) returns (ok: bool, next: Policy)
      ensures ok <==> AcceptableRedaction(red)
      ensures ok ==> next == OverlayRedaction(p, red)
    {
      next := p;
      if !red.Object? {
        return false, next;
      }
      if "mode" in red.fields {
        var mode := red.fields["mode"];
        if !mode.String? {
          return false, next;
        }
        var parsed := ModeFromName(mode.text);
        if parsed.None? {
          return false, next;
        }
        next := next.(mode := parsed.value);
      }
      if "sensitive_domains" in red.fields {
        var good, domains := ReadDomains(red.fields["sensitive_domains"]);
        if !good {
          return false, next;
        }
        next := next.(sensitiveDomains := domains);
      }
      return true, next;
    }

    static method ReadDomains(domains: Json) returns (ok: bool, texts: seq<string>)
      ensures ok <==> AcceptableDomains(domains)
      ensures ok ==> texts == Texts(domains.items)
    {
      texts := [];
      if !domains.Array? || |domains.items| > MAX_DOMAINS {
        return false, texts;
      }
      for i := 0 to |domains.items|
        invariant forall j :: 0 <= j < i ==> DomainEntry(domains.items[j])
        invariant texts == Texts(domains.items[..i])
      {
        var d := domains.items[i];
        if !d.String? || |d.text| > MAX_DOMAIN_BYTES {
          return false, texts;
        }
        texts := texts + [d.text];
        assert domains.items[..i + 1] == domains.items[..i] + [d];
      }
      assert domains.items[..|domains.items|] == domains.items;
      return true, texts;
    }

    static method ReadPersistence(p: Policy, persist: Json) returns (ok: bool, next: Policy)
      ensures ok <==> AcceptablePersistence(persist)
      ensures ok ==> next == OverlayPersistence(p, persist)
    {
      next := p;
      if !persist.Object? {
        return false, next;
      }
      if "enabled" in persist.fields {
        var flag := persist.fields["enabled"];
        if !flag.Bool? {
          return false, next;
        }
        next := next.(persistenceEnabled := flag.flag);
      }
      if "retention_seconds" in persist.fields {
        var seconds := persist.fields["retention_seconds"];
        if !seconds.Int? {
          return false, next;
        }
        var value := AsInt64(seconds.value);
        if value < MIN_RETENTION || value > MAX_RETENTION {
          return false, next;
        }
        next := next.(retention := value);
      }
      return true, next;
    }
  }

  // ---------- What a document says and what it changes ----------

  /** What a document says under a section's key, if it names it. */
  function Entry(doc: Json, section: string, key: string): Option<Json>
  {
    if doc.Object? && section in doc.fields && doc.fields[section].Object? && key in doc.fields[section].fields
    then Some(doc.fields[section].fields[key])
    else None
  }

  predicate SectionIsObject(doc: Json, section: string)
    requires doc.Object?
  {
    section in doc.fields ==> doc.fields[section].Object?
  }

  lemma NamedModes(name: string)
    ensures ModeFromName(name).Some? <==> exists m :: ModeName(m) == name
    ensures ModeFromName(name).Some? ==> ModeName(ModeFromName(name).value) == name
  {
    if ModeFromName(name).Some? {
      assert ModeName(ModeFromName(name).value) == name;
    }
  }

  /** The mode names of the wire format. */
  lemma ModeTable()
    ensures ModeName(HostnameOnly) == "hostname-only" && ModeName(QueryStringRemoval) == "query-string-removal"
    ensures ModeName(FullHostname) == "full-hostname" && ModeName(DomainHash) == "domain-hash"
    ensures ModeName(DomainMask) == "domain-mask"
    ensures forall m, n :: ModeName(m) == ModeName(n) ==> m == n
  {
    forall m, n | ModeName(m) == ModeName(n) ensures m == n {
      assert ModeFromName(ModeName(m)) == Some(m) && ModeFromName(ModeName(n)) == Some(n);
    }
  }

  /** The documents that are taken, key by key. */
  lemma AcceptableIff(doc: Json)
    requires doc.Object?
    ensures Acceptable(doc) <==>
      && ("metadata_only" in doc.fields ==> doc.fields["metadata_only"] == Bool(true))
      && SectionIsObject(doc, "redaction") && SectionIsObject(doc, "persistence")
      && (var v := Entry(doc, "redaction", "mode"); v.Some? ==> exists m :: v.value == String(ModeName(m)))
      && (var v := Entry(doc, "redaction", "sensitive_domains"); v.Some? ==>
            && v.value.Array? && |v.value.items| <= 256
            && forall i :: 0 <= i < |v.value.items| ==> v.value.items[i].String? && |v.value.items[i].text| <= 253)
      && (var v := Entry(doc, "persistence", "enabled"); v.Some? ==> v.value.Bool?)
      && (var v := Entry(doc, "persistence", "retention_seconds"); v.Some? ==>
            v.value.Int? && 60 <= v.value.value <= 31536000)
  {
    hide ModeFromName, ModeName;
    var v := Entry(doc, "redaction", "mode");
    if v.Some? && v.value.String? {
      NamedModes(v.value.text);
    }
  }

  /** The mode is the one whose name the document gives, or as it was. */
  predicate ModeFollows(p: Policy, q: Policy, doc: Json)
  {
    var v := Entry(doc, "redaction", "mode");
    if v.None? then q.mode == p.mode else v.value == String(ModeName(q.mode))
  }

  predicate DomainsFollow(p: Policy, q: Policy, doc: Json)
  {
    var v := Entry(doc, "redaction", "sensitive_domains");
    if v.None? then q.sensitiveDomains == p.sensitiveDomains else v.value == DomainArray(q.sensitiveDomains)
  }

  function DomainArray(domains: seq<string>): Json
  {
    Array(seq(|domains|, i requires 0 <= i < |domains| => String(domains[i])))
  }

  predicate EnabledFollows(p: Policy, q: Policy, doc: Json)
  {
    var v := Entry(doc, "persistence", "enabled");
    if v.None? then q.persistenceEnabled == p.persistenceEnabled else v.value == Bool(q.persistenceEnabled)
  }

  predicate RetentionFollows(p: Policy, q: Policy, doc: Json)
  {
    var v := Entry(doc, "persistence", "retention_seconds");
    if v.None? then q.retention == p.retention else v.value.Int? && v.value.value == q.retention
  }

  /** No document reaches these. */
  predicate RestKept(p: Policy, q: Policy)
  {
    && q.stripQueryString == p.stripQueryString && q.stripFragment == p.stripFragment
    && q.captureInterfaces == p.captureInterfaces && q.pcapFilter == p.pcapFilter
  }

  /**
   The frame of an update, field by field: a field whose key an accepted document does not name stays as it was,
   one whose key it names becomes what it says, and the other fields never change.
   */
  lemma UpdateFrame(p: Policy, doc: Json)
    requires Acceptable(doc)
    ensures
      var q := Updated(p, doc);
      ModeFollows(p, q, doc) && DomainsFollow(p, q, doc) && EnabledFollows(p, q, doc)
      && RetentionFollows(p, q, doc) && RestKept(p, q)
  {
    hide ModeFromName, ModeName;
    var mode := Entry(doc, "redaction", "mode");
    if mode.Some? {
      NamedModes(mode.value.text);
    }
  }

  lemma DomainArrayIsInjective(a: seq<string>, b: seq<string>)
    requires DomainArray(a) == DomainArray(b)
    ensures a == b
  {
    assert DomainArray(a).items == DomainArray(b).items;
    forall i | 0 <= i < |a| ensures a[i] == b[i] {
      assert DomainArray(a).items[i] == DomainArray(b).items[i];
    }
  }

  /** A document that is not accepted changes nothing. */
  lemma RejectedChangesNothing(p: Policy, doc: Json)
    requires !Acceptable(doc)
    ensures Updated(p, doc) == p
  {
  }

  /** The policy after a document, in terms of what it says alone. */
  lemma UpdatedIs(p: Policy, doc: Json, q: Policy)
    requires Acceptable(doc)
    ensures q == Updated(p, doc) <==>
      ModeFollows(p, q, doc) && DomainsFollow(p, q, doc) && EnabledFollows(p, q, doc)
      && RetentionFollows(p, q, doc) && RestKept(p, q)
  {
    hide Acceptable, Updated, Entry, DomainArray, ModeName;
    var u := Updated(p, doc);
    UpdateFrame(p, doc);
    if ModeFollows(p, q, doc) && DomainsFollow(p, q, doc) && EnabledFollows(p, q, doc)
      && RetentionFollows(p, q, doc) && RestKept(p, q)
    {
      ModeTable();
      if Entry(doc, "redaction", "sensitive_domains").Some? {
        DomainArrayIsInjective(q.sensitiveDomains, u.sensitiveDomains);
      }
      assert q.sensitiveDomains == u.sensitiveDomains && q.mode == u.mode;
      assert q.persistenceEnabled == u.persistenceEnabled && q.retention == u.retention;
    }
  }

  predicate Names(doc: Json, section: string, key: string)
  {
    Entry(doc, section, key).Some?
  }

  /** No key is named by both documents. */
  predicate NameDisjointKeys(a: Json, b: Json)
  {
    && !(Names(a, "redaction", "mode") && Names(b, "redaction", "mode"))
    && !(Names(a, "redaction", "sensitive_domains") && Names(b, "redaction", "sensitive_domains"))
    && !(Names(a, "persistence", "enabled") && Names(b, "persistence", "enabled"))
    && !(Names(a, "persistence", "retention_seconds") && Names(b, "persistence", "retention_seconds"))
  }

  // One field of a square of updates: from p by a to q and by b to s, and from p by b to r.

  lemma ModeFollowsSquare(p: Policy, q: Policy, r: Policy, s: Policy, a: Json, b: Json)
    requires NameDisjointKeys(a, b)
    requires ModeFollows(p, q, a) && ModeFollows(q, s, b) && ModeFollows(p, r, b)
    ensures ModeFollows(r, s, a)
  {
    hide Entry, ModeName;
    ModeTable();
  }

  lemma DomainsFollowSquare(p: Policy, q: Policy, r: Policy, s: Policy, a: Json, b: Json)
    requires NameDisjointKeys(a, b)
    requires DomainsFollow(p, q, a) && DomainsFollow(q, s, b) && DomainsFollow(p, r, b)
    ensures DomainsFollow(r, s, a)
  {
    hide Entry, DomainArray;
    if Names(b, "redaction", "sensitive_domains") {
      DomainArrayIsInjective(r.sensitiveDomains, s.sensitiveDomains);
    }
  }

  lemma EnabledFollowsSquare(p: Policy, q: Policy, r: Policy, s: Policy, a: Json, b: Json)
    requires NameDisjointKeys(a, b)
    requires EnabledFollows(p, q, a) && EnabledFollows(q, s, b) && EnabledFollows(p, r, b)
    ensures EnabledFollows(r, s, a)
  {
    hide Entry;
  }

  lemma RetentionFollowsSquare(p: Policy, q: Policy, r: Policy, s: Policy, a: Json, b: Json)
    requires NameDisjointKeys(a, b)
    requires RetentionFollows(p, q, a) && RetentionFollows(q, s, b) && RetentionFollows(p, r, b)
    ensures RetentionFollows(r, s, a)
  {
    hide Entry;
  }

  /** Two accepted documents that name different keys may come in either order. */
  lemma DisjointDocumentsCommute(p: Policy, a: Json, b: Json)
    requires Acceptable(a) && Acceptable(b) && NameDisjointKeys(a, b)
    ensures Updated(Updated(p, a), b) == Updated(Updated(p, b), a)
  {
    hide Acceptable, Updated, NameDisjointKeys, ModeFollows, DomainsFollow, EnabledFollows, RetentionFollows;
    var q, r := Updated(p, a), Updated(p, b);
    var s := Updated(q, b);
    UpdateFrame(p, a);
    UpdateFrame(p, b);
    UpdateFrame(q, b);
    ModeFollowsSquare(p, q, r, s, a, b);
    DomainsFollowSquare(p, q, r, s, a, b);
    EnabledFollowsSquare(p, q, r, s, a, b);
    RetentionFollowsSquare(p, q, r, s, a, b);
    UpdatedIs(r, a, s);
  }

  /** Every key the one names is named by the other. */
  predicate NamesAllOf(b: Json, a: Json)
  {
    && (Names(a, "redaction", "mode") ==> Names(b, "redaction", "mode"))
    && (Names(a, "redaction", "sensitive_domains") ==> Names(b, "redaction", "sensitive_domains"))
    && (Names(a, "persistence", "enabled") ==> Names(b, "persistence", "enabled"))
    && (Names(a, "persistence", "retention_seconds") ==> Names(b, "persistence", "retention_seconds"))
  }

  /** A document that names all the keys of an earlier one leaves no trace of it. */
  lemma LaterDocumentWins(p: Policy, a: Json, b: Json)
    requires Acceptable(a) && Acceptable(b) && NamesAllOf(b, a)
    ensures Updated(Updated(p, a), b) == Updated(p, b)
  {
    hide Acceptable, Updated, Entry, DomainArray, ModeName;
    UpdateFrame(p, a);
    UpdateFrame(Updated(p, a), b);
    UpdatedIs(p, b, Updated(Updated(p, a), b));
  }

  // ---------- Every run of set_policy documents ----------

  /** The policy after a sequence of documents, accepted or rejected. */
  function AfterDocs(docs: seq<Json>): Policy
  {
    if docs == [] then DEFAULT else Updated(AfterDocs(docs[..|docs| - 1]), docs[|docs| - 1])
  }

  /** What every reachable policy keeps. */
  predicate Sound(p: Policy)
  {
    && StripsBoth(p)
    && |p.sensitiveDomains| <= MAX_DOMAINS
    && (forall i :: 0 <= i < |p.sensitiveDomains| ==> |p.sensitiveDomains[i]| <= MAX_DOMAIN_BYTES)
    && MIN_RETENTION <= p.retention <= MAX_RETENTION
    && p.captureInterfaces == DEFAULT.captureInterfaces && p.pcapFilter == DEFAULT.pcapFilter
  }

  lemma {:induction false} ReachablePolicyIsSound(docs: seq<Json>)
    ensures Sound(AfterDocs(docs))
  {
    if docs != [] {
      ReachablePolicyIsSound(docs[..|docs| - 1]);
      UpdateKeepsSound(AfterDocs(docs[..|docs| - 1]), docs[|docs| - 1]);
    }
  }

  lemma UpdateKeepsSound(p: Policy, doc: Json)
    requires Sound(p)
    ensures Sound(Updated(p, doc))
  {
  }

  /**
   What applying a policy with both strip flags set promises of any event: the browser URL carries no query or
   fragment mark; the DNS name is withheld exactly when it was empty or, ignoring case, a sensitive domain or
   under one; the tab is withheld exactly when its URL's authority is excluded or nothing is left of the URL.
   */
  predicate Private(p: Policy, event: Event, out: Event)
  {
    && (out.browser.Some? ==> NoQueryOrFragment(out.browser.value.url))
    && out.network.Some? == event.network.Some?
    && (event.network.Some? ==>
          (out.network.value.dnsQueryName == "" <==>
             event.network.value.dnsQueryName == "" || Excluded(p, event.network.value.dnsQueryName)))
    && (out.browser.None? <==> event.browser.None? || TabWithheld(p, event.browser.value.url))
  }

  predicate TabWithheld(p: Policy, url: string)
  {
    url != "" && (UrlExcluded(p, url) || Vanishes(p.mode, url))
  }

  lemma SoundIsPrivate(p: Policy, event: Event)
    requires Sound(p)
    ensures Private(p, event, Applied(p, event))
  {
    hide RedactDnsName, Excluded, RedactUrl, UrlExcluded, Vanishes, UrlKinds, DnsKinds;
    if event.browser.Some? {
      RedactedUrlIsClean(p, event.browser.value.url);
      UrlWithheld(p, event.browser.value.url);
    }
    if event.network.Some? {
      DnsNameWithheld(p, event.network.value.dnsQueryName);
    }
  }

  /** Applying a policy touches the DNS name, the tab and the audit, and reports whether anything shown changed. */
  lemma AppliedTouchesOnly(p: Policy, event: Event)
    ensures
      var out := Applied(p, event);
      && out.id == event.id && out.eventType == event.eventType && out.source == event.source
      && out.timestamp == event.timestamp && out.confidence == event.confidence && out.process == event.process
      && out.privacy.metadataOnly == event.privacy.metadataOnly
      && event.privacy.redactions <= out.privacy.redactions
      && (out.privacy.redacted <==> out.network != event.network || out.browser != event.browser)
    ensures
      var out := Applied(p, event);
      event.network.Some? ==>
        var (now, was) := (out.network.value, event.network.value);
        && now.localAddress == was.localAddress && now.localPort == was.localPort
        && now.remoteAddress == was.remoteAddress && now.remotePort == was.remotePort
        && now.dnsQueryName == RedactDnsName(p, was.dnsQueryName)
    ensures
      var out := Applied(p, event);
      out.browser.Some? ==>
        && event.browser.Some?
        && var (now, was) := (out.browser.value, event.browser.value);
        && now.tabId == was.tabId && now.windowId == was.windowId && now.title == was.title
        && now.navigationId == was.navigationId && now.frameId == was.frameId
        && now.url == if was.url == "" then "" else RedactUrl(p, was.url)
  {
    hide RedactUrl, Excluded, UrlKinds, DnsKinds, Transform;
  }

  /** The privacy guarantee, after any sequence of documents and for any event that is not dropped. */
  lemma PrivacyGuarantee(docs: seq<Json>, event: Event)
    ensures Private(AfterDocs(docs), event, Applied(AfterDocs(docs), event))
  {
    hide Private, Applied;
    ReachablePolicyIsSound(docs);
    SoundIsPrivate(AfterDocs(docs), event);
  }

  /**
   The tab of a visit in terms of the visited host: it is withheld exactly when the host is excluded and no port
   stands beside it, behind user information only as a proper subdomain, or by an odd match, or by vanishing.
   */
  lemma TabWithheldIff(p: Policy, url: string)
    requires UrlHost(url) != ""
    ensures var authority := UrlHost(url);
      TabWithheld(p, url) <==>
      || OddMatch(p, authority)
      || (!HasPort(authority) &&
          if HasUser(authority) then ProperlyUnder(p, BareHost(authority)) else Excluded(p, BareHost(authority)))
      || Vanishes(p.mode, url)
  {
    hide OddMatch, HasPort, HasUser, ProperlyUnder, Excluded, Vanishes;
    AuthorityExclusion(p, UrlHost(url));
  }

  /** The document that lists one domain, and the one that empties the list. */
  const LISTING := Object(map["redaction" := Object(map["sensitive_domains" := Array([String("a.b")])])])
  const CLEARING := Object(map["redaction" := Object(map["sensitive_domains" := Array([])])])

  lemma TheListing()
    ensures Acceptable(LISTING) && Updated(DEFAULT, LISTING) == ListingPolicy() == AfterDocs([LISTING])
  {
    var domains := [String("a.b")];
    assert Texts(domains) == ["a.b"];
    assert [LISTING][..0] == [];
  }

  /** A reachable engine with a sensitive domain publishes a visit to it once a port stands beside the host. */
  lemma SensitivePortPublished(event: Event)
    requires event.browser.Some? && event.browser.value.url == "h://a.b:1"
    ensures Excluded(AfterDocs([LISTING]), BareHost(UrlHost("h://a.b:1")))
    ensures Applied(AfterDocs([LISTING]), event).browser == event.browser
  {
    hide Excluded, RedactUrl, UrlHost, BareHost, UrlKinds, DnsKinds, RedactDnsName, Updated;
    TheListing();
    PortReveals();
    PlainUrl("a.b:1");
    assert "h://" + "a.b:1" == "h://a.b:1";
  }

  // ---------- Loosening ----------

  /** A document with a list of domains. */
  predicate ListsDomains(doc: Json)
  {
    && Acceptable(doc) && "redaction" in doc.fields
    && "sensitive_domains" in doc.fields["redaction"].fields
  }

  function ListOf(doc: Json): seq<string>
    requires ListsDomains(doc)
  {
    Texts(doc.fields["redaction"].fields["sensitive_domains"].items)
  }

  /** The domain is on the list or under one that is. */
  predicate Covered(domain: string, domains: seq<string>)
  {
    exists j :: 0 <= j < |domains| && HostUnderDomain(Lower(domain), Lower(domains[j]))
  }

  /** A document keeps every exclusion exactly when it brings no list, or one that covers each domain listed before. */
  lemma LooseningIff(p: Policy, doc: Json)
    ensures KeepsExclusions(p, Updated(p, doc)) <==>
      !ListsDomains(doc) || forall i :: 0 <= i < |p.sensitiveDomains| ==> Covered(p.sensitiveDomains[i], ListOf(doc))
  {
    hide KeepsExclusions, HostUnderDomain, Lower;
    var q := Updated(p, doc);
    KeepsExclusionsIff(p, q);
    if ListsDomains(doc) {
      assert q.sensitiveDomains == ListOf(doc);
    } else {
      assert q.sensitiveDomains == p.sensitiveDomains by { NoListKeepsDomains(p, doc); }
      assert KeepsExclusions(p, q) by { SameListKeepsExclusions(p, q); }
    }
  }

  lemma NoListKeepsDomains(p: Policy, doc: Json)
    requires !ListsDomains(doc)
    ensures Updated(p, doc).sensitiveDomains == p.sensitiveDomains
  {
  }

  lemma SameListKeepsExclusions(p: Policy, q: Policy)
    requires p.sensitiveDomains == q.sensitiveDomains
    ensures KeepsExclusions(p, q)
  {
    hide HostUnderDomain, Lower;
  }

  /** A document that drops the list is accepted and loosens exclusion. */
  lemma ClearingLoosens()
    ensures Acceptable(CLEARING) && !KeepsExclusions(AfterDocs([LISTING]), Updated(AfterDocs([LISTING]), CLEARING))
  {
    TheListing();
    assert Texts([]) == [];
    var q := Updated(ListingPolicy(), CLEARING);
    assert q.sensitiveDomains == [];
    hide Updated, AfterDocs;
    ListedMeans("a.b");
    assert Excluded(ListingPolicy(), "a.b") && !Excluded(q, "a.b");
  }

  function ModeDocument(mode: RedactionMode): Json
  {
    Object(map["redaction" := Object(map["mode" := String(ModeName(mode))])])
  }

  lemma ModeDocumentSets(p: Policy, mode: RedactionMode)
    ensures Acceptable(ModeDocument(mode)) && Updated(p, ModeDocument(mode)) == p.(mode := mode)
  {
    hide ModeFromName, ModeName;
    ModeNameRoundTrip(mode);
  }

  /** So does one that leaves the hostname-only mode: the path of every visit is published again. */
  lemma ModeLoosens(p: Policy, url: string)
    requires StripsBoth(p) && p.mode == HostnameOnly && SchemeInStem(url)
      && FindScheme(url, 0).Some? && !UrlExcluded(p, url)
    ensures var q := Updated(p, ModeDocument(FullHostname));
      && RedactUrl(q, url) == Stem(url)
      && RedactUrl(p, url) == Stem(url)[..HostStart(url) + |UrlHost(url)|]
  {
    hide Updated, Excluded, RedactUrl, UrlHost, FindScheme;
    ModeDocumentSets(p, FullHostname);
    ExclusionIgnoresMode(p, FullHostname, url);
    ShapeOfResult(p, url);
    ShapeOfResult(p.(mode := FullHostname), url);
  }

  lemma ExclusionIgnoresMode(p: Policy, mode: RedactionMode, url: string)
    ensures UrlExcluded(p, url) <==> UrlExcluded(p.(mode := mode), url)
  {
    hide HostUnderDomain, UrlHost;
  }

  /**
   No sequence of documents loosens below the defaults: what a reachable policy publishes of a URL is determined by
   what the default policy publishes, exactly when the first scheme mark is not in the query or fragment.
   */
  lemma NeverLooserThanDefault(url: string)
    ensures RedactUrl(DEFAULT, url) == Stem(url)
    ensures (forall docs :: RedactUrl(AfterDocs(docs), url) == RedactUrl(AfterDocs(docs), RedactUrl(DEFAULT, url))) <==>
      SchemeInStem(url)
  {
    DefaultIsStem(url);
    hide RedactUrl, Updated, SchemeInStem, Stem;
    if SchemeInStem(url) {
      forall docs ensures RedactUrl(AfterDocs(docs), url) == RedactUrl(AfterDocs(docs), Stem(url)) {
        ReachablePolicyIsSound(docs);
        StemDecides(AfterDocs(docs), url);
      }
    } else {
      var docs := [ModeDocument(DomainHash)];
      assert docs[..0] == [];
      ModeDocumentSets(DEFAULT, DomainHash);
      assert AfterDocs(docs) == HashPolicy();
      QueryDecides(url);
    }
  }

  lemma DefaultIsStem(url: string)
    ensures RedactUrl(DEFAULT, url) == Stem(url)
  {
    hide FindFirstOf, FindScheme, UrlHost;
    StripIsStem(DEFAULT, url);
  }

  // ---------- The audit ----------

  predicate ShapesHosts(mode: RedactionMode)
  {
    mode == DomainHash || mode == DomainMask
  }

  /**
   The audit shows what was done to an event's DNS name exactly when no URL was redacted after it, or the
   redaction of that URL happens to be of the same kind, or nothing was done to the name.
   */
  lemma AuditShowsName(p: Policy, event: Event)
    requires event.network.Some? && event.network.value.dnsQueryName != ""
    ensures var name := event.network.value.dnsQueryName;
      DnsKinds(p, name) <= AuditedKinds(p, event) <==>
      || event.browser.None? || event.browser.value.url == ""
      || (var url := event.browser.value.url;
          if Excluded(p, name) then UrlExcluded(p, url)
          else !ShapesHosts(p.mode) || (!UrlExcluded(p, url) && FindScheme(url, 0).Some?))
  {
    hide Excluded, FindScheme, UrlHost, CutAt;
    if event.browser.Some? && event.browser.value.url != "" {
      var name, url := event.network.value.dnsQueryName, event.browser.value.url;
      if Excluded(p, name) {
        assert RedactionKind.DomainExcluded in DnsKinds(p, name);
      } else if ShapesHosts(p.mode) {
        assert (if p.mode == DomainHash then HostnameHash else HostnameMask) in DnsKinds(p, name);
      }
    }
  }

  /** A withheld name whose withholding the audit does not show, because a URL was looked at after it. */
  lemma AuditForgets(event: Event)
    requires event.network.Some? && event.network.value.dnsQueryName == "a.b"
    requires event.browser.Some? && event.browser.value.url == "h://x"
    ensures var out := Applied(ListingPolicy(), event);
      && out.network.value.dnsQueryName == ""
      && (DomainExcluded !in event.privacy.redactions ==> DomainExcluded !in out.privacy.redactions)
  {
    hide FindScheme, FindFirstOf, HostUnderDomain, Lower, Stem;
    ListedMeans("a.b");
    ListedMeans("x");
    UnderItself("a.b");
    assert !HostUnderDomain("x", "a.b") by { NotUnder("x", "a.b"); }
    PlainUrl("x");
    assert "h://" + "x" == "h://x";
  }

  lemma NotUnder(host: string, domain: string)
    requires |host| < |domain|
    ensures !HostUnderDomain(host, domain)
  {
  }

  /** Engine B takes engine A's exported document, whatever the two went through, and then holds A's policy. */
  lemma PolicyReplication(a: seq<Json>, b: seq<Json>)
    ensures MIN_RETENTION <= AfterDocs(a).retention <= MAX_RETENTION
    ensures Acceptable(ToJson(AfterDocs(a)))
    ensures AfterDocs(b + [ToJson(AfterDocs(a))]) == AfterDocs(a)
  {
    ReachablePolicyIsSound(a);
    ReachablePolicyIsSound(b);
    var p, q := AfterDocs(a), AfterDocs(b);
    ExportRoundTrip(p, q);
    assert (b + [ToJson(p)])[..|b|] == b;
  }

  lemma ModeNameRoundTrip(mode: RedactionMode)
    ensures ModeFromName(ModeName(mode)) == Some(mode)
  {
  }

  lemma ExportRoundTrip(p: Policy, q: Policy)
    requires Sound(p) && Sound(q)
    ensures Acceptable(ToJson(p)) && Updated(q, ToJson(p)) == p
  {
    hide ModeFromName, ModeName;
    ModeNameRoundTrip(p.mode);
    var doc := ToJson(p);
    var red, persist := doc.fields["redaction"], doc.fields["persistence"];
    assert AcceptableRedaction(red);
    assert AcceptablePersistence(persist);
    assert Texts(red.fields["sensitive_domains"].items) == p.sensitiveDomains;
  }
}
