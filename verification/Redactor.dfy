/** Centralised redaction of URLs and DNS names. */
module RedactorModel {
  import opened Common
  import opened Events

  // ---------- String searches ----------

  /** The least index from `from` on whose character is in the set. */
  function FindFirstOf(s: string, chars: set<char>, from: nat): (r: Option<nat>)
    ensures r.Some? ==> from <= r.value < |s| && s[r.value] in chars
    ensures r.Some? ==> forall j :: from <= j < r.value ==> s[j] !in chars
    ensures r.None? ==> forall j :: from <= j < |s| ==> s[j] !in chars
    decreases |s| - from
  {
    if from >= |s| then None
    else if s[from] in chars then Some(from)
    else FindFirstOf(s, chars, from + 1)
  }

  /** The greatest index below `limit` that holds a dot. */
  function FindLastDot(s: string, limit: nat): (r: Option<nat>)
    requires limit <= |s|
    ensures r.Some? ==> r.value < limit && s[r.value] == '.'
    ensures r.Some? ==> forall j :: r.value < j < limit ==> s[j] != '.'
    ensures r.None? ==> forall j :: 0 <= j < limit ==> s[j] != '.'
  {
    if limit == 0 then None
    else if s[limit - 1] == '.' then Some(limit - 1)
    else FindLastDot(s, limit - 1)
  }

  predicate SchemeAt(s: string, i: nat)
  {
    i + 3 <= |s| && s[i] == ':' && s[i + 1] == '/' && s[i + 2] == '/'
  }

  /** The least index at which "://" stands. */
  function FindScheme(s: string, from: nat): (r: Option<nat>)
    ensures r.Some? ==> from <= r.value && SchemeAt(s, r.value)
    ensures r.Some? ==> forall j :: from <= j < r.value ==> !SchemeAt(s, j)
    ensures r.None? ==> forall j :: from <= j ==> !SchemeAt(s, j)
    decreases |s| - from
  {
    if from >= |s| then None
    else if SchemeAt(s, from) then Some(from)
    else FindScheme(s, from + 1)
  }

  // ---------- Domain exclusion ----------

  function LowerChar(c: char): char
  {
    if 'A' <= c <= 'Z' then ((c as int) - ('A' as int) + ('a' as int)) as char else c
  }

  function Lower(s: string): (r: string)
    ensures |r| == |s|
  {
    seq(|s|, i requires 0 <= i < |s| => LowerChar(s[i]))
  }

  predicate HostUnderDomain(host: string, domain: string)
  {
    if host == domain then true
    else if |host| <= |domain| then false
    else if host[|host| - |domain|..] != domain then false
    else host[|host| - |domain| - 1] == '.'
  }

  /** Being a subdomain: some labels and a dot in front. */
  ghost predicate SubdomainOf(host: string, domain: string)
  {
    exists labels: string :: host == labels + "." + domain
  }

  lemma UnderDomainMeans(host: string, domain: string)
    ensures HostUnderDomain(host, domain) <==> host == domain || SubdomainOf(host, domain)
  {
    if HostUnderDomain(host, domain) && host != domain {
      var labels := host[..|host| - |domain| - 1];
      assert host == labels + "." + domain;
    }
    forall labels: string | host == labels + "." + domain ensures HostUnderDomain(host, domain) {
      assert host[|labels| + 1..] == domain;
    }
  }

  predicate Excluded(p: Policy, host: string)
  {
    exists i :: 0 <= i < |p.sensitiveDomains| && HostUnderDomain(Lower(host), Lower(p.sensitiveDomains[i]))
  }

  // ---------- Hostname transforms ----------

  function CharByte(c: char): bv64
  {
    ByteWord(c as int % 256)
  }

  function ByteWord(b: Byte): bv64
  {
    b as bv64
  }

  function FnvMix(hash: bv64, byte: bv64): bv64
  {
    (hash ^ byte) * 1099511628211
  }

  function FnvStep(hash: bv64, c: char): bv64
  {
    FnvMix(hash, CharByte(c))
  }

  function Fnv1a(data: string): bv64
  {
    if data == "" then 14695981039346656037 else FnvStep(Fnv1a(data[..|data| - 1]), data[|data| - 1])
  }

  /** The k low-order hexadecimal digits of h, most significant first. */
  function HexDigits(h: bv64, k: nat): (r: string)
    ensures |r| == k
  {
    if k == 0 then "" else HexDigits(h >> 4, k - 1) + [HexDigit((h & 0xf) as bv4 as int)]
  }

  function HashName(host: string): (r: string)
    ensures |r| == 16
  {
    HexDigits(Fnv1a(host), 16)
  }

  method ComputeHash(data: string) returns (r: string)
    ensures r == HashName(data)
  {
    hide FnvStep;
    var hash: bv64 := 14695981039346656037;
    for i := 0 to |data|
      invariant hash == Fnv1a(data[..i])
    {
      hash := FnvStep(hash, data[i]);
      assert data[..i + 1][..i] == data[..i];
    }
    assert data[..|data|] == data;
    r := HexDigits(hash, 16);
  }

  /** Where masking ends: at the last dot but one, or at the only dot.
   The search below index 0 wraps to the whole string. */
  function MaskEnd(host: string): (r: Option<nat>)
    ensures r.Some? ==> r.value < |host| && host[r.value] == '.'
  {
    var last := FindLastDot(host, |host|);
    if last.None? then None
    else
      var second := FindLastDot(host, if last.value == 0 then |host| else last.value);
      if second.None? then last else second
  }

  predicate OnlyDot(host: string, e: nat)
  {
    e < |host| && host[e] == '.' && forall j :: 0 <= j < |host| && host[j] == '.' ==> j == e
  }

  /** A dot with exactly one dot after it. */
  predicate LastDotButOne(host: string, e: nat)
  {
    && e < |host| && host[e] == '.'
    && exists f :: e < f < |host| && host[f] == '.' && forall j :: e < j < |host| && host[j] == '.' ==> j == f
  }

  /** The boundary is the last dot but one, or the only dot; a name without dots has none. */
  lemma MaskEndMeans(host: string, e: nat)
    ensures MaskEnd(host) == Some(e) <==> OnlyDot(host, e) || LastDotButOne(host, e)
    ensures MaskEnd(host).None? <==> '.' !in host
  {
    hide FindLastDot;
    var last := FindLastDot(host, |host|);
    if last.Some? {
      var second := FindLastDot(host, if last.value == 0 then |host| else last.value);
      assert second.Some? ==> second == last || LastDotButOne(host, second.value);
    }
  }

  function Mask(host: string): (r: string)
    ensures |r| == |host|
  {
    var end := MaskEnd(host);
    if end.Some? && end.value > 1
    then host[..1] + seq(end.value - 1, _ => '*') + host[end.value..]
    else host
  }

  function Transform(mode: RedactionMode, host: string): string
  {
    match mode
    case DomainHash => HashName(host)
    case DomainMask => Mask(host)
    case _ => host
  }

  predicate Masked(host: string, j: nat)
  {
    MaskEnd(host).Some? && 1 <= j < MaskEnd(host).value
  }

  lemma MaskAt(host: string, j: nat)
    requires j < |host|
    ensures Mask(host)[j] == if Masked(host, j) then '*' else host[j]
  {
  }

  lemma MaskKeepsEnd(host: string)
    ensures MaskEnd(Mask(host)) == MaskEnd(host)
  {
    hide FindLastDot, Mask;
    var m, last := Mask(host), FindLastDot(host, |host|);
    if last.Some? && last.value > 0 {
      forall j | 0 <= j < |host| ensures m[j] == if Masked(host, j) then '*' else host[j] {
        MaskAt(host, j);
      }
      assert FindLastDot(m, |m|) == last;
      assert FindLastDot(m, last.value) == FindLastDot(host, last.value);
    } else {
      assert m == host by {
        forall j | 0 <= j < |host| ensures m[j] == host[j] { MaskAt(host, j); }
      }
    }
  }

  /** Masking twice is masking once, on every string. */
  lemma MaskIsIdempotent(host: string)
    ensures Mask(Mask(host)) == Mask(host)
  {
    hide Mask, MaskEnd;
    var m := Mask(host);
    MaskKeepsEnd(host);
    forall j | 0 <= j < |host| ensures Mask(m)[j] == m[j] {
      MaskAt(host, j);
      MaskAt(m, j);
    }
  }

  /**
   Exactly what a masked name still tells: two names have the same masked form just when they share the
   boundary, the length, the first character and the text from the boundary on.
   */
  lemma MaskReveals(a: string, b: string, end: nat)
    requires MaskEnd(a) == Some(end) && end > 1
    ensures Mask(a) == Mask(b) <==>
            MaskEnd(b) == Some(end) && |a| == |b| && a[0] == b[0] && a[end..] == b[end..]
  {
    hide Mask, MaskEnd;
    MaskKeepsEnd(a);
    MaskKeepsEnd(b);
    if MaskEnd(b) == Some(end) && |a| == |b| {
      forall j | 0 <= j < |a|
        ensures Mask(a)[j] == (if 1 <= j < end then '*' else a[j])
        ensures Mask(b)[j] == (if 1 <= j < end then '*' else b[j])
      {
        MaskAt(a, j);
        MaskAt(b, j);
      }
      if Mask(a) == Mask(b) {
        assert a[0] == Mask(a)[0] && b[0] == Mask(b)[0];
        forall j | end <= j < |a| ensures a[j] == b[j] { assert a[j] == Mask(a)[j] && b[j] == Mask(b)[j]; }
      }
    }
  }

  // ---------- URLs ----------

  const HOST_END: set<char> := {'/', '?', '#'}

  function HostStart(url: string): (r: nat)
    ensures r <= |url|
  {
    var scheme := FindScheme(url, 0);
    if scheme.None? then 0 else scheme.value + 3
  }

  function HostEnd(url: string): (r: nat)
    ensures HostStart(url) <= r <= |url|
  {
    FindFirstOf(url, HOST_END, HostStart(url)).GetOr(|url|)
  }

  function UrlHost(url: string): string
  {
    url[HostStart(url)..HostEnd(url)]
  }

  /** Everything before the first of the given characters. */
  function CutAt(s: string, chars: set<char>): (r: string)
    ensures r <= s && forall c :: c in r ==> c !in chars
  {
    s[..FindFirstOf(s, chars, 0).GetOr(|s|)]
  }

  function Strip(p: Policy, url: string): string
  {
    var noFragment := if p.stripFragment then CutAt(url, {'#'}) else url;
    if p.stripQueryString then CutAt(noFragment, {'?'}) else noFragment
  }

  predicate UrlExcluded(p: Policy, url: string)
  {
    UrlHost(url) != "" && Excluded(p, UrlHost(url))
  }

  /** What redaction returns for a URL; the empty string when its host is excluded. */
  function RedactUrl(p: Policy, url: string): string
  {
    if UrlExcluded(p, url) then "" else Shape(p.mode, Strip(p, url), FindScheme(url, 0), UrlHost(url))
  }

  function Shape(mode: RedactionMode, stripped: string, scheme: Option<nat>, host: string): string
  {
    if scheme.None? then stripped
    else
      match mode
      case HostnameOnly => stripped[..FindFirstOf(stripped, {'/'}, scheme.value + 3).GetOr(|stripped|)]
      case DomainHash => ReplaceHost(stripped, scheme.value + 3, HashName(host))
      case DomainMask => ReplaceHost(stripped, scheme.value + 3, Mask(host))
      case _ => stripped
  }

  function ReplaceHost(url: string, start: nat, host: string): string
  {
    var end := FindFirstOf(url, HOST_END, start);
    url[..if start <= |url| then start else |url|] + host + (if end.None? then "" else url[end.value..])
  }

  /** The audit of one URL redaction. */
  function UrlKinds(p: Policy, url: string): set<RedactionKind>
  {
    if UrlExcluded(p, url) then {RedactionKind.DomainExcluded}
    else StripKinds(p, url) + ShapeKinds(p.mode, FindScheme(url, 0))
  }

  function StripKinds(p: Policy, url: string): set<RedactionKind>
  {
    var noFragment := if p.stripFragment then CutAt(url, {'#'}) else url;
    (if p.stripFragment && '#' in url then {Fragment} else {})
    + (if p.stripQueryString && '?' in noFragment then {QueryString} else {})
  }

  function ShapeKinds(mode: RedactionMode, scheme: Option<nat>): set<RedactionKind>
  {
    if scheme.None? then {}
    else
      match mode
      case HostnameOnly => {QueryString}
      case DomainHash => {HostnameHash}
      case DomainMask => {HostnameMask}
      case _ => {}
  }

  /** What redaction returns for a DNS name; the empty string when the name is excluded. */
  function RedactDnsName(p: Policy, name: string): string
  {
    if name == "" || Excluded(p, name) then "" else Transform(p.mode, name)
  }

  function DnsKinds(p: Policy, name: string): set<RedactionKind>
  {
    if name == "" then {}
    else if Excluded(p, name) then {RedactionKind.DomainExcluded}
    else
      match p.mode
      case DomainHash => {HostnameHash}
      case DomainMask => {HostnameMask}
      case _ => {}
  }

  /** The redactor object: a policy copy, and the audit of the last call. */
  class Redactor {
    const policy: Policy
    var lastRedactions: set<RedactionKind>

    constructor (policy: Policy)
      ensures this.policy == policy && lastRedactions == {}
    {
      this.policy := policy;
      lastRedactions := {};
    }

    method Redact(url: string) returns (result: string)
      modifies this
      ensures result == RedactUrl(policy, url)
      ensures lastRedactions == UrlKinds(policy, url)
    {
      hide HashName, Mask, Excluded, FindFirstOf, FindScheme;
      var scheme := FindScheme(url, 0);
      var hostStart := if scheme.None? then 0 else scheme.value + 3;
      var hostEnd := FindFirstOf(url, HOST_END, hostStart);
      var host := if hostEnd.None? then url[hostStart..] else url[hostStart..hostEnd.value];
      assert host == UrlHost(url);

      if host != "" && Excluded(policy, host) {
        lastRedactions := {RedactionKind.DomainExcluded};
        return "";
      }

      var stripKinds, shapeKinds;
      result, stripKinds := StripParts(url);
      result, shapeKinds := ShapeHost(result, scheme, host);
      lastRedactions := stripKinds + shapeKinds;
    }

    /** Fragment removal first, then the query string. */
    method StripParts(url: string) returns (result: string, kinds: set<RedactionKind>)
      ensures result == Strip(policy, url) && kinds == StripKinds(policy, url)
    {
      hide FindFirstOf;
      result, kinds := url, {};
      if policy.stripFragment {
        var frag := FindFirstOf(result, {'#'}, 0);
        if frag.Some? {
          result := result[..frag.value];
          kinds := kinds + {Fragment};
        }
      }
      if policy.stripQueryString {
        var query := FindFirstOf(result, {'?'}, 0);
        if query.Some? {
          result := result[..query.value];
          kinds := kinds + {QueryString};
        }
      }
    }

    /** The mode's treatment of host and path, on a URL that has a scheme. */
    method ShapeHost(stripped: string, scheme: Option<nat>, host: string)
      returns (result: string, kinds: set<RedactionKind>)
      ensures result == Shape(policy.mode, stripped, scheme, host)
      ensures kinds == ShapeKinds(policy.mode, scheme)
    {
      hide HashName, Mask, FindFirstOf;
      result, kinds := stripped, {};
      if policy.mode.HostnameOnly? {
        if scheme.Some? {
          var pathStart := FindFirstOf(result, {'/'}, scheme.value + 3);
          if pathStart.Some? {
            result := result[..pathStart.value];
          }
          kinds := kinds + {QueryString};
        }
      }
      if policy.mode.DomainHash? || policy.mode.DomainMask? {
        if scheme.Some? {
          var newHost := Transform(policy.mode, host);
          var hostEnd2 := FindFirstOf(result, HOST_END, scheme.value + 3);
          var prefix := if scheme.value + 3 <= |result| then result[..scheme.value + 3] else result;
          var suffix := if hostEnd2.None? then "" else result[hostEnd2.value..];
          result := prefix + newHost + suffix;
          kinds := kinds + {if policy.mode.DomainHash? then HostnameHash else HostnameMask};
        }
      }
    }

    method RedactName(name: string) returns (result: string)
      modifies this
      ensures result == RedactDnsName(policy, name)
      ensures lastRedactions == DnsKinds(policy, name)
    {
      var kinds: set<RedactionKind> := {};
      if name == "" {
        lastRedactions := kinds;
        return "";
      }
      if Excluded(policy, name) {
        lastRedactions := kinds + {RedactionKind.DomainExcluded};
        return "";
      }
      match policy.mode {
        case DomainHash =>
          result := ComputeHash(name);
          kinds := kinds + {HostnameHash};
        case DomainMask =>
          result := Mask(name);
          kinds := kinds + {HostnameMask};
        case _ =>
          result := name;
      }
      lastRedactions := kinds;
    }
  }

  // ---------- What redaction guarantees ----------

  predicate StripsBoth(p: Policy)
  {
    p.stripQueryString && p.stripFragment
  }

  predicate NoQueryOrFragment(s: string)
  {
    forall j :: 0 <= j < |s| ==> s[j] != '?' && s[j] != '#'
  }

  /** The part of a URL before its query and fragment. */
  function Stem(url: string): (r: string)
    ensures r <= url && NoQueryOrFragment(r)
    ensures |r| < |url| ==> url[|r|] == '?' || url[|r|] == '#'
  {
    url[..FindFirstOf(url, {'?', '#'}, 0).GetOr(|url|)]
  }

  lemma StripIsStem(p: Policy, url: string)
    requires StripsBoth(p)
    ensures Strip(p, url) == Stem(url)
  {
    hide FindFirstOf;
    var noFragment := CutAt(url, {'#'});
    var query := FindFirstOf(noFragment, {'?'}, 0);
    assert forall j :: 0 <= j < |noFragment| ==> noFragment[j] == url[j];
  }

  lemma {:induction false} HexDigitsAreClean(h: bv64, k: nat)
    ensures NoQueryOrFragment(HexDigits(h, k))
  {
    if k > 0 {
      HexDigitsAreClean(h >> 4, k - 1);
      HexDigitIsClean((h & 0xf) as bv4 as int);
    }
  }

  lemma HexDigitIsClean(n: nat)
    requires n < 16
    ensures HexDigit(n) != '?' && HexDigit(n) != '#'
  {
  }

  lemma MaskIsClean(host: string)
    requires NoQueryOrFragment(host)
    ensures NoQueryOrFragment(Mask(host))
  {
    hide Mask, MaskEnd;
    forall j | 0 <= j < |host| ensures Mask(host)[j] != '?' && Mask(host)[j] != '#' {
      MaskAt(host, j);
    }
  }

  lemma HostIsClean(url: string)
    ensures NoQueryOrFragment(UrlHost(url))
  {
    hide FindFirstOf, FindScheme;
    var start, end := HostStart(url), HostEnd(url);
    forall j | start <= j < end ensures url[j] !in HOST_END {
    }
  }

  lemma ReplaceHostIsClean(url: string, start: nat, host: string)
    requires NoQueryOrFragment(url) && NoQueryOrFragment(host)
    ensures NoQueryOrFragment(ReplaceHost(url, start, host))
  {
    hide FindFirstOf;
  }

  /** No redacted URL carries a query or fragment mark, in any mode, for any URL. */
  lemma RedactedUrlIsClean(p: Policy, url: string)
    requires StripsBoth(p)
    ensures NoQueryOrFragment(RedactUrl(p, url))
  {
    hide Mask, HexDigits, Fnv1a, Excluded, FindFirstOf, FindScheme, ReplaceHost, Strip, UrlHost;
    StripIsStem(p, url);
    HostIsClean(url);
    var host, stem := UrlHost(url), Stem(url);
    if FindScheme(url, 0).Some? {
      var start := FindScheme(url, 0).value + 3;
      MaskIsClean(host);
      ReplaceHostIsClean(stem, start, Mask(host));
      HexDigitsAreClean(Fnv1a(host), 16);
      ReplaceHostIsClean(stem, start, HashName(host));
    }
  }

  /** A DNS name is withheld exactly when it is empty or excluded. */
  lemma DnsNameWithheld(p: Policy, name: string)
    ensures RedactDnsName(p, name) == "" <==> name == "" || Excluded(p, name)
  {
    hide Mask, HexDigits, Fnv1a, Excluded;
  }

  /** The same letter but for case: equal code points, or a capital and the code point 32 above it. */
  predicate SameLetter(a: char, b: char)
  {
    || a == b
    || (65 <= a as int <= 90 && b as int == a as int + 32)
    || (65 <= b as int <= 90 && a as int == b as int + 32)
  }

  predicate SameText(a: string, b: string)
  {
    |a| == |b| && forall i :: 0 <= i < |a| ==> SameLetter(a[i], b[i])
  }

  lemma LowerCharIdentifies(a: char, b: char)
    ensures LowerChar(a) == LowerChar(b) <==> SameLetter(a, b)
  {
  }

  /** Lowering identifies exactly the texts that differ in case only. */
  lemma LowerIdentifies(a: string, b: string)
    ensures Lower(a) == Lower(b) <==> SameText(a, b)
  {
    hide LowerChar, SameLetter;
    forall c, d ensures LowerChar(c) == LowerChar(d) <==> SameLetter(c, d) {
      LowerCharIdentifies(c, d);
    }
    if Lower(a) == Lower(b) {
      forall i | 0 <= i < |a| ensures SameLetter(a[i], b[i]) {
        assert Lower(a)[i] == Lower(b)[i];
      }
    }
  }

  /** A dot, and behind it the domain but for case. */
  predicate EndsUnder(name: string, domain: string, dot: nat)
    requires dot < |name|
  {
    name[dot] == '.' && SameText(name[dot + 1..], domain)
  }

  lemma EndsUnderMeans(name: string, domain: string, dot: nat)
    requires dot < |name|
    ensures EndsUnder(name, domain, dot) <==> Lower(name)[dot] == '.' && Lower(name)[dot + 1..] == Lower(domain)
  {
    hide Lower, SameText;
    LowerKeeps(name, dot);
    LowerSlice(name, dot + 1, |name|);
    LowerIdentifies(name[dot + 1..], domain);
    assert Lower(name)[dot + 1..|name|] == Lower(name)[dot + 1..];
    assert name[dot + 1..|name|] == name[dot + 1..];
  }

  lemma SubdomainIgnoringCase(name: string, domain: string)
    ensures SubdomainOf(Lower(name), Lower(domain)) <==> exists dot: nat :: dot < |name| && EndsUnder(name, domain, dot)
  {
    hide Lower, EndsUnder;
    var n, d := Lower(name), Lower(domain);
    if dot: nat :| dot < |name| && EndsUnder(name, domain, dot) {
      EndsUnderMeans(name, domain, dot);
      assert n == n[..dot] + "." + d;
    }
    if labels: string :| n == labels + "." + d {
      assert n[|labels|] == '.' && n[|labels| + 1..] == d;
      EndsUnderMeans(name, domain, |labels|);
    }
  }

  /**
   Exclusion, ignoring case and nothing else: a name is excluded exactly when it is a listed domain but for
   case, or some labels, a dot and a text that is a listed domain but for case.
   */
  lemma ExcludedMeans(p: Policy, name: string)
    ensures Excluded(p, name) <==> exists d ::
        && d in p.sensitiveDomains
        && (SameText(name, d) || exists labels, tail :: name == labels + "." + tail && SameText(tail, d))
  {
    hide HostUnderDomain, SameText, Lower;
    forall i | 0 <= i < |p.sensitiveDomains|
      ensures
        var d := p.sensitiveDomains[i];
        HostUnderDomain(Lower(name), Lower(d)) <==>
          SameText(name, d) || exists labels, tail :: name == labels + "." + tail && SameText(tail, d)
    {
      var d := p.sensitiveDomains[i];
      UnderDomainMeans(Lower(name), Lower(d));
      LowerIdentifies(name, d);
      SubdomainIgnoringCase(name, d);
      LabelsAndTail(name, d);
    }
  }

  lemma LabelsAndTail(name: string, d: string)
    ensures (exists dot: nat :: dot < |name| && EndsUnder(name, d, dot)) <==>
            exists labels, tail :: name == labels + "." + tail && SameText(tail, d)
  {
    hide SameText;
    forall dot: nat | dot < |name| && EndsUnder(name, d, dot) ensures name == name[..dot] + "." + name[dot + 1..] {
    }
    forall labels, tail | name == labels + "." + tail && SameText(tail, d) ensures EndsUnder(name, d, |labels|) {
      assert name[|labels| + 1..] == tail;
    }
  }

  // ---------- Exclusion widens with the list ----------

  lemma UnderIsTransitive(a: string, b: string, c: string)
    requires HostUnderDomain(a, b) && HostUnderDomain(b, c)
    ensures HostUnderDomain(a, c)
  {
    if a != b && b != c {
      var i := |a| - |c|;
      assert a[|a| - |b|..][|b| - |c|..] == a[i..];
      assert b[|b| - |c| - 1] == a[i - 1];
    }
  }

  /** Everything excluded under one policy is excluded under another. */
  ghost predicate KeepsExclusions(p: Policy, q: Policy)
  {
    forall name :: Excluded(p, name) ==> Excluded(q, name)
  }

  /** Exactly when each domain on the one list is excluded by the other. */
  lemma KeepsExclusionsIff(p: Policy, q: Policy)
    ensures KeepsExclusions(p, q) <==> forall i :: 0 <= i < |p.sensitiveDomains| ==> Excluded(q, p.sensitiveDomains[i])
  {
    hide HostUnderDomain, Lower;
    forall d: string ensures HostUnderDomain(Lower(d), Lower(d)) {
      UnderItself(Lower(d));
    }
    forall name, i, j | 0 <= i < |p.sensitiveDomains| && 0 <= j < |q.sensitiveDomains|
      && HostUnderDomain(Lower(name), Lower(p.sensitiveDomains[i]))
      && HostUnderDomain(Lower(p.sensitiveDomains[i]), Lower(q.sensitiveDomains[j]))
      ensures HostUnderDomain(Lower(name), Lower(q.sensitiveDomains[j]))
    {
      UnderIsTransitive(Lower(name), Lower(p.sensitiveDomains[i]), Lower(q.sensitiveDomains[j]));
    }
  }

  lemma UnderItself(d: string)
    ensures HostUnderDomain(d, d)
  {
  }

  // ---------- Hosts inside authorities ----------

  /** Where the host of an authority starts, after any user information. */
  function HostFrom(authority: string): (r: nat)
    ensures r <= |authority| && (r > 0 ==> authority[r - 1] == '@')
  {
    var at := FindFirstOf(authority, {'@'}, 0);
    if at.None? then 0 else at.value + 1
  }

  /** Where it ends, before any port. */
  function HostTo(authority: string): (r: nat)
    ensures HostFrom(authority) <= r <= |authority| && (r < |authority| ==> authority[r] == ':')
  {
    FindFirstOf(authority, {':'}, HostFrom(authority)).GetOr(|authority|)
  }

  /** The host alone, as attribution reads it. */
  function BareHost(authority: string): string
  {
    authority[HostFrom(authority)..HostTo(authority)]
  }

  predicate HasUser(authority: string) { HostFrom(authority) > 0 }

  predicate HasPort(authority: string) { HostTo(authority) < |authority| }

  /** Excluded as a proper subdomain of a listed domain. */
  predicate ProperlyUnder(p: Policy, host: string)
  {
    exists i :: 0 <= i < |p.sensitiveDomains| && |p.sensitiveDomains[i]| < |host|
      && HostUnderDomain(Lower(host), Lower(p.sensitiveDomains[i]))
  }

  /** A listed domain that is no host name, or a port with a dot in it, can match across the parts of an authority. */
  predicate OddMatch(p: Policy, authority: string)
  {
    exists i :: 0 <= i < |p.sensitiveDomains| && Odd(p.sensitiveDomains[i], authority)
      && HostUnderDomain(Lower(authority), Lower(p.sensitiveDomains[i]))
  }

  predicate Odd(domain: string, authority: string)
  {
    '@' in domain || ':' in domain || '.' in authority[HostTo(authority)..]
  }

  lemma LowerKeeps(s: string, i: nat)
    requires i < |s|
    ensures Lower(s)[i] == '@' <==> s[i] == '@'
    ensures Lower(s)[i] == ':' <==> s[i] == ':'
    ensures Lower(s)[i] == '.' <==> s[i] == '.'
  {
  }

  lemma LowerSlice(s: string, i: nat, j: nat)
    requires i <= j <= |s|
    ensures Lower(s[i..j]) == Lower(s)[i..j]
  {
  }

  /** A host name is not found beyond the mark that ends or starts the host. */
  lemma NoMatchAcross(authority: string, domain: string, mark: nat)
    requires mark < |authority| && (authority[mark] == '@' || authority[mark] == ':')
    requires '@' !in domain && ':' !in domain && HostUnderDomain(Lower(authority), Lower(domain))
    ensures |authority| - |domain| - 1 > mark && authority[|authority| - |domain| - 1] == '.'
  {
    hide Lower;
    var from := |authority| - |domain|;
    LowerKeeps(authority, mark);
    assert Lower(authority)[from..] == Lower(domain);
    if from <= mark {
      assert Lower(domain)[mark - from] == Lower(authority)[mark];
      LowerKeeps(domain, mark - from);
    } else {
      LowerKeeps(authority, from - 1);
    }
  }

  lemma PortHides(authority: string, domain: string)
    requires HasPort(authority) && !Odd(domain, authority)
    ensures !HostUnderDomain(Lower(authority), Lower(domain))
  {
    hide Lower, HostUnderDomain;
    if HostUnderDomain(Lower(authority), Lower(domain)) {
      var colon := HostTo(authority);
      NoMatchAcross(authority, domain, colon);
      assert false;
    }
  }

  lemma UserNeedsSubdomain(authority: string, domain: string)
    requires HasUser(authority) && !HasPort(authority) && !Odd(domain, authority)
    requires HostUnderDomain(Lower(authority), Lower(domain))
    ensures |domain| < |BareHost(authority)| && HostUnderDomain(Lower(BareHost(authority)), Lower(domain))
  {
    hide Lower;
    var from := HostFrom(authority);
    NoMatchAcross(authority, domain, from - 1);
    LowerSlice(authority, from, |authority|);
    var host, start := BareHost(authority), |authority| - |domain|;
    assert Lower(host) == Lower(authority)[from..];
    assert Lower(authority)[start..] == Lower(authority)[from..][start - from..];
    LowerKeeps(authority, start - 1);
  }

  lemma SubdomainShows(authority: string, domain: string)
    requires !HasPort(authority) && |domain| < |BareHost(authority)|
    requires HostUnderDomain(Lower(BareHost(authority)), Lower(domain))
    ensures HostUnderDomain(Lower(authority), Lower(domain))
  {
    hide Lower;
    var from, start := HostFrom(authority), |authority| - |domain|;
    var whole, host, low := Lower(authority), Lower(BareHost(authority)), Lower(domain);
    LowerSlice(authority, from, |authority|);
    assert host == whole[from..] && |host| - |low| == start - from;
    assert host[start - from..] == low && host[start - from - 1] == '.';
    assert whole[start..] == low && whole[start - 1] == '.';
  }

  /**
   Exclusion of a whole authority in terms of its host: without a port, the host itself must be excluded, and
   behind user information as a proper subdomain; nothing else is excluded but by an odd match.
   */
  lemma AuthorityExclusion(p: Policy, authority: string)
    ensures Excluded(p, authority) <==>
      || OddMatch(p, authority)
      || (!HasPort(authority) &&
          if HasUser(authority) then ProperlyUnder(p, BareHost(authority)) else Excluded(p, BareHost(authority)))
  {
    hide HostUnderDomain, Lower, Odd, HostFrom, HostTo;
    var host := BareHost(authority);
    assert !HasUser(authority) && !HasPort(authority) ==> host == authority;
    forall i | 0 <= i < |p.sensitiveDomains| && HostUnderDomain(Lower(authority), Lower(p.sensitiveDomains[i]))
      && !Odd(p.sensitiveDomains[i], authority)
      ensures !HasPort(authority)
      ensures HasUser(authority) ==>
        |p.sensitiveDomains[i]| < |host| && HostUnderDomain(Lower(host), Lower(p.sensitiveDomains[i]))
    {
      if HasPort(authority) {
        PortHides(authority, p.sensitiveDomains[i]);
        assert false;
      }
      if HasUser(authority) {
        UserNeedsSubdomain(authority, p.sensitiveDomains[i]);
      }
    }
    forall i | 0 <= i < |p.sensitiveDomains| && !HasPort(authority) && |p.sensitiveDomains[i]| < |host|
      && HostUnderDomain(Lower(host), Lower(p.sensitiveDomains[i]))
      ensures HostUnderDomain(Lower(authority), Lower(p.sensitiveDomains[i]))
    {
      SubdomainShows(authority, p.sensitiveDomains[i]);
    }
  }

  // ---------- What is shown ----------

  /** What stands for a name that is not withheld: its hash, its masked form, or the name itself. */
  lemma DnsNameShown(p: Policy, name: string)
    requires name != "" && !Excluded(p, name)
    ensures p.mode.DomainHash? ==> RedactDnsName(p, name) == HashName(name)
    ensures p.mode.DomainMask? ==>
      && |RedactDnsName(p, name)| == |name|
      && forall j :: 0 <= j < |name| ==>
           RedactDnsName(p, name)[j] ==
           if exists e :: j < e && (OnlyDot(name, e) || LastDotButOne(name, e)) && j >= 1 then '*' else name[j]
    ensures p.mode in {HostnameOnly, QueryStringRemoval, FullHostname} ==> RedactDnsName(p, name) == name
  {
    hide HashName, Mask, Excluded, MaskEnd, OnlyDot, LastDotButOne;
    if p.mode.DomainMask? {
      forall j | 0 <= j < |name|
        ensures Mask(name)[j] ==
                if exists e :: j < e && (OnlyDot(name, e) || LastDotButOne(name, e)) && j >= 1 then '*' else name[j]
      {
        MaskAt(name, j);
        forall e: nat ensures MaskEnd(name) == Some(e) <==> OnlyDot(name, e) || LastDotButOne(name, e) {
          MaskEndMeans(name, e);
        }
      }
    }
  }

  lemma ByteWords()
    ensures ByteWord(97) == 0x61 && ByteWord(98) == 0x62 && ByteWord(102) == 0x66
    ensures ByteWord(111) == 0x6f && ByteWord(114) == 0x72
  {
  }

  lemma LetterBytes()
    ensures CharByte('f') == 0x66 && CharByte('o') == 0x6f && CharByte('b') == 0x62
    ensures CharByte('a') == 0x61 && CharByte('r') == 0x72
  {
    ByteWords();
    hide ByteWord;
  }

  lemma FirstMixes()
    ensures FnvMix(0xcbf29ce484222325, 0x61) == 0xaf63dc4c8601ec8c
    ensures FnvMix(0xcbf29ce484222325, 0x66) == 0xaf63db4c8601ead9
    ensures FnvMix(0xaf63db4c8601ead9, 0x6f) == 0x08985907b541d342
  {
  }

  lemma LaterMixes()
    ensures FnvMix(0x08985907b541d342, 0x6f) == 0xdcb27518fed9d577
    ensures FnvMix(0xdcb27518fed9d577, 0x62) == 0xdd120e790c2512af
    ensures FnvMix(0xdd120e790c2512af, 0x61) == 0xcac165afa2fef40a
    ensures FnvMix(0xcac165afa2fef40a, 0x72) == 0x85944171f73967e8
  {
  }

  lemma FnvOfNothing()
    ensures Fnv1a("") == 0xcbf29ce484222325
  {
  }

  lemma FnvAppend(text: string, c: char)
    ensures Fnv1a(text + [c]) == FnvMix(Fnv1a(text), CharByte(c))
  {
    hide FnvMix, CharByte;
    assert (text + [c])[..|text|] == text;
  }

  /** The published FNV-1a test values. */
  lemma FnvValues()
    ensures Fnv1a("") == 0xcbf29ce484222325
    ensures Fnv1a("a") == 0xaf63dc4c8601ec8c
    ensures Fnv1a("foobar") == 0x85944171f73967e8
  {
    FnvOfNothing();
    hide FnvMix, CharByte, Fnv1a;
    LetterBytes();
    FirstMixes();
    LaterMixes();
    FnvAppend("", 'a');
    FnvAppend("", 'f');
    FnvAppend("f", 'o');
    FnvAppend("fo", 'o');
    FnvAppend("foo", 'b');
    FnvAppend("foob", 'a');
    FnvAppend("fooba", 'r');
    assert "" + ['a'] == "a" && "" + ['f'] == "f" && "f" + ['o'] == "fo" && "fo" + ['o'] == "foo";
    assert "foo" + ['b'] == "foob" && "foob" + ['a'] == "fooba" && "fooba" + ['r'] == "foobar";
  }

  lemma HexStep(h: bv64, digits: string, c: char)
    requires HexDigits(h >> 4, |digits|) == digits && HexDigit((h & 0xf) as bv4 as int) == c
    ensures HexDigits(h, |digits| + 1) == digits + [c]
  {
  }

  lemma HighDigitsOfA()
    ensures HexDigits(0xaf63dc4c, 8) == "af63dc4c"
  {
    hide HexDigits;
    HexStep(0xa, "", 'a');
    HexStep(0xaf, "a", 'f');
    HexStep(0xaf6, "af", '6');
    HexStep(0xaf63, "af6", '3');
    HexStep(0xaf63d, "af63", 'd');
    HexStep(0xaf63dc, "af63d", 'c');
    HexStep(0xaf63dc4, "af63dc", '4');
    HexStep(0xaf63dc4c, "af63dc4", 'c');
  }

  /** The digits are the hash's, most significant first and in lower case. */
  lemma HashOfA()
    ensures HashName("a") == "af63dc4c8601ec8c"
  {
    FnvValues();
    hide Fnv1a, HexDigits;
    HighDigitsOfA();
    HexStep(0xaf63dc4c8, "af63dc4c", '8');
    HexStep(0xaf63dc4c86, "af63dc4c8", '6');
    HexStep(0xaf63dc4c860, "af63dc4c86", '0');
    HexStep(0xaf63dc4c8601, "af63dc4c860", '1');
    HexStep(0xaf63dc4c8601e, "af63dc4c8601", 'e');
    HexStep(0xaf63dc4c8601ec, "af63dc4c8601e", 'c');
    HexStep(0xaf63dc4c8601ec8, "af63dc4c8601ec", '8');
    HexStep(0xaf63dc4c8601ec8c, "af63dc4c8601ec8", 'c');
  }

  /** Stripping cuts at the first mark the policy strips, and nowhere else. */
  lemma StripMeans(p: Policy, url: string)
    ensures Strip(p, url) <= url
    ensures p.stripFragment ==> '#' !in Strip(p, url)
    ensures p.stripQueryString ==> '?' !in Strip(p, url)
    ensures |Strip(p, url)| < |url| ==>
      var c := url[|Strip(p, url)|];
      (p.stripFragment && c == '#') || (p.stripQueryString && c == '?')
  {
    hide FindFirstOf;
  }

  /** The audit of a URL, kind by kind. */
  lemma UrlAuditMeans(p: Policy, url: string)
    ensures RedactionKind.DomainExcluded in UrlKinds(p, url) <==> UrlExcluded(p, url)
    ensures Fragment in UrlKinds(p, url) <==> !UrlExcluded(p, url) && p.stripFragment && '#' in url
    ensures QueryString in UrlKinds(p, url) <==>
      && !UrlExcluded(p, url)
      && (|| (p.mode.HostnameOnly? && exists i :: SchemeAt(url, i))
          || (p.stripQueryString && exists i ::
                0 <= i < |url| && url[i] == '?' && (p.stripFragment ==> '#' !in url[..i])))
    ensures HostnameHash in UrlKinds(p, url) <==>
      !UrlExcluded(p, url) && p.mode.DomainHash? && exists i :: SchemeAt(url, i)
    ensures HostnameMask in UrlKinds(p, url) <==>
      !UrlExcluded(p, url) && p.mode.DomainMask? && exists i :: SchemeAt(url, i)
  {
    hide FindFirstOf, FindScheme, UrlExcluded;
    if p.stripFragment {
      var cut := CutAt(url, {'#'});
      assert '?' in cut <==> exists i :: 0 <= i < |url| && url[i] == '?' && '#' !in url[..i] by {
        forall i | 0 <= i < |cut| ensures '#' !in url[..i] { assert url[..i] == cut[..i]; }
        forall i | |cut| < i < |url| ensures '#' in url[..i] { assert url[..i][|cut|] == '#'; }
      }
    }
  }

  /** The audit of a DNS name, kind by kind. */
  lemma DnsAuditMeans(p: Policy, name: string)
    ensures RedactionKind.DomainExcluded in DnsKinds(p, name) <==> name != "" && Excluded(p, name)
    ensures HostnameHash in DnsKinds(p, name) <==> name != "" && !Excluded(p, name) && p.mode.DomainHash?
    ensures HostnameMask in DnsKinds(p, name) <==> name != "" && !Excluded(p, name) && p.mode.DomainMask?
    ensures Fragment !in DnsKinds(p, name) && QueryString !in DnsKinds(p, name)
  {
    hide Excluded;
  }

  // ---------- When a URL is withheld ----------

  /** Nothing is left of a URL but its query or fragment, and the mode puts no host in its place. */
  predicate Vanishes(mode: RedactionMode, url: string)
  {
    && Stem(url) == ""
    && (FindScheme(url, 0).None? ||
        match mode
        case DomainHash => false
        case DomainMask => UrlHost(url) == ""
        case _ => true)
  }

  lemma ReplacedHostShows(url: string, start: nat, host: string)
    requires start > 0
    ensures ReplaceHost(url, start, host) == "" <==> url == "" && host == ""
  {
    hide FindFirstOf;
  }

  /** A URL is redacted to nothing exactly when its authority is excluded or it vanishes. */
  lemma UrlWithheld(p: Policy, url: string)
    requires StripsBoth(p)
    ensures RedactUrl(p, url) == "" <==> UrlExcluded(p, url) || Vanishes(p.mode, url)
  {
    hide Mask, HexDigits, Fnv1a, Excluded, FindFirstOf, FindScheme, ReplaceHost, Strip, UrlHost, Stem;
    StripIsStem(p, url);
    var host, stem := UrlHost(url), Stem(url);
    if FindScheme(url, 0).Some? {
      var start := FindScheme(url, 0).value + 3;
      ReplacedHostShows(stem, start, Mask(host));
      ReplacedHostShows(stem, start, HashName(host));
    }
  }

  /** A policy that lists one domain. */
  function ListingPolicy(): Policy
  {
    Policy(QueryStringRemoval, true, true, ["a.b"], false, 604800, [], "ip or ip6")
  }

  lemma LowerSame(s: string)
    requires forall c :: c in s ==> !('A' <= c <= 'Z')
    ensures Lower(s) == s
  {
    forall i | 0 <= i < |s| ensures Lower(s)[i] == s[i] {
      assert s[i] in s;
    }
  }

  lemma ListedMeans(host: string)
    requires forall c :: c in host ==> !('A' <= c <= 'Z')
    ensures Excluded(ListingPolicy(), host) <==> HostUnderDomain(host, "a.b")
  {
    hide HostUnderDomain;
    var domains := ListingPolicy().sensitiveDomains;
    LowerSame(host);
    LowerSame("a.b");
    assert domains[0] == "a.b";
  }

  lemma BarePartsOfWitnesses()
    ensures BareHost("a.b:1") == "a.b" == BareHost("u@a.b")
  {
    assert FindFirstOf("a.b:1", {'@'}, 0).None?;
    assert FindFirstOf("a.b:1", {':'}, 0) == Some(3);
    assert FindFirstOf("u@a.b", {'@'}, 0) == Some(1);
    assert FindFirstOf("u@a.b", {':'}, 2).None?;
  }

  /** A sensitive host is published once a port or user information stands beside it. */
  lemma PortReveals()
    ensures Excluded(ListingPolicy(), "a.b") && BareHost("a.b:1") == "a.b" == BareHost("u@a.b")
    ensures RedactUrl(ListingPolicy(), "h://a.b") == ""
    ensures RedactUrl(ListingPolicy(), "h://a.b:1") == "h://a.b:1"
    ensures RedactUrl(ListingPolicy(), "h://u@a.b") == "h://u@a.b"
  {
    hide Excluded, RedactUrl, BareHost, UrlHost;
    BarePartsOfWitnesses();
    ListedMeans("a.b");
    ListedMeans("a.b:1");
    ListedMeans("u@a.b");
    assert "a.b:1"[2..] != "a.b";
    PlainUrl("a.b");
    PlainUrl("a.b:1");
    PlainUrl("u@a.b");
    assert "h://" + "a.b" == "h://a.b" && "h://" + "a.b:1" == "h://a.b:1" && "h://" + "u@a.b" == "h://u@a.b";
  }

  lemma PlainUrl(authority: string)
    requires forall c :: c in authority ==> c !in HOST_END
    ensures UrlHost("h://" + authority) == authority
    ensures authority != "" && Excluded(ListingPolicy(), authority) ==>
      RedactUrl(ListingPolicy(), "h://" + authority) == ""
    ensures !Excluded(ListingPolicy(), authority) ==>
      RedactUrl(ListingPolicy(), "h://" + authority) == "h://" + authority
  {
    hide Excluded;
    var url := "h://" + authority;
    assert !SchemeAt(url, 0) && SchemeAt(url, 1);
    assert FindScheme(url, 0) == Some(1);
    assert FindFirstOf(url, HOST_END, 4).None?;
    StripIsStem(ListingPolicy(), url);
  }

  // ---------- Independence of the query ----------

  /** The first "://" is not in the query or fragment. */
  predicate SchemeInStem(url: string)
  {
    FindScheme(url, 0).None? || FindScheme(url, 0).value < |Stem(url)|
  }

  /** Scheme and host are read off the stem when the first "://" is there. */
  lemma StemKeepsHost(url: string)
    requires SchemeInStem(url)
    ensures FindScheme(Stem(url), 0) == FindScheme(url, 0)
    ensures UrlHost(Stem(url)) == UrlHost(url)
  {
    hide FindFirstOf, FindScheme;
    var stem := Stem(url);
    forall i: nat ensures SchemeAt(stem, i) <==> SchemeAt(url, i) && i < |stem| {
    }
    assert FindScheme(stem, 0) == FindScheme(url, 0);
    var start := HostStart(url);
    assert start <= |stem|;
    var e, e' := FindFirstOf(url, HOST_END, start), FindFirstOf(stem, HOST_END, start);
    assert |stem| < |url| ==> url[|stem|] in HOST_END;
    assert e'.GetOr(|stem|) == e.GetOr(|url|);
    assert stem[start..e'.GetOr(|stem|)] == url[start..e.GetOr(|url|)];
  }

  /** Redaction of such a URL looks at its stem only. */
  lemma StemDecides(p: Policy, url: string)
    requires StripsBoth(p) && SchemeInStem(url)
    ensures RedactUrl(p, url) == RedactUrl(p, Stem(url))
  {
    hide Mask, HexDigits, Fnv1a, Excluded, FindFirstOf, FindScheme;
    StemKeepsHost(url);
    StripIsStem(p, url);
    StripIsStem(p, Stem(url));
    StemOfStem(url);
  }

  lemma StemOfStem(url: string)
    ensures Stem(Stem(url)) == Stem(url)
  {
    hide FindFirstOf;
  }

  /** A hashing policy without sensitive domains. */
  function HashPolicy(): Policy
  {
    Policy(DomainHash, true, true, [], false, 604800, [], "ip or ip6")
  }

  /** A "://" that first stands in the query makes the hash of query text part of the result. */
  lemma QueryDecides(url: string)
    requires !SchemeInStem(url)
    ensures |RedactUrl(HashPolicy(), url)| == |Stem(url)| + 16
    ensures RedactUrl(HashPolicy(), Stem(url)) == Stem(url)
  {
    hide HexDigits, Fnv1a, FindFirstOf, FindScheme;
    var p, stem := HashPolicy(), Stem(url);
    StripIsStem(p, url);
    StripIsStem(p, stem);
    StemOfStem(url);
    forall i: nat ensures SchemeAt(stem, i) ==> SchemeAt(url, i) {
    }
    assert FindScheme(stem, 0).None?;
  }

  /**
   Two URLs that differ only after their first '?' or '#' are redacted alike under every policy that strips
   both, exactly when the first "://" of the URL does not stand in the part that is to be removed.
   */
  lemma QueryIndependence(url: string)
    ensures (forall p :: StripsBoth(p) ==> RedactUrl(p, url) == RedactUrl(p, Stem(url))) <==> SchemeInStem(url)
  {
    if SchemeInStem(url) {
      forall p | StripsBoth(p) ensures RedactUrl(p, url) == RedactUrl(p, Stem(url)) {
        StemDecides(p, url);
      }
    } else {
      QueryDecides(url);
      assert StripsBoth(HashPolicy());
    }
  }

  /**
   The shape of the result for a URL whose host is not excluded: scheme, host under the mode's transform, and
   the path unless only the host is kept. `front` is everything up to the host, `path` what follows it.
   */
  lemma ShapeOfResult(p: Policy, url: string)
    requires StripsBoth(p) && SchemeInStem(url) && FindScheme(url, 0).Some? && !UrlExcluded(p, url)
    ensures var stem, start, host := Stem(url), HostStart(url), UrlHost(url);
            var front, path := stem[..start], stem[start + |host|..];
            && stem == front + host + path
            && SchemeAt(front, start - 3)
            && (path == "" || path[0] == '/')
            && RedactUrl(p, url) == match p.mode
                                    case HostnameOnly => front + host
                                    case DomainHash => front + HashName(host) + path
                                    case DomainMask => front + Mask(host) + path
                                    case _ => stem
  {
    hide Mask, HexDigits, Fnv1a, Excluded, FindFirstOf, FindScheme, Strip, UrlExcluded;
    StemKeepsHost(url);
    StripIsStem(p, url);
    HostInStem(Stem(url));
  }

  lemma HostInStem(stem: string)
    requires NoQueryOrFragment(stem) && FindScheme(stem, 0).Some?
    ensures var start, host := HostStart(stem), UrlHost(stem);
            var end := start + |host|;
            && stem == stem[..start] + host + stem[end..]
            && stem[..end] == stem[..start] + host
            && SchemeAt(stem[..start], start - 3)
            && (end == |stem| || stem[end] == '/')
            && FindFirstOf(stem, {'/'}, start) == FindFirstOf(stem, HOST_END, start)
            && FindFirstOf(stem, HOST_END, start).GetOr(|stem|) == end
  {
    hide FindFirstOf, FindScheme;
    var start := HostStart(stem);
    var slash, stop := FindFirstOf(stem, {'/'}, start), FindFirstOf(stem, HOST_END, start);
    assert slash == stop;
  }
}
