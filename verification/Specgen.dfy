/** Endpoint descriptors: names, versions, paths and the canonical order of a bundle. */
module Specgen {
  import opened JsonValues

  datatype Endpoint = Endpoint(
    ns: string, name: string, version: string, kind: string, summary: string, description: string,
    request: Json, response: Json, attribution: seq<string>, confidence: string, privacy: seq<string>)

  // ---------- Names and versions ----------

  predicate IsDigit(c: char) { '0' <= c <= '9' }

  predicate IsUpper(c: char) { 'A' <= c <= 'Z' }

  predicate NameChar(c: char)
  {
    IsDigit(c) || IsUpper(c) || 'a' <= c <= 'z' || c == '_' || c == '-'
  }

  predicate MatchesPattern(value: string, maxLen: nat, allowUpper: bool)
  {
    && value != "" && |value| <= maxLen
    && (forall i :: 0 <= i < |value| ==> NameChar(value[i]))
    && (allowUpper || forall i :: 0 <= i < |value| ==> !IsUpper(value[i]))
  }

  predicate AllDigits(part: string)
  {
    forall i :: 0 <= i < |part| ==> IsDigit(part[i])
  }

  predicate NumericParts(parts: seq<string>)
  {
    forall i :: 0 <= i < |parts| ==> parts[i] != "" && AllDigits(parts[i])
  }

  function JoinDots(parts: seq<string>): string
    requires parts != []
  {
    if |parts| == 1 then parts[0] else parts[0] + "." + JoinDots(parts[1..])
  }

  /** x.y or x.y.z with numeric components. */
  ghost predicate IsVersion(version: string)
  {
    exists parts :: 2 <= |parts| <= 3 && NumericParts(parts) && JoinDots(parts) == version
  }

  /** The text between dots. */
  function SplitDots(s: string): (parts: seq<string>)
    ensures parts != []
  {
    if s == "" then [""]
    else
      var rest := SplitDots(s[1..]);
      if s[0] == '.' then [""] + rest else [[s[0]] + rest[0]] + rest[1..]
  }

  predicate DotFree(part: string)
  {
    forall i :: 0 <= i < |part| ==> part[i] != '.'
  }

  lemma {:induction false} JoinSplit(s: string)
    ensures JoinDots(SplitDots(s)) == s
  {
    if s != "" {
      JoinSplit(s[1..]);
      var rest := SplitDots(s[1..]);
      var parts := SplitDots(s);
      if s[0] == '.' {
        assert parts[1..] == rest;
        assert s == "" + "." + s[1..];
      } else {
        assert parts[1..] == rest[1..];
        assert s == [s[0]] + s[1..];
        if |rest| > 1 {
          assert [s[0]] + (rest[0] + "." + JoinDots(rest[1..])) == [s[0]] + rest[0] + "." + JoinDots(rest[1..]);
        }
      }
    }
  }

  lemma {:induction false} SplitPart(part: string, rest: string)
    requires DotFree(part)
    ensures SplitDots(part + "." + rest) == [part] + SplitDots(rest)
    ensures SplitDots(part) == [part]
  {
    var s := part + "." + rest;
    if part == "" {
      assert s[1..] == rest;
    } else {
      SplitPart(part[1..], rest);
      assert s[1..] == part[1..] + "." + rest;
      assert [part[0]] + part[1..] == part;
    }
  }

  lemma {:induction false} SplitJoin(parts: seq<string>)
    requires parts != [] && forall i :: 0 <= i < |parts| ==> DotFree(parts[i])
    ensures SplitDots(JoinDots(parts)) == parts
  {
    if |parts| == 1 {
      SplitPart(parts[0], "");
    } else {
      SplitJoin(parts[1..]);
      SplitPart(parts[0], JoinDots(parts[1..]));
    }
  }

  predicate SplitsAsVersion(version: string)
  {
    2 <= |SplitDots(version)| <= 3 && NumericParts(SplitDots(version))
  }

  lemma VersionMeans(version: string)
    ensures SplitsAsVersion(version) <==> IsVersion(version)
  {
    JoinSplit(version);
    if IsVersion(version) {
      var parts :| 2 <= |parts| <= 3 && NumericParts(parts) && JoinDots(parts) == version;
      forall i | 0 <= i < |parts| ensures DotFree(parts[i]) {
        assert AllDigits(parts[i]);
      }
      SplitJoin(parts);
    }
  }

  /** The first part continued. */
  function Continue(current: string, parts: seq<string>): (r: seq<string>)
    requires parts != []
    ensures |r| == |parts|
  {
    [current + parts[0]] + parts[1..]
  }

  lemma ContinueNothing(parts: seq<string>)
    requires parts != []
    ensures Continue("", parts) == parts
  {
    assert "" + parts[0] == parts[0];
  }

  lemma ReadDot(version: string, i: nat, current: string)
    requires i < |version| && version[i] == '.'
    ensures Continue(current, SplitDots(version[i..])) == [current] + SplitDots(version[i + 1..])
  {
    assert version[i..][1..] == version[i + 1..];
    assert current + "" == current;
  }

  lemma ReadChar(version: string, i: nat, current: string)
    requires i < |version| && version[i] != '.'
    ensures Continue(current, SplitDots(version[i..])) == Continue(current + [version[i]], SplitDots(version[i + 1..]))
  {
    var rest := SplitDots(version[i + 1..]);
    assert version[i..][1..] == version[i + 1..];
    assert current + ([version[i]] + rest[0]) == (current + [version[i]]) + rest[0];
  }

  lemma NothingLeft(version: string, current: string)
    ensures Continue(current, SplitDots(version[|version|..])) == [current]
  {
    assert current + "" == current;
  }

  method ValidVersion(version: string) returns (ok: bool)
    ensures ok <==> IsVersion(version)
  {
    hide SplitDots, Continue, IsVersion;
    VersionMeans(version);
    var components := 0;
    var current := "";
    ghost var complete: seq<string> := [];
    assert version[0..] == version;
    ContinueNothing(SplitDots(version));
    for i := 0 to |version|
      invariant |complete| == components <= 2
      invariant NumericParts(complete) && AllDigits(current)
      invariant SplitDots(version) == complete + Continue(current, SplitDots(version[i..]))
    {
      var c := version[i];
      if c == '.' {
        ReadDot(version, i, current);
        if current == "" || components >= 2 {
          assert SplitDots(version)[|complete|] == current;
          return false;
        }
        complete := complete + [current];
        current := "";
        components := components + 1;
        ContinueNothing(SplitDots(version[i + 1..]));
      } else if IsDigit(c) {
        ReadChar(version, i, current);
        current := current + [c];
      } else {
        ReadChar(version, i, current);
        Undigested(current, c, SplitDots(version[i + 1..]));
        assert SplitDots(version)[|complete|] == Continue(current + [c], SplitDots(version[i + 1..]))[0];
        return false;
      }
    }
    NothingLeft(version, current);
    ok := components >= 1 && current != "";
    assert SplitDots(version)[|complete|] == current;
  }

  lemma Undigested(current: string, c: char, parts: seq<string>)
    requires parts != [] && !IsDigit(c)
    ensures !AllDigits(Continue(current + [c], parts)[0])
  {
    var part := Continue(current + [c], parts)[0];
    assert part[|current|] == c;
  }

  /** The identity of an endpoint within a bundle. */
  datatype Key = Key(ns: string, name: string, version: string)

  function KeyOf(e: Endpoint): Key { Key(e.ns, e.name, e.version) }

  /** What validation establishes of the fields that make up names and paths. */
  ghost predicate ValidNames(e: Endpoint)
  {
    MatchesPattern(e.name, 64, true) && MatchesPattern(e.ns, 64, false) && IsVersion(e.version)
  }

  /** ASCII letters, digits, underscores and hyphens, by code point. */
  predicate PlainName(value: string)
  {
    forall i :: 0 <= i < |value| ==>
      var c := value[i] as int;
      48 <= c <= 57 || 65 <= c <= 90 || 97 <= c <= 122 || c == 95 || c == 45
  }

  /** Names and namespaces have 1 to 64 such characters, and namespaces no capitals. */
  lemma NameRules(e: Endpoint)
    ensures ValidNames(e) <==>
      && 1 <= |e.name| <= 64 && PlainName(e.name)
      && 1 <= |e.ns| <= 64 && PlainName(e.ns) && (forall i :: 0 <= i < |e.ns| ==> !('A' <= e.ns[i] <= 'Z'))
      && IsVersion(e.version)
  {
    hide IsVersion;
  }

  // ---------- Paths ----------

  function Path(e: Endpoint): string
  {
    "/" + e.ns + "/" + e.name + "/v" + e.version
  }

  predicate SlashFree(s: string)
  {
    forall i :: 0 <= i < |s| ==> s[i] != '/'
  }

  lemma SlashSplits(a: string, x: string, b: string, y: string)
    requires SlashFree(a) && SlashFree(b) && a + "/" + x == b + "/" + y
    ensures a == b && x == y
  {
    var s := a + "/" + x;
    assert s[|a|] == '/' && (b + "/" + y)[|b|] == '/';
    assert |a| == |b|;
    assert s[..|a|] == a && (b + "/" + y)[..|b|] == b;
    assert s[|a| + 1..] == x && (b + "/" + y)[|b| + 1..] == y;
  }

  lemma PathParts(e: Endpoint)
    ensures Path(e)[1..] == e.ns + "/" + (e.name + "/" + ("v" + e.version))
  {
  }

  /** Distinct endpoints have distinct paths. */
  lemma PathIsInjective(a: Endpoint, b: Endpoint)
    requires ValidNames(a) && ValidNames(b) && Path(a) == Path(b)
    ensures KeyOf(a) == KeyOf(b)
  {
    hide IsVersion;
    var x, y := a.name + "/" + ("v" + a.version), b.name + "/" + ("v" + b.version);
    PathParts(a);
    PathParts(b);
    SlashSplits(a.ns, x, b.ns, y);
    SlashSplits(a.name, "v" + a.version, b.name, "v" + b.version);
    assert a.version == ("v" + a.version)[1..] && b.version == ("v" + b.version)[1..];
  }

  // ---------- Canonical order ----------

  /** Byte-wise lexicographic order of strings. */
  predicate LexLess(a: string, b: string)
  {
    if b == "" then false
    else if a == "" then true
    else if a[0] != b[0] then a[0] < b[0]
    else LexLess(a[1..], b[1..])
  }

  lemma {:induction false} LexTotal(a: string, b: string)
    ensures LexLess(a, b) || LexLess(b, a) <==> a != b
    ensures !(LexLess(a, b) && LexLess(b, a))
  {
    if a != "" && b != "" && a[0] == b[0] {
      LexTotal(a[1..], b[1..]);
      assert a == [a[0]] + a[1..] && b == [b[0]] + b[1..];
    }
  }

  lemma {:induction false} LexTransitive(a: string, b: string, c: string)
    requires LexLess(a, b) && LexLess(b, c)
    ensures LexLess(a, c)
  {
    if a != "" && a[0] == b[0] && b[0] == c[0] {
      LexTransitive(a[1..], b[1..], c[1..]);
    }
  }

  /** The strings agree before k, and there the first ends or has the smaller character. */
  predicate SmallerAt(a: string, b: string, k: nat)
  {
    && k < |b| && k <= |a| && a[..k] == b[..k]
    && (k == |a| || a[k] < b[k])
  }

  /** The order is decided by the first position at which the strings differ. */
  lemma {:induction false} LexMeans(a: string, b: string)
    ensures LexLess(a, b) <==> exists k: nat :: SmallerAt(a, b, k)
  {
    if a != "" && b != "" && a[0] == b[0] {
      LexMeans(a[1..], b[1..]);
      if LexLess(a, b) {
        var k: nat :| SmallerAt(a[1..], b[1..], k);
        SmallerAtTail(a, b, k);
      } else {
        forall k: nat ensures !SmallerAt(a, b, k) {
          if k > 0 {
            SmallerAtTail(a, b, k - 1);
          }
        }
      }
    } else if LexLess(a, b) {
      assert SmallerAt(a, b, 0);
    } else {
      forall k: nat | 0 < k <= |a| && k <= |b| ensures a[..k] != b[..k] {
        assert a[..k][0] == a[0] && b[..k][0] == b[0];
      }
    }
  }

  lemma SmallerAtTail(a: string, b: string, k: nat)
    requires a != "" && b != "" && a[0] == b[0]
    ensures SmallerAt(a, b, k + 1) <==> SmallerAt(a[1..], b[1..], k)
  {
    if k < |b| - 1 && k <= |a| - 1 {
      assert a[..k + 1] == [a[0]] + a[1..][..k] && b[..k + 1] == [b[0]] + b[1..][..k];
      assert a[1..][..k] == a[..k + 1][1..] && b[1..][..k] == b[..k + 1][1..];
    }
  }

  /** Endpoints are arranged by namespace, then name, then version, each by the first position of a difference. */
  lemma KeyOrderMeans(a: Endpoint, b: Endpoint)
    ensures KeyLess(KeyOf(a), KeyOf(b)) <==>
      || (exists k: nat :: SmallerAt(a.ns, b.ns, k))
      || (a.ns == b.ns && exists k: nat :: SmallerAt(a.name, b.name, k))
      || (a.ns == b.ns && a.name == b.name && exists k: nat :: SmallerAt(a.version, b.version, k))
  {
    hide LexLess, SmallerAt;
    LexMeans(a.ns, b.ns);
    LexMeans(a.name, b.name);
    LexMeans(a.version, b.version);
    LexTotal(a.ns, b.ns);
    LexTotal(a.name, b.name);
  }

  /** Namespace first, then name, then version. */
  predicate KeyLess(a: Key, b: Key)
  {
    if a.ns != b.ns then LexLess(a.ns, b.ns)
    else if a.name != b.name then LexLess(a.name, b.name)
    else LexLess(a.version, b.version)
  }

  lemma KeyTotal(a: Key, b: Key)
    ensures KeyLess(a, b) || KeyLess(b, a) <==> a != b
    ensures !(KeyLess(a, b) && KeyLess(b, a))
  {
    hide LexLess;
    LexTotal(a.ns, b.ns);
    LexTotal(a.name, b.name);
    LexTotal(a.version, b.version);
  }

  lemma KeyTransitive(a: Key, b: Key, c: Key)
    requires KeyLess(a, b) && KeyLess(b, c)
    ensures KeyLess(a, c)
  {
    hide LexLess;
    LexTotal(a.ns, b.ns);
    LexTotal(a.name, b.name);
    if a.ns != b.ns && b.ns != c.ns {
      LexTransitive(a.ns, b.ns, c.ns);
      LexTotal(a.ns, c.ns);
    } else if a.ns == b.ns == c.ns {
      if a.name != b.name && b.name != c.name {
        LexTransitive(a.name, b.name, c.name);
        LexTotal(a.name, c.name);
      } else if a.name == b.name == c.name {
        LexTransitive(a.version, b.version, c.version);
      }
    }
  }

  predicate NotAfter(a: Endpoint, b: Endpoint)
  {
    !KeyLess(KeyOf(b), KeyOf(a))
  }

  lemma NotAfterTransitive(a: Endpoint, b: Endpoint, c: Endpoint)
    requires NotAfter(a, b) && NotAfter(b, c)
    ensures NotAfter(a, c)
  {
    hide KeyLess;
    KeyTotal(KeyOf(a), KeyOf(b));
    KeyTotal(KeyOf(b), KeyOf(c));
    KeyTotal(KeyOf(a), KeyOf(c));
    if KeyOf(a) != KeyOf(b) && KeyOf(b) != KeyOf(c) {
      KeyTransitive(KeyOf(a), KeyOf(b), KeyOf(c));
    }
  }

  predicate Ordered(es: seq<Endpoint>)
  {
    forall i, j :: 0 <= i < j < |es| ==> NotAfter(es[i], es[j])
  }

  predicate DistinctKeys(es: seq<Endpoint>)
  {
    forall i, j :: 0 <= i < j < |es| ==> KeyOf(es[i]) != KeyOf(es[j])
  }

  function Insert(e: Endpoint, es: seq<Endpoint>): (r: seq<Endpoint>)
    ensures |r| == |es| + 1
  {
    if es == [] || KeyLess(KeyOf(e), KeyOf(es[0])) then [e] + es else [es[0]] + Insert(e, es[1..])
  }

  lemma {:induction false} InsertKeepsElements(e: Endpoint, es: seq<Endpoint>)
    ensures multiset(Insert(e, es)) == multiset(es) + multiset{e}
  {
    if es != [] && !KeyLess(KeyOf(e), KeyOf(es[0])) {
      InsertKeepsElements(e, es[1..]);
      assert es == [es[0]] + es[1..];
    }
  }

  lemma {:induction false} InsertKeepsOrder(e: Endpoint, es: seq<Endpoint>)
    requires Ordered(es)
    ensures Ordered(Insert(e, es))
  {
    hide NotAfter;
    if es == [] {
    } else if KeyLess(KeyOf(e), KeyOf(es[0])) {
      assert NotAfter(e, es[0]) by { KeyTotal(KeyOf(e), KeyOf(es[0])); LessIsNotAfter(e, es[0]); }
      forall j | 0 <= j < |es| ensures NotAfter(e, es[j]) {
        if j > 0 {
          NotAfterTransitive(e, es[0], es[j]);
        }
      }
      OrderedCons(e, es);
    } else {
      var rest := Insert(e, es[1..]);
      InsertKeepsOrder(e, es[1..]);
      InsertKeepsElements(e, es[1..]);
      forall j | 0 <= j < |rest| ensures NotAfter(es[0], rest[j]) {
        assert rest[j] in multiset(rest);
        if rest[j] == e {
          LessIsNotAfter(e, es[0]);
        } else {
          assert rest[j] in es[1..];
          var k :| 0 <= k < |es[1..]| && es[1..][k] == rest[j];
          assert NotAfter(es[0], es[k + 1]);
        }
      }
      OrderedCons(es[0], rest);
    }
  }

  lemma LessIsNotAfter(a: Endpoint, b: Endpoint)
    ensures KeyLess(KeyOf(a), KeyOf(b)) ==> NotAfter(a, b)
    ensures !KeyLess(KeyOf(a), KeyOf(b)) ==> NotAfter(b, a)
  {
    hide KeyLess;
    KeyTotal(KeyOf(a), KeyOf(b));
  }

  lemma OrderedCons(e: Endpoint, es: seq<Endpoint>)
    requires Ordered(es) && forall j :: 0 <= j < |es| ==> NotAfter(e, es[j])
    ensures Ordered([e] + es)
  {
    hide NotAfter;
    var r := [e] + es;
    forall i, j | 0 <= i < j < |r| ensures NotAfter(r[i], r[j]) {
      assert r[j] == es[j - 1];
    }
  }

  predicate Arrangement(arranged: seq<Endpoint>, endpoints: seq<Endpoint>)
  {
    Ordered(arranged) && multiset(arranged) == multiset(endpoints)
  }

  /** One arrangement in canonical order; OneArrangement says when it is the only one. */
  function Sorted(endpoints: seq<Endpoint>): (r: seq<Endpoint>)
    ensures |r| == |endpoints|
  {
    if endpoints == [] then []
    else Insert(endpoints[|endpoints| - 1], Sorted(endpoints[..|endpoints| - 1]))
  }

  lemma {:induction false} SortedArranges(endpoints: seq<Endpoint>)
    ensures Arrangement(Sorted(endpoints), endpoints)
  {
    hide Insert, NotAfter;
    if endpoints != [] {
      var n := |endpoints| - 1;
      SortedArranges(endpoints[..n]);
      InsertKeepsOrder(endpoints[n], Sorted(endpoints[..n]));
      InsertKeepsElements(endpoints[n], Sorted(endpoints[..n]));
      assert endpoints == endpoints[..n] + [endpoints[n]];
    }
  }

  /** The library sort is represented by inserting one endpoint at a time; only its contract is relied on. */
  method SortEndpoints(endpoints: seq<Endpoint>) returns (sorted: seq<Endpoint>)
    ensures Arrangement(sorted, endpoints)
  {
    hide Insert, NotAfter;
    sorted := [];
    for i := 0 to |endpoints|
      invariant Arrangement(sorted, endpoints[..i])
    {
      InsertKeepsOrder(endpoints[i], sorted);
      InsertKeepsElements(endpoints[i], sorted);
      assert endpoints[..i + 1] == endpoints[..i] + [endpoints[i]];
      sorted := Insert(endpoints[i], sorted);
    }
    assert endpoints[..|endpoints|] == endpoints;
  }

  lemma LeadsAll(a: seq<Endpoint>, b: seq<Endpoint>) returns (k: nat)
    requires multiset(a) == multiset(b) && Ordered(a) && a != [] && b != []
    ensures k < |a| && a[k] == b[0] && (k == 0 || NotAfter(a[0], b[0]))
  {
    hide NotAfter;
    assert b[0] in multiset(a);
    k :| 0 <= k < |a| && a[k] == b[0];
  }

  lemma SameLeader(a: seq<Endpoint>, b: seq<Endpoint>)
    requires multiset(a) == multiset(b) && Ordered(a) && Ordered(b) && DistinctKeys(a) && a != [] && b != []
    ensures a[0] == b[0]
  {
    hide NotAfter;
    var k := LeadsAll(a, b);
    var m := LeadsAll(b, a);
    if k > 0 && m > 0 {
      BothNotAfter(a[0], b[0]);
    }
  }

  /** Without duplicate keys there is only one sorted arrangement, whichever algorithm sorts. */
  lemma {:induction false} OneArrangement(a: seq<Endpoint>, b: seq<Endpoint>)
    requires multiset(a) == multiset(b) && Ordered(a) && Ordered(b) && DistinctKeys(a)
    ensures a == b
  {
    hide NotAfter, KeyOf;
    assert |a| == |multiset(a)| == |multiset(b)| == |b|;
    if a != [] {
      SameLeader(a, b);
      LessItsFirst(a);
      LessItsFirst(b);
      OneArrangement(a[1..], b[1..]);
      assert a == [a[0]] + a[1..] && b == [b[0]] + b[1..];
    }
  }

  lemma LessItsFirst(a: seq<Endpoint>)
    requires a != []
    ensures multiset(a[1..]) == multiset(a) - multiset{a[0]}
  {
    assert a == [a[0]] + a[1..];
  }

  lemma BothNotAfter(a: Endpoint, b: Endpoint)
    requires NotAfter(a, b) && NotAfter(b, a)
    ensures KeyOf(a) == KeyOf(b)
  {
    hide KeyLess;
    KeyTotal(KeyOf(a), KeyOf(b));
  }

  lemma {:induction false} TwiceMeansTwo(es: seq<Endpoint>, x: Endpoint) returns (i: nat, j: nat)
    requires multiset(es)[x] >= 2
    ensures i < j < |es| && es[i] == x && es[j] == x
  {
    var n := |es| - 1;
    assert es == es[..n] + [es[n]];
    if es[n] == x {
      assert x in multiset(es[..n]);
      i :| 0 <= i < n && es[..n][i] == x;
      j := n;
    } else {
      i, j := TwiceMeansTwo(es[..n], x);
    }
  }

  /** Having distinct keys is a matter of the endpoints, not of their arrangement. */
  lemma DistinctAnyway(a: seq<Endpoint>, b: seq<Endpoint>)
    requires multiset(a) == multiset(b) && DistinctKeys(a)
    ensures DistinctKeys(b)
  {
    forall i, j | 0 <= i < j < |b| ensures KeyOf(b[i]) != KeyOf(b[j]) {
      assert b[i] in multiset(a) && b[j] in multiset(a);
      if b[i] == b[j] {
        Twice(b, i, j);
        var k, l := TwiceMeansTwo(a, b[i]);
        assert false;
      } else {
        var k :| 0 <= k < |a| && a[k] == b[i];
        var l :| 0 <= l < |a| && a[l] == b[j];
        if k < l { assert KeyOf(a[k]) != KeyOf(a[l]); } else { assert KeyOf(a[l]) != KeyOf(a[k]); }
      }
    }
  }

  lemma Twice(es: seq<Endpoint>, i: nat, j: nat)
    requires i < j < |es| && es[i] == es[j]
    ensures multiset(es)[es[i]] >= 2
  {
    var x := es[i];
    assert es == es[..j] + [es[j]] + es[j + 1..];
    assert es[..j][i] == x && x in multiset(es[..j]);
  }

  // ---------- Annotations ----------

  /** The privacy annotations every emitter attaches; metadata-only is always set beside them. */
  datatype Notes = Notes(attribution: seq<string>, confidence: string, privacy: seq<string>)

  function NotesOf(e: Endpoint): Notes { Notes(e.attribution, e.confidence, e.privacy) }
}
