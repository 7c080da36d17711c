/**
 The keyed tables the spec emitters fill while they go through the sorted endpoints: schemas, messages,
 definitions. Entries of one name overwrite each other, so what a table holds is a matter of who comes last.
 */
module EndpointTable {
  import opened Specgen

  /** The table after all endpoints have put their entries, in order. */
  function Table<V>(es: seq<Endpoint>, entries: Endpoint -> map<string, V>): map<string, V>
  {
    if es == [] then map[]
    else Table(es[..|es| - 1], entries) + entries(es[|es| - 1])
  }

  lemma TableStep<V>(es: seq<Endpoint>, entries: Endpoint -> map<string, V>, i: nat)
    requires i < |es|
    ensures Table(es[..i + 1], entries) == Table(es[..i], entries) + entries(es[i])
  {
    assert es[..i + 1][..i] == es[..i];
  }

  lemma TableEnds<V>(es: seq<Endpoint>, entries: Endpoint -> map<string, V>)
    ensures Table(es[..0], entries) == map[] && Table(es[..|es|], entries) == Table(es, entries)
  {
    assert es[..|es|] == es;
  }

  lemma PutOne<V>(table: map<string, V>, name: string, value: V)
    ensures table + map[name := value] == table[name := value]
  {
  }

  lemma PutNothing<V>(table: map<string, V>)
    ensures table + map[] == table
  {
  }

  /** f puts an entry of this name and no endpoint that does is canonically later. */
  ghost predicate LastUnder<V>(es: seq<Endpoint>, entries: Endpoint -> map<string, V>, f: Endpoint, name: string)
  {
    && f in es && name in entries(f)
    && (forall g :: g in es && name in entries(g) ==> !KeyLess(KeyOf(f), KeyOf(g)))
  }

  lemma {:induction false} LastWins<V>(es: seq<Endpoint>, entries: Endpoint -> map<string, V>,
  f: Endpoint, name: string)
    requires Ordered(es) && DistinctKeys(es) && LastUnder(es, entries, f, name)
    ensures name in Table(es, entries) && Table(es, entries)[name] == entries(f)[name]
  {
    hide KeyLess;
    var n := |es| - 1;
    var before, e := es[..n], es[n];
    assert es == before + [e];
    if f in before {
      assert name !in entries(e) by {
        var i :| 0 <= i < n && before[i] == f;
        assert NotAfter(es[i], es[n]) && KeyOf(es[i]) != KeyOf(es[n]);
        KeyTotal(KeyOf(f), KeyOf(e));
      }
      LastWins(before, entries, f, name);
    }
  }

  /** Whoever puts an entry, someone puts it last. */
  lemma {:induction false} SomeoneIsLast<V>(es: seq<Endpoint>, entries: Endpoint -> map<string, V>,
  e: Endpoint, name: string)
    returns (f: Endpoint)
    requires Ordered(es) && e in es && name in entries(e)
    ensures LastUnder(es, entries, f, name)
  {
    hide KeyLess;
    var n := |es| - 1;
    var before, last := es[..n], es[n];
    assert es == before + [last];
    if name in entries(last) {
      f := last;
      forall g | g in es && name in entries(g) ensures !KeyLess(KeyOf(f), KeyOf(g)) {
        KeyTotal(KeyOf(f), KeyOf(g));
        var i :| 0 <= i < |es| && es[i] == g;
        assert i == n || NotAfter(es[i], es[n]);
      }
    } else {
      f := SomeoneIsLast(before, entries, e, name);
    }
  }

  /** The table keeps an endpoint's entry: the last entry of that name is the same. */
  ghost predicate Kept<V>(es: seq<Endpoint>, entries: Endpoint -> map<string, V>, e: Endpoint, name: string)
    requires name in entries(e)
  {
    forall f :: LastUnder(es, entries, f, name) ==> entries(f)[name] == entries(e)[name]
  }

  /** An endpoint finds its own entry in the table exactly when the canonically last entry of that name equals it. */
  lemma FindsOwnEntry<V>(es: seq<Endpoint>, entries: Endpoint -> map<string, V>, e: Endpoint, name: string)
    requires Ordered(es) && DistinctKeys(es) && e in es && name in entries(e)
    ensures name in Table(es, entries)
    ensures Table(es, entries)[name] == entries(e)[name] <==> Kept(es, entries, e, name)
  {
    hide Ordered, DistinctKeys;
    var f := SomeoneIsLast(es, entries, e, name);
    LastWins(es, entries, f, name);
    forall g | LastUnder(es, entries, g, name) ensures entries(g)[name] == Table(es, entries)[name] {
      LastWins(es, entries, g, name);
    }
  }

  /** Which entry is last does not depend on how the endpoints are listed. */
  lemma KeptAnyway<V>(a: seq<Endpoint>, b: seq<Endpoint>, entries: Endpoint -> map<string, V>,
  e: Endpoint, name: string)
    requires multiset(a) == multiset(b) && name in entries(e)
    ensures Kept(a, entries, e, name) <==> Kept(b, entries, e, name)
  {
    hide KeyLess, KeyOf;
    forall g: Endpoint ensures g in a <==> g in b {
      assert g in a <==> g in multiset(a);
      assert g in b <==> g in multiset(b);
    }
    forall f: Endpoint ensures LastUnder(a, entries, f, name) <==> LastUnder(b, entries, f, name) {
    }
  }

  /** Two endpoints with different entries of one name: the table loses one of them. */
  lemma OneIsLost<V>(es: seq<Endpoint>, entries: Endpoint -> map<string, V>, e: Endpoint, f: Endpoint, name: string)
    requires Ordered(es) && e in es && name in entries(e) && name in entries(f) && entries(e)[name] != entries(f)[name]
    ensures !(Kept(es, entries, e, name) && Kept(es, entries, f, name))
  {
    hide Ordered;
    var last := SomeoneIsLast(es, entries, e, name);
  }

  lemma {:induction false} EntryHasOwner<V>(es: seq<Endpoint>, entries: Endpoint -> map<string, V>, name: string)
    requires name in Table(es, entries)
    ensures exists e :: e in es && name in entries(e)
  {
    var n := |es| - 1;
    if name !in entries(es[n]) {
      EntryHasOwner(es[..n], entries, name);
      var e :| e in es[..n] && name in entries(e);
      assert e in es;
    } else {
      assert es[n] in es;
    }
  }
}
