/**
 Concurrent set_policy calls. Each client's handler thread copies the policy under the engine's mutex, works
 out the new one without it, and stores the result under the mutex again; other threads may come in between.
 */
module PolicyUpdates {
  import opened Events
  import opened JsonValues
  import opened PolicyEngineModel
  import opened RedactorModel

  /** The two critical sections of one call. A rejected document never gets to the second. */
  datatype Update = Read(client: nat, doc: Json) | Write(client: nat)

  /** A call between its sections: the copy it took, how many writes there had been, and when that was. */
  datatype Pending = Pending(base: Policy, doc: Json, seen: nat, at: nat)

  /** A stored document and when its call had read. */
  datatype Stored = Stored(doc: Json, at: nat)

  datatype Shared = Shared(policy: Policy, pending: map<nat, Pending>, written: seq<Stored>, clock: nat)

  const START := Shared(DEFAULT, map[], [], 0)

  function Step(s: Shared, u: Update): Shared
  {
    var t := s.(clock := s.clock + 1);
    match u
    case Read(k, doc) =>
      if k in s.pending || !Acceptable(doc) then t
      else t.(pending := s.pending[k := Pending(s.policy, doc, |s.written|, s.clock)])
    case Write(k) =>
      if k !in s.pending then t
      else
        var p := s.pending[k];
        t.(policy := Updated(p.base, p.doc), pending := s.pending - {k}, written := s.written + [Stored(p.doc, p.at)])
  }

  function After(us: seq<Update>): Shared
  {
    if us == [] then START else Step(After(us[..|us| - 1]), us[|us| - 1])
  }

  // ---------- What no interleaving breaks ----------

  predicate AllSound(s: Shared)
  {
    Sound(s.policy) && forall k :: k in s.pending ==> Sound(s.pending[k].base)
  }

  lemma StepKeepsSound(s: Shared, u: Update)
    requires AllSound(s)
    ensures AllSound(Step(s, u))
  {
    hide Updated, Sound, Acceptable;
    if u.Write? && u.client in s.pending {
      UpdateKeepsSound(s.pending[u.client].base, s.pending[u.client].doc);
    }
  }

  /** However calls overlap, the policy in force and every copy taken of it keep their bounds and strip flags. */
  lemma {:induction false} EveryInterleavingIsSound(us: seq<Update>)
    ensures AllSound(After(us))
  {
    hide Sound;
    if us == [] {
      assert Sound(DEFAULT) by { ReachablePolicyIsSound([]); }
    } else {
      EveryInterleavingIsSound(us[..|us| - 1]);
      StepKeepsSound(After(us[..|us| - 1]), us[|us| - 1]);
    }
  }

  // ---------- When no accepted document is lost ----------

  function DocsOf(written: seq<Stored>): (docs: seq<Json>)
    ensures |docs| == |written|
  {
    seq(|written|, i requires 0 <= i < |written| => written[i].doc)
  }

  /** A write is stale when another came after its call's read. */
  predicate Stale(s: Shared, u: Update)
  {
    u.Write? && u.client in s.pending && s.pending[u.client].seen != |s.written|
  }

  predicate NoneStale(us: seq<Update>)
  {
    us == [] || (NoneStale(us[..|us| - 1]) && !Stale(After(us[..|us| - 1]), us[|us| - 1]))
  }

  /** The policy in force is what the stored documents give, one after the other. */
  predicate Serial(s: Shared)
  {
    s.policy == AfterDocs(DocsOf(s.written))
  }

  predicate CopiesSerial(s: Shared)
  {
    forall k :: k in s.pending ==>
      s.pending[k].seen <= |s.written| && s.pending[k].base == AfterDocs(DocsOf(s.written[..s.pending[k].seen]))
  }

  lemma OneMoreDoc(written: seq<Stored>, w: Stored)
    ensures AfterDocs(DocsOf(written + [w])) == Updated(AfterDocs(DocsOf(written)), w.doc)
  {
    hide Updated;
    assert DocsOf(written + [w])[..|written|] == DocsOf(written);
  }

  lemma SerialStep(s: Shared, u: Update)
    requires Serial(s) && CopiesSerial(s) && !Stale(s, u)
    ensures Serial(Step(s, u)) && CopiesSerial(Step(s, u))
  {
    hide Updated, Acceptable, AfterDocs, DocsOf;
    var s' := Step(s, u);
    assert s.written[..|s.written|] == s.written;
    if u.Write? && u.client in s.pending {
      var p := s.pending[u.client];
      OneMoreDoc(s.written, Stored(p.doc, p.at));
      forall k | k in s'.pending ensures s'.written[..s.pending[k].seen] == s.written[..s.pending[k].seen] {
      }
    }
  }

  /** Without stale writes overlapping calls act one after the other. */
  lemma {:induction false} NoneStaleIsSerial(us: seq<Update>)
    requires NoneStale(us)
    ensures Serial(After(us)) && CopiesSerial(After(us))
  {
    if us != [] {
      NoneStaleIsSerial(us[..|us| - 1]);
      hide Serial, CopiesSerial, Step, Stale;
      SerialStep(After(us[..|us| - 1]), us[|us| - 1]);
    }
  }

  // ---------- A stale write loses a document ----------

  const NOTHING := Object(map[])

  /** A policy as the defaults have it, but for the list of domains, which is empty or holds one. */
  predicate Plain(p: Policy) { p == DEFAULT || Listed(p) }

  predicate Listed(p: Policy) { p == ListingPolicy() }

  lemma TheTwoDocuments(p: Policy)
    requires Plain(p)
    ensures Acceptable(NOTHING) && Updated(p, NOTHING) == p
    ensures Acceptable(LISTING) && Updated(p, LISTING) == ListingPolicy() && DEFAULT != ListingPolicy()
  {
    assert Texts([String("a.b")]) == ["a.b"];
    assert DEFAULT.sensitiveDomains != ListingPolicy().sensitiveDomains;
  }

  function DocAt(at: nat, r: nat): Json
  {
    if at == r then LISTING else NOTHING
  }

  /** The same calls in the same order; of the accepted documents one lists a domain and the rest change nothing. */
  function Mark(us: seq<Update>, r: nat): (vs: seq<Update>)
    ensures |vs| == |us|
  {
    seq(|us|, i requires 0 <= i < |us| =>
      if us[i].Read? && Acceptable(us[i].doc) then Read(us[i].client, DocAt(i, r)) else us[i])
  }

  /** Equal up to what the documents say. */
  predicate SameShape(a: Shared, b: Shared)
  {
    && a.pending.Keys == b.pending.Keys && |a.written| == |b.written| && a.clock == b.clock
    && (forall k :: k in a.pending ==> a.pending[k].seen == b.pending[k].seen && a.pending[k].at == b.pending[k].at)
    && (forall i :: 0 <= i < |a.written| ==> a.written[i].at == b.written[i].at)
  }

  predicate SameCall(u: Update, v: Update)
  {
    && u.client == v.client && u.Read? == v.Read?
    && (u.Read? ==> (Acceptable(u.doc) <==> Acceptable(v.doc)))
  }

  /** The same calls in the same order, with the same ones accepted. */
  predicate SameSchedule(us: seq<Update>, vs: seq<Update>)
  {
    |us| == |vs| && forall i :: 0 <= i < |us| ==> SameCall(us[i], vs[i])
  }

  lemma SameShapeStep(a: Shared, b: Shared, u: Update, v: Update)
    requires SameShape(a, b) && SameCall(u, v)
    ensures SameShape(Step(a, u), Step(b, v)) && (Stale(a, u) <==> Stale(b, v))
  {
    hide Updated, Acceptable;
  }

  lemma {:induction false} SameShapeRun(us: seq<Update>, vs: seq<Update>)
    requires SameSchedule(us, vs)
    ensures SameShape(After(us), After(vs)) && (NoneStale(us) <==> NoneStale(vs))
  {
    hide Step, Stale, SameCall;
    if us != [] {
      var n := |us| - 1;
      SameShapeRun(us[..n], vs[..n]);
      assert SameCall(us[n], vs[n]);
      SameShapeStep(After(us[..n]), After(vs[..n]), us[n], vs[n]);
    }
  }

  lemma MarkIsSame(us: seq<Update>, r: nat)
    ensures SameSchedule(us, Mark(us, r))
  {
    hide Acceptable;
    TheTwoDocuments(DEFAULT);
    forall i | 0 <= i < |us| ensures SameCall(us[i], Mark(us, r)[i]) {
    }
  }

  /** Calls are told apart by when they read. */
  predicate Distinct(s: Shared)
  {
    && (forall k :: k in s.pending ==> s.pending[k].at < s.clock && s.pending[k].seen <= |s.written|)
    && (forall i :: 0 <= i < |s.written| ==> s.written[i].at < s.clock)
    && (forall k, i :: k in s.pending && 0 <= i < |s.written| ==> s.pending[k].at != s.written[i].at)
    && (forall k, l :: k in s.pending && l in s.pending && k != l ==> s.pending[k].at != s.pending[l].at)
    && (forall i, j :: 0 <= i < j < |s.written| ==> s.written[i].at != s.written[j].at)
  }

  lemma DistinctRead(s: Shared, k: nat, doc: Json)
    requires Distinct(s)
    ensures Distinct(Step(s, Read(k, doc)))
  {
    hide Updated, Acceptable;
  }

  lemma DistinctWrite(s: Shared, k: nat)
    requires Distinct(s)
    ensures Distinct(Step(s, Write(k)))
  {
    hide Updated, Acceptable;
  }

  lemma {:induction false} RunDistinct(us: seq<Update>)
    ensures Distinct(After(us)) && After(us).clock == |us|
  {
    hide Updated, Acceptable;
    if us != [] {
      var s, u := After(us[..|us| - 1]), us[|us| - 1];
      RunDistinct(us[..|us| - 1]);
      hide Distinct;
      if u.Read? {
        DistinctRead(s, u.client, u.doc);
      } else {
        DistinctWrite(s, u.client);
      }
    }
  }

  /** In a marked run: who has which document, and the domain is listed only where the marked one was stored before. */
  predicate Marked(s: Shared, r: nat)
  {
    && Plain(s.policy) && (forall k :: k in s.pending ==> Plain(s.pending[k].base))
    && (forall k :: k in s.pending ==> s.pending[k].doc == DocAt(s.pending[k].at, r))
    && (forall i :: 0 <= i < |s.written| ==> s.written[i].doc == DocAt(s.written[i].at, r))
    && (Listed(s.policy) ==> exists i :: 0 <= i < |s.written| && s.written[i].at == r)
    && (forall k :: k in s.pending && Listed(s.pending[k].base) ==>
          exists i :: 0 <= i < |s.written| && i < s.pending[k].seen && s.written[i].at == r)
  }

  lemma MarkedRead(s: Shared, r: nat, k: nat, doc: Json)
    requires Marked(s, r) && Distinct(s) && (Acceptable(doc) ==> doc == DocAt(s.clock, r))
    ensures Marked(Step(s, Read(k, doc)), r)
  {
    hide Updated, Acceptable;
  }

  lemma MarkedWrite(s: Shared, r: nat, k: nat)
    requires Marked(s, r) && Distinct(s)
    ensures Marked(Step(s, Write(k)), r)
  {
    hide Updated, Acceptable;
    if k in s.pending {
      var p, s' := s.pending[k], Step(s, Write(k));
      TheTwoDocuments(p.base);
      forall i | 0 <= i < |s.written| ensures s'.written[i] == s.written[i] {
      }
      assert s'.written[|s.written|].at == p.at;
    }
  }

  lemma {:induction false} MarkedRun(us: seq<Update>, r: nat)
    ensures Marked(After(Mark(us, r)), r)
  {
    hide Marked, Step, Distinct;
    if us == [] {
      assert Marked(START, r) by { MarkedStart(r); }
    } else {
      var n := |us| - 1;
      MarkedRun(us[..n], r);
      assert Mark(us, r)[..n] == Mark(us[..n], r);
      RunDistinct(Mark(us[..n], r));
      var s := After(Mark(us[..n], r));
      if us[n].Read? {
        MarkedRead(s, r, us[n].client, Mark(us, r)[n].doc);
      } else {
        MarkedWrite(s, r, us[n].client);
      }
    }
  }

  lemma MarkedStart(r: nat)
    ensures Marked(START, r)
  {
  }

  lemma {:induction false} ListingStays(written: seq<Stored>, r: nat)
    requires forall j :: 0 <= j < |written| ==> written[j].doc == DocAt(written[j].at, r)
    ensures Plain(AfterDocs(DocsOf(written)))
    ensures (exists i :: 0 <= i < |written| && written[i].at == r) ==> Listed(AfterDocs(DocsOf(written)))
  {
    hide Updated, Acceptable;
    if written != [] {
      var n := |written| - 1;
      assert written == written[..n] + [written[n]];
      OneMoreDoc(written[..n], written[n]);
      ListingStays(written[..n], r);
      TheTwoDocuments(AfterDocs(DocsOf(written[..n])));
      if i :| 0 <= i < |written| && written[i].at == r {
        assert i == n || written[..n][i].at == r;
      }
    }
  }

  /** The domain is not listed, nor in any copy that could still be stored without being stale. */
  predicate Missed(s: Shared, r: nat)
  {
    && (exists i :: 0 <= i < |s.written| && s.written[i].at == r)
    && !Listed(s.policy)
    && (forall k :: k in s.pending && s.pending[k].seen == |s.written| ==> !Listed(s.pending[k].base))
  }

  lemma StaleMisses(s: Shared, r: nat, k: nat)
    requires Marked(s, r) && Distinct(s) && k in s.pending && s.pending[k].seen < |s.written|
    requires s.written[s.pending[k].seen].at == r
    ensures Missed(Step(s, Write(k)), r)
  {
    hide Updated, Acceptable;
    var p, s' := s.pending[k], Step(s, Write(k));
    assert !Listed(p.base);
    TheTwoDocuments(p.base);
    assert s'.written[p.seen].at == r;
  }

  lemma FreshStaysMissed(s: Shared, r: nat, u: Update)
    requires Marked(s, r) && Distinct(s) && Missed(s, r) && !Stale(s, u)
    ensures Missed(Step(s, u), r)
  {
    hide Updated, Acceptable;
    var s' := Step(s, u);
    var i :| 0 <= i < |s.written| && s.written[i].at == r;
    assert s'.written[i].at == r;
    if u.Write? && u.client in s.pending {
      TheTwoDocuments(s.pending[u.client].base);
    }
  }

  /** A schedule with a stale write has documents for which it loses one of them. */
  lemma {:induction false} StaleLoses(us: seq<Update>) returns (r: nat)
    requires !NoneStale(us)
    ensures Missed(After(Mark(us, r)), r)
  {
    hide Step, Stale, Missed, Marked, Distinct, SameShape, SameCall, Mark;
    var n := |us| - 1;
    var before := us[..n];
    if Stale(After(before), us[n]) {
      r := StaleMark(After(before), us[n]);
      MarkIsSame(before, r);
      SameShapeRun(before, Mark(before, r));
      MarkedRun(before, r);
      RunDistinct(Mark(before, r));
      MarkOfLast(us, r);
      StaleIsMissed(After(before), After(Mark(before, r)), us[n], r);
    } else {
      r := StaleLoses(before);
      MarkIsSame(us, r);
      SameShapeRun(before, Mark(before, r)) by { MarkIsSame(before, r); }
      MarkedRun(before, r);
      RunDistinct(Mark(before, r));
      MarkOfLast(us, r);
      assert SameCall(us[n], Mark(us, r)[n]);
      SameShapeStep(After(before), After(Mark(before, r)), us[n], Mark(us, r)[n]);
      FreshStaysMissed(After(Mark(before, r)), r, Mark(us, r)[n]);
    }
  }

  function StaleMark(s: Shared, u: Update): nat
    requires Stale(s, u)
  {
    var seen := s.pending[u.client].seen;
    if seen < |s.written| then s.written[seen].at else 0
  }

  lemma MarkOfLast(us: seq<Update>, r: nat)
    requires us != []
    ensures var n := |us| - 1;
      Mark(us, r)[..n] == Mark(us[..n], r) && (us[n].Write? ==> Mark(us, r)[n] == us[n])
  {
  }

  lemma StaleIsMissed(a: Shared, b: Shared, u: Update, r: nat)
    requires SameShape(a, b) && Stale(a, u) && r == StaleMark(a, u) && Marked(b, r) && Distinct(b)
    ensures u.Write? && Missed(Step(b, u), r)
  {
    hide Step, Marked, Missed;
    StaleMisses(b, r, u.client);
  }

  /**
   A schedule of overlapping calls stores every accepted document's effect, whatever the documents say, exactly
   when no call's write comes after another's that its copy does not hold.
   */
  lemma NothingLost(us: seq<Update>)
    ensures (forall vs :: SameSchedule(us, vs) ==> Serial(After(vs))) <==> NoneStale(us)
  {
    hide After, NoneStale, Serial, SameSchedule, Mark, DocAt;
    if NoneStale(us) {
      forall vs | SameSchedule(us, vs) ensures Serial(After(vs)) {
        SameShapeRun(us, vs);
        NoneStaleIsSerial(vs);
      }
    } else {
      var r := StaleLoses(us);
      MarkIsSame(us, r);
      MarkedRun(us, r);
      MissedIsNotSerial(After(Mark(us, r)), r);
    }
  }

  lemma MissedIsNotSerial(s: Shared, r: nat)
    requires Marked(s, r) && Missed(s, r)
    ensures !Serial(s)
  {
    hide AfterDocs, DocsOf;
    ListingStays(s.written, r);
  }

  const ENABLING := Object(map["persistence" := Object(map["enabled" := Bool(true)])])

  lemma TheEnabling(p: Policy)
    ensures Acceptable(ENABLING) && Updated(p, ENABLING) == p.(persistenceEnabled := true)
  {
  }

  /** Two accepted documents, and the sensitive domain of one of them gone. */
  lemma LosingRun()
    ensures var s := After([Read(0, LISTING), Read(1, ENABLING), Write(0), Write(1)]);
      && DocsOf(s.written) == [LISTING, ENABLING] && s.pending == map[]
      && s.policy.sensitiveDomains == [] && AfterDocs([LISTING, ENABLING]).sensitiveDomains == ["a.b"]
  {
    TheEnabling(DEFAULT);
    TheListing();
    TheTwoDocuments(DEFAULT);
    hide Updated, Acceptable;
    var r0, r1 := Read(0, LISTING), Read(1, ENABLING);
    var listed, enabled := DEFAULT.(sensitiveDomains := ["a.b"]), DEFAULT.(persistenceEnabled := true);
    var p0, p1 := Pending(DEFAULT, LISTING, 0, 0), Pending(DEFAULT, ENABLING, 0, 1);
    assert After([r0]) == Shared(DEFAULT, map[0 := p0], [], 1) by { OneMore([], r0); }
    assert After([r0, r1]) == Shared(DEFAULT, map[0 := p0, 1 := p1], [], 2) by { OneMore([r0], r1); }
    assert After([r0, r1, Write(0)]) == Shared(listed, map[1 := p1], [Stored(LISTING, 0)], 3) by {
      OneMore([r0, r1], Write(0));
      assert [r0, r1] + [Write(0)] == [r0, r1, Write(0)];
      assert [] + [Stored(LISTING, 0)] == [Stored(LISTING, 0)];
      assert map[0 := p0, 1 := p1] - {0} == map[1 := p1];
    }
    assert After([r0, r1, Write(0), Write(1)]) ==
      Shared(enabled, map[], [Stored(LISTING, 0), Stored(ENABLING, 1)], 4) by {
      OneMore([r0, r1, Write(0)], Write(1));
      assert [r0, r1, Write(0)] + [Write(1)] == [r0, r1, Write(0), Write(1)];
      assert [Stored(LISTING, 0)] + [Stored(ENABLING, 1)] == [Stored(LISTING, 0), Stored(ENABLING, 1)];
      assert map[1 := p1] - {1} == map[];
    }
    TheEnabling(listed);
    assert [LISTING, ENABLING][..1] == [LISTING] && [LISTING][..0] == [];
    assert AfterDocs([]) == DEFAULT && AfterDocs([LISTING]) == Updated(DEFAULT, LISTING);
  }

  lemma OneMore(us: seq<Update>, u: Update)
    ensures After(us + [u]) == Step(After(us), u)
  {
    assert (us + [u])[..|us|] == us;
  }

  // ---------- When the policy stays what it was ----------

  predicate Stores(s: Shared, u: Update)
  {
    u.Write? && u.client in s.pending
  }

  /** After some steps, no further one stores a policy. */
  predicate Quiet(us: seq<Update>, more: seq<Update>)
  {
    more == [] ||
    (Quiet(us, more[..|more| - 1]) && !Stores(After(us + more[..|more| - 1]), more[|more| - 1]))
  }

  lemma AfterMore(us: seq<Update>, more: seq<Update>)
    requires more != []
    ensures var n := |more| - 1;
      After(us + more) == Step(After(us + more[..n]), more[n])
  {
    hide Step, After;
    var n := |more| - 1;
    assert us + more == us + more[..n] + [more[n]];
    OneMore(us + more[..n], more[n]);
  }

  lemma {:induction false} QuietKeepsPolicy(us: seq<Update>, more: seq<Update>)
    requires Quiet(us, more)
    ensures After(us + more).policy == After(us).policy
  {
    hide Updated, Acceptable, After;
    if more == [] {
      assert us + more == us;
    } else {
      QuietKeepsPolicy(us, more[..|more| - 1]);
      AfterMore(us, more);
    }
  }

  /** Whether a policy is stored does not depend on what the documents say. */
  lemma {:induction false} QuietIsScheduled(us: seq<Update>, more: seq<Update>, vs: seq<Update>, rest: seq<Update>)
    requires SameSchedule(us, vs) && SameSchedule(more, rest) && Quiet(us, more)
    ensures Quiet(vs, rest)
  {
    hide After, SameCall;
    if more != [] {
      var n := |more| - 1;
      QuietIsScheduled(us, more[..n], vs, rest[..n]);
      JoinSchedules(us, more[..n], vs, rest[..n]);
      SameShapeRun(us + more[..n], vs + rest[..n]);
      assert Stores(After(us + more[..n]), more[n]) <==> Stores(After(vs + rest[..n]), rest[n]) by {
        assert SameCall(more[n], rest[n]);
        SameStores(After(us + more[..n]), After(vs + rest[..n]), more[n], rest[n]);
      }
    }
  }

  lemma SameStores(a: Shared, b: Shared, u: Update, v: Update)
    requires SameShape(a, b) && SameCall(u, v)
    ensures Stores(a, u) <==> Stores(b, v)
  {
    hide Acceptable;
  }

  lemma JoinSchedules(us: seq<Update>, more: seq<Update>, vs: seq<Update>, rest: seq<Update>)
    requires SameSchedule(us, vs) && SameSchedule(more, rest)
    ensures SameSchedule(us + more, vs + rest)
  {
    hide SameCall;
    forall i | 0 <= i < |us + more| ensures SameCall((us + more)[i], (vs + rest)[i]) {
      if i >= |us| {
        assert (us + more)[i] == more[i - |us|] && (vs + rest)[i] == rest[i - |us|];
      }
    }
  }

  lemma MarkPrefix(us: seq<Update>, more: seq<Update>, r: nat)
    ensures Mark(us + more, r)[..|us|] == Mark(us, r)
  {
    hide Acceptable, DocAt;
  }

  lemma {:induction false} WrittenGrows(us: seq<Update>, more: seq<Update>)
    ensures After(us).written <= After(us + more).written
  {
    hide Updated, Acceptable, After;
    if more == [] {
      assert us + more == us;
    } else {
      WrittenGrows(us, more[..|more| - 1]);
      AfterMore(us, more);
    }
  }

  /** Where a policy is stored after some steps, documents exist for which it is another one than before. */
  lemma {:induction false} NoisyChanges(us: seq<Update>, more: seq<Update>) returns (r: nat)
    requires !Quiet(us, more)
    ensures After(Mark(us, r)).policy == DEFAULT && After(Mark(us + more, r)).policy == ListingPolicy()
  {
    hide After, Mark, Marked, Distinct, Stores, Step;
    var n := |more| - 1;
    var before, u := us + more[..n], more[n];
    assert us + more == before + [u];
    if Stores(After(before), u) {
      r := StoredMark(After(before), u);
      StoringLists(before, u, r);
      NotYetListed(us, more[..n], r);
    } else {
      r := NoisyChanges(us, more[..n]);
      MarkIsSame(before + [u], r);
      MarkedMore(before, u, r);
      SameShapeRun(before, Mark(before, r)) by { MarkIsSame(before, r); }
      assert SameCall(u, Mark(before + [u], r)[|before|]);
      SameStores(After(before), After(Mark(before, r)), u, Mark(before + [u], r)[|before|]);
      NoStoreNoChange(After(Mark(before, r)), Mark(before + [u], r)[|before|]);
    }
  }

  function StoredMark(s: Shared, u: Update): nat
    requires Stores(s, u)
  {
    s.pending[u.client].at
  }

  lemma NoStoreNoChange(s: Shared, u: Update)
    requires !Stores(s, u)
    ensures Step(s, u).policy == s.policy
  {
    hide Acceptable;
  }

  lemma MarkedMore(before: seq<Update>, u: Update, r: nat)
    ensures var v := Mark(before + [u], r)[|before|];
      && After(Mark(before + [u], r)) == Step(After(Mark(before, r)), v) && (u.Write? ==> v == u)
  {
    hide Step, Acceptable, DocAt;
    MarkPrefix(before, [u], r);
  }

  lemma StoringLists(before: seq<Update>, u: Update, r: nat)
    requires Stores(After(before), u) && r == StoredMark(After(before), u)
    ensures After(Mark(before + [u], r)).policy == ListingPolicy()
    ensures forall i :: 0 <= i < |After(Mark(before, r)).written| ==> After(Mark(before, r)).written[i].at != r
  {
    hide After, Mark, Updated, Acceptable;
    MarkIsSame(before, r);
    SameShapeRun(before, Mark(before, r));
    MarkedRun(before, r);
    RunDistinct(Mark(before, r));
    MarkedMore(before, u, r);
    var s := After(Mark(before, r));
    assert u.client in s.pending && s.pending[u.client].at == r;
    TheTwoDocuments(s.pending[u.client].base);
  }

  lemma NotYetListed(us: seq<Update>, more: seq<Update>, r: nat)
    requires forall i :: 0 <= i < |After(Mark(us + more, r)).written| ==> After(Mark(us + more, r)).written[i].at != r
    ensures After(Mark(us, r)).policy == DEFAULT
  {
    hide After, Mark;
    MarkedRun(us, r);
    MarkPrefix(us, more, r);
    var all := Mark(us + more, r);
    assert all == Mark(us, r) + all[|us|..];
    WrittenGrows(Mark(us, r), all[|us|..]);
    var s, t := After(Mark(us, r)), After(all);
    forall i | 0 <= i < |s.written| ensures s.written[i].at != r {
      assert s.written[i] == t.written[i];
    }
  }
}
