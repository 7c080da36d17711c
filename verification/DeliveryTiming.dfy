/**
 Between applying the policy to an event and broadcasting it the daemon holds no lock, so another policy may be
 stored in between. When does a broadcast obey the policy in force at that moment?
 */
module DeliveryTiming {
  import opened Common
  import opened Events
  import opened CorrelatorModel
  import opened RedactorModel
  import opened PolicyEngineModel
  import opened DaemonModel
  import Updates = PolicyUpdates

  // ---------- Runs that differ in documents and names only ----------

  predicate SameStep(a: Step, b: Step)
  {
    match a
    case Look(c, e) => b.Look? && b.capture == c && b.event == e.(network := b.event.network)
    case PolicyStep(u) => b.PolicyStep? && Updates.SameCall(u, b.update)
    case _ => a == b
  }

  /** The same threads take the same steps; what documents say and which names events carry may differ. */
  predicate SameTimetable(run: seq<Step>, other: seq<Step>)
  {
    |run| == |other| && forall i :: 0 <= i < |run| ==> SameStep(run[i], other[i])
  }

  lemma {:induction false} SameUpdates(run: seq<Step>, other: seq<Step>)
    requires SameTimetable(run, other)
    ensures Updates.SameSchedule(UpdatesOf(run), UpdatesOf(other))
  {
    hide Updates.SameCall;
    if run != [] {
      var n := |run| - 1;
      SameUpdates(run[..n], other[..n]);
      assert SameStep(run[n], other[n]);
      if run[n].PolicyStep? {
        Updates.JoinSchedules(UpdatesOf(run[..n]), [run[n].update], UpdatesOf(other[..n]), [other[n].update]);
      }
    }
  }

  /** Captures of two such runs are at the same stages, with events alike in what decides their way. */
  predicate SameKind(x: Stage, y: Stage)
  {
    match x
    case Looked(e, _) => y.Looked? && y.event.privacy == e.privacy
    case Matched(e) => y.Matched? && y.event.privacy == e.privacy
    case Redacted(_) => y.Redacted?
    case Sent(_) => y.Sent?
  }

  predicate Alike(s: State, t: State)
  {
    s.captures.Keys == t.captures.Keys && forall c :: c in s.captures ==> SameKind(s.captures[c], t.captures[c])
  }

  lemma MatchingKeepsPrivacy(navs: seq<Observation>, stage: Stage)
    requires stage.Looked?
    ensures MatchedEvent(navs, stage).privacy == stage.event.privacy
    ensures MatchedEvent(navs, stage).network == stage.event.network
  {
    hide BestOf, Score;
  }

  lemma AlikeLook(config: Config, s: State, t: State, c: nat, e: Event, f: Event)
    requires Alike(s, t) && f == e.(network := f.network)
    ensures Alike(Next(config, s, Look(c, e)), Next(config, t, Look(c, f)))
  {
    hide FromBrowser;
  }

  lemma AlikeMatch(config: Config, s: State, t: State, c: nat, now: int)
    requires Alike(s, t)
    ensures Alike(Next(config, s, Match(c, now)), Next(config, t, Match(c, now)))
  {
    hide Pruned, MatchedEvent;
    if Waiting(s, c) {
      assert SameKind(s.captures[c], t.captures[c]);
      MatchingKeepsPrivacy(Pruned(s.navs, now), s.captures[c]);
      MatchingKeepsPrivacy(Pruned(t.navs, now), t.captures[c]);
    }
  }

  lemma AlikeApply(config: Config, s: State, t: State, c: nat)
    requires Alike(s, t)
    ensures Alike(Next(config, s, Apply(c)), Next(config, t, Apply(c)))
  {
    hide Applied;
    if c in s.captures {
      assert SameKind(s.captures[c], t.captures[c]);
    }
  }

  lemma AlikeBroadcast(config: Config, s: State, t: State, c: nat)
    requires Alike(s, t)
    ensures Alike(Next(config, s, Broadcast(c)), Next(config, t, Broadcast(c)))
  {
    if c in s.captures {
      assert SameKind(s.captures[c], t.captures[c]);
    }
  }

  lemma AlikeStore(config: Config, s: State, t: State, c: nat, takes: bool)
    requires Alike(s, t)
    ensures Alike(Next(config, s, Store(c, takes)), Next(config, t, Store(c, takes)))
  {
    if c in s.captures {
      assert SameKind(s.captures[c], t.captures[c]);
    }
  }

  lemma AlikeStep(config: Config, s: State, t: State, a: Step, b: Step)
    requires Alike(s, t) && SameStep(a, b)
    ensures Alike(Next(config, s, a), Next(config, t, b))
  {
    hide Applied, MatchedEvent, StageOf, Pruned, Recorded, Updates.Step, Updates.SameCall, SameKind;
    match a
    case Look(c, e) => AlikeLook(config, s, t, c, e, b.event);
    case Match(c, now) => AlikeMatch(config, s, t, c, now);
    case Apply(c) => AlikeApply(config, s, t, c);
    case Broadcast(c) => AlikeBroadcast(config, s, t, c);
    case Store(c, takes) => AlikeStore(config, s, t, c, takes);
    case _ =>
  }

  lemma {:induction false} AlikeRun(config: Config, run: seq<Step>, other: seq<Step>)
    requires SameTimetable(run, other)
    ensures Alike(Exec(config, run), Exec(config, other))
  {
    if run != [] {
      var n := |run| - 1;
      AlikeRun(config, run[..n], other[..n]);
      assert SameStep(run[n], other[n]);
      hide Alike, SameStep, Next;
      AlikeStep(config, Exec(config, run[..n]), Exec(config, other[..n]), run[n], other[n]);
    }
  }

  // ---------- The condition ----------

  /** After `run`, capture c is redacted, the steps `between` happen,
   and its broadcast shows the policy then in force. */
  predicate Obeys(config: Config, run: seq<Step>, between: seq<Step>, c: nat)
  {
    var s, t := Exec(config, run), Exec(config, run + [Apply(c)] + between);
    Ready(s, c) && s.captures[c].event.privacy.metadataOnly ==>
      Next(config, t, Broadcast(c)).broadcast == t.broadcast + [Applied(t.updates.policy, s.captures[c].event)]
  }

  function UpdateIn(step: Step): seq<Updates.Update>
  {
    if step.PolicyStep? then [step.update] else []
  }

  lemma UpdatesMore(run: seq<Step>, step: Step)
    ensures UpdatesOf(run + [step]) == UpdatesOf(run) + UpdateIn(step)
  {
    assert (run + [step])[..|run|] == run;
  }

  lemma {:induction false} UpdatesOfJoined(run: seq<Step>, more: seq<Step>)
    ensures UpdatesOf(run + more) == UpdatesOf(run) + UpdatesOf(more)
  {
    if more == [] {
      assert run + more == run;
    } else {
      hide UpdatesOf, UpdateIn;
      var n := |more| - 1;
      UpdatesOfJoined(run, more[..n]);
      assert run + more == run + more[..n] + [more[n]] && more == more[..n] + [more[n]];
      UpdatesMore(run + more[..n], more[n]);
      UpdatesMore(more[..n], more[n]);
    }
  }

  lemma UpdatesAround(run: seq<Step>, between: seq<Step>, c: nat)
    ensures UpdatesOf(run + [Apply(c)] + between) == UpdatesOf(run) + UpdatesOf(between)
  {
    hide UpdatesOf;
    UpdatesOfJoined(run + [Apply(c)], between);
    UpdatesMore(run, Apply(c));
  }

  /** What is broadcast was redacted under the policy at the redaction. */
  lemma BroadcastShows(config: Config, run: seq<Step>, between: seq<Step>, c: nat)
    requires config.hasServer && Elsewhere(between, c)
    requires Ready(Exec(config, run), c) && Exec(config, run).captures[c].event.privacy.metadataOnly
    ensures var s, t := Exec(config, run), Exec(config, run + [Apply(c)] + between);
      Next(config, t, Broadcast(c)).broadcast ==
      t.broadcast + [Applied(Updates.After(UpdatesOf(run)).policy, s.captures[c].event)]
    ensures Exec(config, run + [Apply(c)] + between).updates.policy ==
      Updates.After(UpdatesOf(run) + UpdatesOf(between)).policy
  {
    hide Exec, Applied, Updates.After, UpdatesOf, Elsewhere;
    StateFollows(config, run);
    StateFollows(config, run + [Apply(c)] + between);
    UpdatesAround(run, between, c);
    ApplyThenWait(config, run, between, c);
  }

  lemma QuietObeys(config: Config, run: seq<Step>, between: seq<Step>, c: nat)
    requires config.hasServer && Elsewhere(between, c) && Updates.Quiet(UpdatesOf(run), UpdatesOf(between))
    ensures Obeys(config, run, between, c)
  {
    hide Exec, Applied, Updates.After, Updates.Quiet, UpdatesOf, Elsewhere;
    if Ready(Exec(config, run), c) && Exec(config, run).captures[c].event.privacy.metadataOnly {
      BroadcastShows(config, run, between, c);
      Updates.QuietKeepsPolicy(UpdatesOf(run), UpdatesOf(between));
    }
  }

  // ---------- A run that does not ----------

  const NAME := "a.b"

  function Named(e: Event): Event
  {
    e.(network := Some(NetworkInfo("", 0, "", 0, NAME)))
  }

  function Renamed(step: Step): Step
  {
    if step.Look? then Look(step.capture, Named(step.event)) else step
  }

  /** The same steps, with other documents, and with events that all carry one name. */
  function Redo(run: seq<Step>, us: seq<Updates.Update>): (other: seq<Step>)
    requires |us| == |UpdatesOf(run)|
    ensures |other| == |run|
  {
    if run == [] then []
    else
      var n := |run| - 1;
      if run[n].PolicyStep? then Redo(run[..n], us[..|us| - 1]) + [PolicyStep(us[|us| - 1])]
      else Redo(run[..n], us) + [Renamed(run[n])]
  }

  lemma OneMoreSame(run: seq<Step>, other: seq<Step>, a: Step, b: Step)
    requires SameTimetable(run, other) && SameStep(a, b)
    ensures SameTimetable(run + [a], other + [b])
  {
    hide SameStep;
  }

  lemma LastCall(us: seq<Updates.Update>, u: Updates.Update, vs: seq<Updates.Update>)
    requires Updates.SameSchedule(us + [u], vs)
    ensures |vs| == |us| + 1 && Updates.SameSchedule(us, vs[..|us|]) && Updates.SameCall(u, vs[|us|])
    ensures vs == vs[..|us|] + [vs[|us|]]
  {
    hide Updates.SameCall;
    var all := us + [u];
    assert Updates.SameCall(all[|us|], vs[|us|]);
    forall i | 0 <= i < |us| ensures Updates.SameCall(us[i], vs[i]) {
      assert Updates.SameCall(all[i], vs[i]);
    }
  }

  lemma {:induction false} RedoIsSame(run: seq<Step>, us: seq<Updates.Update>)
    requires Updates.SameSchedule(UpdatesOf(run), us)
    ensures SameTimetable(run, Redo(run, us)) && UpdatesOf(Redo(run, us)) == us
  {
    if run != [] {
      var n := |run| - 1;
      var before, step := run[..n], run[n];
      assert run == before + [step];
      if step.PolicyStep? {
        var k := |us| - 1;
        assert Redo(run, us) == Redo(before, us[..k]) + [PolicyStep(us[k])];
        hide Updates.SameSchedule, Updates.SameCall, SameTimetable, UpdatesOf, Redo;
        UpdatesMore(before, step);
        LastCall(UpdatesOf(before), step.update, us);
        RedoIsSame(before, us[..k]);
        UpdatesMore(Redo(before, us[..k]), PolicyStep(us[k]));
        OneMoreSame(before, Redo(before, us[..k]), step, PolicyStep(us[k]));
      } else {
        assert Redo(run, us) == Redo(before, us) + [Renamed(step)];
        hide Updates.SameSchedule, Updates.SameCall, SameTimetable, UpdatesOf, Redo;
        UpdatesMore(before, step);
        RedoIsSame(before, us);
        UpdatesMore(Redo(before, us), Renamed(step));
        OneMoreSame(before, Redo(before, us), step, Renamed(step));
      }
    }
  }

  predicate CarriesName(e: Event)
  {
    e.network.Some? && e.network.value.dnsQueryName == NAME
  }

  predicate AllNamed(s: State)
  {
    forall c :: c in s.captures && (s.captures[c].Looked? || s.captures[c].Matched?) ==>
      CarriesName(s.captures[c].event)
  }

  lemma NamedStep(config: Config, s: State, step: Step)
    requires AllNamed(s) && (step.Look? ==> CarriesName(step.event))
    ensures AllNamed(Next(config, s, step))
  {
    hide Applied, MatchedEvent, Pruned, Recorded, Updates.Step, FromBrowser;
    if step.Match? && Waiting(s, step.capture) {
      MatchingKeepsPrivacy(Pruned(s.navs, step.now), s.captures[step.capture]);
    }
  }

  lemma {:induction false} NamedRun(config: Config, run: seq<Step>, us: seq<Updates.Update>)
    requires |us| == |UpdatesOf(run)|
    ensures AllNamed(Exec(config, Redo(run, us)))
  {
    hide Next;
    if run != [] {
      var n := |run| - 1;
      var other := Redo(run, us);
      if run[n].PolicyStep? {
        NamedRun(config, run[..n], us[..|us| - 1]);
        assert other[..n] == Redo(run[..n], us[..|us| - 1]);
      } else {
        NamedRun(config, run[..n], us);
        assert other[..n] == Redo(run[..n], us);
      }
      hide AllNamed;
      NamedStep(config, Exec(config, other[..n]), other[n]);
    }
  }

  lemma ListingShows(e: Event)
    requires CarriesName(e)
    ensures Applied(DEFAULT, e) != Applied(ListingPolicy(), e)
    ensures Applied(DEFAULT, e).network.value.dnsQueryName == NAME && Excluded(ListingPolicy(), NAME)
  {
    hide HostUnderDomain, Lower, RedactUrl, UrlKinds, DnsKinds;
    ListedMeans(NAME);
    UnderItself(NAME);
    assert !Excluded(DEFAULT, NAME);
  }

  lemma ElsewhereToo(steps: seq<Step>, other: seq<Step>, c: nat)
    requires SameTimetable(steps, other) && Elsewhere(steps, c)
    ensures Elsewhere(other, c)
  {
    hide Updates.SameCall;
    forall i | 0 <= i < |other| ensures !Touches(other[i], c) {
      assert SameStep(steps[i], other[i]) && !Touches(steps[i], c);
    }
  }

  lemma SplitMark(us: seq<Updates.Update>, more: seq<Updates.Update>, r: nat)
    ensures var marked := Updates.Mark(us + more, r);
      Updates.SameSchedule(us, marked[..|us|]) && Updates.SameSchedule(more, marked[|us|..])
  {
    hide Updates.Mark, Updates.SameCall;
    var all, marked := us + more, Updates.Mark(us + more, r);
    Updates.MarkIsSame(all, r);
    forall i | 0 <= i < |us| ensures Updates.SameCall(us[i], marked[..|us|][i]) {
      assert Updates.SameCall(all[i], marked[i]);
    }
    forall i | 0 <= i < |more| ensures Updates.SameCall(more[i], marked[|us|..][i]) {
      assert Updates.SameCall(all[|us| + i], marked[|us| + i]);
    }
  }

  lemma Disobedience(config: Config, run: seq<Step>, between: seq<Step>, c: nat)
    requires config.hasServer && Elsewhere(between, c)
    requires Ready(Exec(config, run), c) && Exec(config, run).captures[c].event.privacy.metadataOnly
    requires var e := Exec(config, run).captures[c].event;
      Applied(Updates.After(UpdatesOf(run)).policy, e) !=
      Applied(Updates.After(UpdatesOf(run) + UpdatesOf(between)).policy, e)
    ensures !Obeys(config, run, between, c)
  {
    hide Exec, Updates.After, UpdatesOf, Elsewhere, Applied;
    BroadcastShows(config, run, between, c);
    var s, t := Exec(config, run), Exec(config, run + [Apply(c)] + between);
    var e := s.captures[c].event;
    LastDiffers(t.broadcast, Applied(Updates.After(UpdatesOf(run)).policy, e), Applied(t.updates.policy, e));
  }

  lemma LastDiffers(events: seq<Event>, x: Event, y: Event)
    requires x != y
    ensures events + [x] != events + [y]
  {
    assert (events + [x])[|events|] == x && (events + [y])[|events|] == y;
  }

  /** When a policy is stored in between, documents and names exist for which the broadcast disobeys it. */
  lemma NoisyDisobeys(config: Config, run: seq<Step>, between: seq<Step>, c: nat)
    returns (other: seq<Step>, meanwhile: seq<Step>)
    requires config.hasServer && Elsewhere(between, c)
    requires Ready(Exec(config, run), c) && Exec(config, run).captures[c].event.privacy.metadataOnly
    requires !Updates.Quiet(UpdatesOf(run), UpdatesOf(between))
    ensures SameTimetable(run, other) && SameTimetable(between, meanwhile) && !Obeys(config, other, meanwhile, c)
  {
    hide Exec, Updates.After, Updates.Quiet, Updates.Mark, UpdatesOf, Elsewhere, Redo, Applied, SameTimetable;
    hide Updates.SameSchedule, CarriesName;
    var us, more := UpdatesOf(run), UpdatesOf(between);
    var r := Updates.NoisyChanges(us, more);
    var marked := Updates.Mark(us + more, r);
    SplitMark(us, more, r);
    Updates.MarkPrefix(us, more, r);
    assert marked == marked[..|us|] + marked[|us|..];
    other, meanwhile := Redo(run, marked[..|us|]), Redo(between, marked[|us|..]);
    RedoIsSame(run, marked[..|us|]);
    RedoIsSame(between, marked[|us|..]);
    ElsewhereToo(between, meanwhile, c);
    AlikeRun(config, run, other);
    assert SameKind(Exec(config, run).captures[c], Exec(config, other).captures[c]);
    NamedRun(config, run, marked[..|us|]);
    assert Ready(Exec(config, other), c) && CarriesName(Exec(config, other).captures[c].event);
    ListingShows(Exec(config, other).captures[c].event);
    Disobedience(config, other, meanwhile, c);
  }

  /**
   Whatever documents say and whatever names events carry, the broadcast of a redacted event obeys the policy in
   force at the broadcast, exactly when no policy is stored between its redaction and its broadcast.
   */
  lemma BroadcastObeysIff(config: Config, run: seq<Step>, between: seq<Step>, c: nat)
    requires config.hasServer && Elsewhere(between, c)
    requires Ready(Exec(config, run), c) && Exec(config, run).captures[c].event.privacy.metadataOnly
    ensures (forall other, meanwhile :: SameTimetable(run, other) && SameTimetable(between, meanwhile) ==>
               Obeys(config, other, meanwhile, c)) <==>
      Updates.Quiet(UpdatesOf(run), UpdatesOf(between))
  {
    hide Exec, Updates.Quiet, UpdatesOf, Elsewhere, SameTimetable, Obeys, Updates.SameSchedule;
    if Updates.Quiet(UpdatesOf(run), UpdatesOf(between)) {
      forall other, meanwhile | SameTimetable(run, other) && SameTimetable(between, meanwhile)
        ensures Obeys(config, other, meanwhile, c)
      {
        SameUpdates(run, other);
        SameUpdates(between, meanwhile);
        Updates.QuietIsScheduled(UpdatesOf(run), UpdatesOf(between), UpdatesOf(other), UpdatesOf(meanwhile));
        ElsewhereToo(between, meanwhile, c);
        QuietObeys(config, other, meanwhile, c);
      }
    } else {
      var other, meanwhile := NoisyDisobeys(config, run, between, c);
    }
  }

  // ---------- A late broadcast ----------

  const STORING := [PolicyStep(Updates.Read(0, LISTING)), PolicyStep(Updates.Write(0))]

  /** A capture during which, after its redaction, a document that lists a domain is stored. */
  function Late(e: Event, now: int): Passage { Passage(0, e, now, [], [], STORING) }

  lemma LateIsReady(config: Config, e: Event, now: int)
    ensures var s := Exec(config, Midway([], Late(e, now)));
      Ready(s, 0) && s.captures[0].event.privacy == e.privacy && s.captures[0].event.network == e.network
  {
    assert Exec(config, []) == INITIAL && Elsewhere([], 0);
    hide Exec, Correlated, Pruned, Retained, Ops, Pids, Elsewhere, Midway, Begun;
    CaptureMatches(config, [], Late(e, now));
    CorrelationKeepsPrivacy(Pruned(Retained(Ops(config, Begun([], Late(e, now)))), now), Pids([]), e);
  }

  lemma LateUpdates(e: Event, now: int)
    ensures UpdatesOf(Midway([], Late(e, now))) == []
    ensures UpdatesOf(STORING) == [Updates.Read(0, LISTING), Updates.Write(0)]
  {
    var a, b := PolicyStep(Updates.Read(0, LISTING)), PolicyStep(Updates.Write(0));
    assert UpdatesOf([]) == [];
    hide UpdatesOf;
    UpdatesMore([], Look(0, e));
    UpdatesMore([Look(0, e)], Match(0, now));
    assert [] + [Look(0, e)] == [Look(0, e)];
    assert Midway([], Late(e, now)) == [Look(0, e)] + [Match(0, now)];
    UpdatesMore([], a);
    UpdatesMore([a], b);
    assert [] + [a] == [a] && [a] + [b] == STORING;
  }

  lemma StoringLists()
    ensures Updates.After([]).policy == DEFAULT
    ensures Updates.After([Updates.Read(0, LISTING), Updates.Write(0)]).policy == ListingPolicy()
  {
    var a, b := Updates.Read(0, LISTING), Updates.Write(0);
    assert Updates.After([]) == Updates.START;
    hide Updated, PolicyEngineModel.Acceptable, AfterDocs, Updates.After;
    TheListing();
    Updates.OneMore([], a);
    Updates.OneMore([a], b);
    assert [] + [a] == [a] && [a] + [b] == [a, b];
  }

  /** A domain is listed while an event that names it is on its way out, and the name is broadcast after that. */
  lemma LateListing(config: Config, e: Event, now: int)
    requires config.hasServer && CarriesName(e) && e.privacy.metadataOnly
    ensures var listed := Exec(config, Cleared([], Late(e, now)));
      var sent := Next(config, listed, Broadcast(0));
      && Excluded(listed.updates.policy, NAME)
      && |sent.broadcast| == |listed.broadcast| + 1 && CarriesName(sent.broadcast[|listed.broadcast|])
  {
    hide Exec, Applied, Excluded, Updates.After, UpdatesOf, Midway, Next;
    var run := Midway([], Late(e, now));
    LateIsReady(config, e, now);
    LateUpdates(e, now);
    StoringLists();
    assert Elsewhere(STORING, 0);
    BroadcastShows(config, run, STORING, 0);
    var m := Exec(config, run).captures[0].event;
    ListingShows(m);
    NetworkStays(DEFAULT, m);
    assert [] + UpdatesOf(STORING) == UpdatesOf(STORING);
  }

  lemma NetworkStays(p: Policy, e: Event)
    requires e.network.Some?
    ensures Applied(p, e).network.Some?
  {
    hide RedactUrl, RedactDnsName, UrlKinds, DnsKinds;
  }
}
