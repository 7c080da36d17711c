/**
 The daemon's pipeline over every interleaving of its threads. A capture looks at the browser's processes, then at
 the recorded navigations, then at the policy, each under its own mutex, and is then broadcast and stored under none
 of them; navigations, process lists and policy updates come in between from other threads, and captures overlap.
 */
module DaemonModel {
  import opened Common
  import opened Events
  import opened JsonValues
  import opened CorrelatorModel
  import opened RedactorModel
  import opened PolicyEngineModel
  import Updates = PolicyUpdates

  /** Which of the two consumers a daemon was started with. */
  datatype Config = Config(hasServer: bool, hasStore: bool)

  /** How far a capture has come: process looked up, correlated, redacted, or broadcast. */
  datatype Stage =
    | Looked(event: Event, process: bool)
    | Matched(event: Event)
    | Redacted(event: Event)
    | Sent(event: Event)

  datatype State = State(
    navs: seq<Observation>, pids: seq<nat>, updates: Updates.Shared, captures: map<nat, Stage>,
    seen: nat, dropped: nat, published: nat, broadcast: seq<Event>, stored: seq<Event>,
    lostToPolicy: nat, lostToStore: nat)

  /** What one thread does without another coming in between. Storing carries what the store will answer. */
  datatype Step =
    | Look(capture: nat, event: Event)
    | Match(capture: nat, now: int)
    | Apply(capture: nat)
    | Broadcast(capture: nat)
    | Store(capture: nat, takes: bool)
    | Navigate(n: Observation)
    | Processes(pids: seq<nat>)
    | PolicyStep(update: Updates.Update)
    | Poll(serverDropped: nat)

  const INITIAL := State([], [], Updates.START, map[], 0, 0, 0, [], [], 0, 0)

  function StageOf(pids: seq<nat>, e: Event): Stage
  {
    if IsNetworkEvent(e) then Looked(e, FromBrowser(pids, e)) else Matched(e)
  }

  function MatchedEvent(navs: seq<Observation>, stage: Stage): Event
    requires stage.Looked?
  {
    Attributed(stage.event, stage.process, BestOf(navs, stage.event))
  }

  predicate Waiting(s: State, c: nat) { c in s.captures && s.captures[c].Looked? }

  predicate Ready(s: State, c: nat) { c in s.captures && s.captures[c].Matched? }

  predicate Clear(s: State, c: nat) { c in s.captures && s.captures[c].Redacted? }

  predicate Gone(s: State, c: nat) { c in s.captures && s.captures[c].Sent? }

  function Next(config: Config, s: State, step: Step): State
  {
    match step
    case Look(c, e) =>
      if c in s.captures then s
      else s.(seen := s.seen + 1, captures := s.captures[c := StageOf(s.pids, e)])
    case Match(c, now) =>
      if !Waiting(s, c) then s
      else
        var navs := Pruned(s.navs, now);
        s.(navs := navs, captures := s.captures[c := Matched(MatchedEvent(navs, s.captures[c]))])
    case Apply(c) =>
      if !Ready(s, c) then s
      else if !s.captures[c].event.privacy.metadataOnly then
        s.(captures := s.captures - {c}, dropped := s.dropped + 1, lostToPolicy := s.lostToPolicy + 1)
      else s.(captures := s.captures[c := Redacted(Applied(s.updates.policy, s.captures[c].event))])
    case Broadcast(c) =>
      if !Clear(s, c) then s
      else
        var e := s.captures[c].event;
        s.(captures := s.captures[c := Sent(e)],
           broadcast := if config.hasServer then s.broadcast + [e] else s.broadcast)
    case Store(c, takes) =>
      if !Gone(s, c) then s
      else
        var e, refused := s.captures[c].event, config.hasStore && !takes;
        s.(captures := s.captures - {c}, published := s.published + 1,
           stored := if config.hasStore && takes then s.stored + [e] else s.stored,
           dropped := if refused then s.dropped + 1 else s.dropped,
           lostToStore := if refused then s.lostToStore + 1 else s.lostToStore)
    case Navigate(n) => s.(navs := Recorded(s.navs, n))
    case Processes(pids) => s.(pids := pids)
    case PolicyStep(u) => s.(updates := Updates.Step(s.updates, u))
    case Poll(k) => if config.hasServer then s.(dropped := k) else s
  }

  function Exec(config: Config, run: seq<Step>): State
  {
    if run == [] then INITIAL else Next(config, Exec(config, run[..|run| - 1]), run[|run| - 1])
  }

  class Daemon {
    const config: Config
    const correlator: Correlator
    const engine: PolicyEngine
    var eventsSeen: nat
    var eventsDropped: nat
    var eventsPublished: nat
    /** What the server was given to broadcast and what the store took. */
    var broadcast: seq<Event>
    var stored: seq<Event>
    /** The locals of the threads between two critical sections. */
    var captures: map<nat, Stage>
    var drafts: map<nat, Policy>
    ghost var updates: Updates.Shared
    ghost var lostToPolicy: nat
    ghost var lostToStore: nat

    ghost predicate Valid()
      reads this, engine
    {
      && updates.policy == engine.policy && drafts.Keys == updates.pending.Keys
      && (forall k :: k in drafts ==> drafts[k] == Updated(updates.pending[k].base, updates.pending[k].doc))
    }

    ghost function Now(): State
      reads this, correlator
    {
      State(correlator.navigations, correlator.browserPids, updates, captures,
            eventsSeen, eventsDropped, eventsPublished, broadcast, stored, lostToPolicy, lostToStore)
    }

    constructor (config: Config)
      ensures this.config == config && fresh(correlator) && fresh(engine)
      ensures Valid() && Now() == INITIAL
    {
      this.config := config;
      correlator := new Correlator();
      engine := new PolicyEngine();
      eventsSeen, eventsDropped, eventsPublished, broadcast, stored := 0, 0, 0, [], [];
      captures, drafts, updates, lostToPolicy, lostToStore := map[], map[], Updates.START, 0, 0;
    }

    /** A whole capture that nothing overlaps. */
    method OnCaptureEvent(capture: nat, event: Event, now: int, storeTakes: bool)
      requires Valid() && capture !in captures
      modifies this, correlator
      ensures Valid()
      ensures var matched := Next(config, Next(config, old(Now()), Look(capture, event)), Match(capture, now));
        var sent := Next(config, Next(config, matched, Apply(capture)), Broadcast(capture));
        Now() == Next(config, sent, Store(capture, storeTakes))
    {
      hide Next;
      LookUp(capture, event);
      FindMatch(capture, now);
      ApplyPolicy(capture);
      BroadcastEvent(capture);
      StoreEvent(capture, storeTakes);
    }

    method LookUp(capture: nat, event: Event)
      requires Valid()
      modifies this
      ensures Valid() && Now() == Next(config, old(Now()), Look(capture, event))
    {
      if capture in captures {
        return;
      }
      eventsSeen := eventsSeen + 1;
      if event.eventType != Connection && event.eventType != Dns {
        captures := captures[capture := Matched(event)];
        return;
      }
      var processMatch := false;
      if event.process.Some? {
        processMatch := correlator.IsBrowserProcess(event.process.value.pid);
      }
      captures := captures[capture := Looked(event, processMatch)];
    }

    method FindMatch(capture: nat, now: int)
      requires Valid()
      modifies this, correlator
      ensures Valid() && Now() == Next(config, old(Now()), Match(capture, now))
    {
      hide Attributed, BestOf, Pruned;
      if capture !in captures || !captures[capture].Looked? {
        return;
      }
      correlator.PruneOld(now);
      var stage := captures[capture];
      var best := correlator.BestMatch(stage.event);
      var event := Correlator.Attribute(stage.event, stage.process, best);
      captures := captures[capture := Matched(event)];
    }

    method ApplyPolicy(capture: nat)
      requires Valid()
      modifies this
      ensures Valid() && Now() == Next(config, old(Now()), Apply(capture))
    {
      hide Applied;
      if capture !in captures || !captures[capture].Matched? {
        return;
      }
      var decision, out := engine.Apply(captures[capture].event);
      if decision == Drop {
        captures := captures - {capture};
        eventsDropped := eventsDropped + 1;
        lostToPolicy := lostToPolicy + 1;
        return;
      }
      captures := captures[capture := Redacted(out)];
    }

    method BroadcastEvent(capture: nat)
      requires Valid()
      modifies this
      ensures Valid() && Now() == Next(config, old(Now()), Broadcast(capture))
    {
      if capture !in captures || !captures[capture].Redacted? {
        return;
      }
      var out := captures[capture].event;
      if config.hasServer {
        broadcast := broadcast + [out];
      }
      captures := captures[capture := Sent(out)];
    }

    method StoreEvent(capture: nat, storeTakes: bool)
      requires Valid()
      modifies this
      ensures Valid() && Now() == Next(config, old(Now()), Store(capture, storeTakes))
    {
      if capture !in captures || !captures[capture].Sent? {
        return;
      }
      var out := captures[capture].event;
      captures := captures - {capture};
      if config.hasStore {
        if storeTakes {
          stored := stored + [out];
        } else {
          eventsDropped := eventsDropped + 1;
          lostToStore := lostToStore + 1;
        }
      }
      eventsPublished := eventsPublished + 1;
    }

    method RecordNavigation(n: Observation)
      requires Valid()
      modifies correlator
      ensures Valid() && Now() == Next(config, old(Now()), Navigate(n))
    {
      correlator.RecordNavigation(n);
    }

    method SetBrowserProcesses(pids: seq<nat>)
      requires Valid()
      modifies correlator
      ensures Valid() && Now() == Next(config, old(Now()), Processes(pids))
    {
      correlator.SetBrowserProcesses(pids);
    }

    /** A client's set_policy request: the copy of the policy it takes, and the new one it makes of it. */
    method BeginSetPolicy(client: nat, doc: Json) returns (ok: bool)
      requires Valid() && client !in drafts
      modifies this
      ensures Valid() && Now() == Next(config, old(Now()), PolicyStep(Updates.Read(client, doc)))
      ensures ok <==> PolicyEngineModel.Acceptable(doc)
    {
      hide Updated, PolicyEngineModel.Acceptable;
      var base := engine.Snapshot();
      var next;
      ok, next := PolicyEngine.Build(base, doc);
      if ok {
        drafts := drafts[client := next];
      }
      updates := Updates.Step(updates, Updates.Read(client, doc));
    }

    /** The same request when it stores what it made. */
    method FinishSetPolicy(client: nat)
      requires Valid() && client in drafts
      modifies this, engine
      ensures Valid() && Now() == Next(config, old(Now()), PolicyStep(Updates.Write(client)))
    {
      hide Updated, PolicyEngineModel.Acceptable;
      engine.Replace(drafts[client]);
      drafts := drafts - {client};
      updates := Updates.Step(updates, Updates.Write(client));
    }

    /** The main loop's round: the server's count of drops replaces the daemon's. */
    method PollServer(serverDropped: nat)
      requires Valid()
      modifies this
      ensures Valid() && Now() == Next(config, old(Now()), Poll(serverDropped))
    {
      if config.hasServer {
        eventsDropped := serverDropped;
      }
    }
  }

  lemma ExecMore(config: Config, run: seq<Step>, step: Step)
    ensures Exec(config, run + [step]) == Next(config, Exec(config, run), step)
  {
    assert (run + [step])[..|run|] == run;
  }

  // ---------- What a run leaves behind, read off the run ----------

  function UpdatesOf(run: seq<Step>): seq<Updates.Update>
  {
    if run == [] then []
    else
      var us := UpdatesOf(run[..|run| - 1]);
      match run[|run| - 1] case PolicyStep(u) => us + [u] case _ => us
  }

  function Pids(run: seq<Step>): seq<nat>
  {
    if run == [] then []
    else match run[|run| - 1] case Processes(pids) => pids case _ => Pids(run[..|run| - 1])
  }

  /** Every navigation ever recorded. */
  function Navigations(run: seq<Step>): seq<Observation>
  {
    if run == [] then []
    else
      var navs := Navigations(run[..|run| - 1]);
      match run[|run| - 1] case Navigate(n) => navs + [n] case _ => navs
  }

  /** The correlator's part of a run: navigations recorded, and clock readings of the matches that took place. */
  function Ops(config: Config, run: seq<Step>): seq<Op>
  {
    if run == [] then []
    else
      var before := run[..|run| - 1];
      var ops := Ops(config, before);
      match run[|run| - 1]
      case Navigate(n) => ops + [Record(n)]
      case Match(c, now) => if Waiting(Exec(config, before), c) then ops + [Query(now)] else ops
      case _ => ops
  }

  lemma {:induction false} HistoryIsNavigations(config: Config, run: seq<Step>)
    ensures History(Ops(config, run)) == Navigations(run)
  {
    hide Exec, Waiting;
    if run != [] {
      HistoryIsNavigations(config, run[..|run| - 1]);
      var before, ops := Ops(config, run[..|run| - 1]), Ops(config, run);
      if ops != before {
        assert ops[..|ops| - 1] == before;
      }
    }
  }

  /** Policy, process list and retained navigations after any run, each a function of its own inputs alone. */
  lemma {:induction false} StateFollows(config: Config, run: seq<Step>)
    ensures Exec(config, run).updates == Updates.After(UpdatesOf(run))
    ensures Exec(config, run).pids == Pids(run)
    ensures Exec(config, run).navs == Retained(Ops(config, run))
  {
    hide Applied, MatchedEvent, StageOf, Pruned, Recorded, Updates.Step;
    if run != [] {
      var before := run[..|run| - 1];
      StateFollows(config, before);
      var us, ops := UpdatesOf(run), Ops(config, run);
      if us != UpdatesOf(before) {
        assert us[..|us| - 1] == UpdatesOf(before);
      }
      if ops != Ops(config, before) {
        assert ops[..|ops| - 1] == Ops(config, before);
      }
    }
  }

  /** The documents whose updates were stored in a run, in that order. */
  function StoredDocs(run: seq<Step>): seq<Json>
  {
    Updates.DocsOf(Updates.After(UpdatesOf(run)).written)
  }

  /** The policy in force is that of the stored documents in order whenever no update is stored over a newer one. */
  lemma PolicyFollows(config: Config, run: seq<Step>)
    requires Updates.NoneStale(UpdatesOf(run))
    ensures Exec(config, run).updates.policy == AfterDocs(StoredDocs(run))
  {
    hide Exec, Updates.After, Updates.NoneStale, AfterDocs, UpdatesOf, Updates.DocsOf;
    StateFollows(config, run);
    Updates.NoneStaleIsSerial(UpdatesOf(run));
  }

  // ---------- One capture through the pipeline ----------

  predicate Touches(step: Step, c: nat)
  {
    match step
    case Look(d, _) => d == c
    case Match(d, _) => d == c
    case Apply(d) => d == c
    case Broadcast(d) => d == c
    case Store(d, _) => d == c
    case _ => false
  }

  /** Steps of other threads. */
  predicate Elsewhere(steps: seq<Step>, c: nat)
  {
    forall i :: 0 <= i < |steps| ==> !Touches(steps[i], c)
  }

  lemma {:induction false} OthersLeaveIt(config: Config, run: seq<Step>, steps: seq<Step>, c: nat)
    requires Elsewhere(steps, c)
    ensures c in Exec(config, run + steps).captures <==> c in Exec(config, run).captures
    ensures c in Exec(config, run).captures ==> Exec(config, run + steps).captures[c] == Exec(config, run).captures[c]
  {
    hide Applied, MatchedEvent, StageOf, Pruned, Recorded, Updates.Step, Exec;
    if steps == [] {
      assert run + steps == run;
    } else {
      var n := |steps| - 1;
      OthersLeaveIt(config, run, steps[..n], c);
      ExecMore(config, run + steps[..n], steps[n]);
      assert run + steps == run + steps[..n] + [steps[n]];
    }
  }

  /** What the plain definition publishes: the last 512 navigations recorded by then, unpruned. */
  function Ideal(policy: Policy, navigations: seq<Observation>, pids: seq<nat>, e: Event): Event
  {
    Applied(policy, Correlated(LastOf(navigations), pids, e))
  }

  /** One capture up to its broadcast, with anything going on between its steps. */
  datatype Passage = Passage(
    c: nat, e: Event, now: int, first: seq<Step>, second: seq<Step>, third: seq<Step>)

  function Begun(run: seq<Step>, p: Passage): seq<Step> { run + [Look(p.c, p.e)] + p.first }

  function Midway(run: seq<Step>, p: Passage): seq<Step> { Begun(run, p) + [Match(p.c, p.now)] + p.second }

  function Cleared(run: seq<Step>, p: Passage): seq<Step> { Midway(run, p) + [Apply(p.c)] + p.third }

  function Done(run: seq<Step>, p: Passage): seq<Step> { Cleared(run, p) + [Broadcast(p.c)] }

  lemma CaptureBegins(config: Config, run: seq<Step>, p: Passage)
    requires p.c !in Exec(config, run).captures && Elsewhere(p.first, p.c)
    ensures var s := Exec(config, Begun(run, p));
      p.c in s.captures && s.captures[p.c] == StageOf(Pids(run), p.e)
  {
    hide Exec, StageOf, Pids, Elsewhere;
    StateFollows(config, run);
    ExecMore(config, run, Look(p.c, p.e));
    OthersLeaveIt(config, run + [Look(p.c, p.e)], p.first, p.c);
  }

  lemma CaptureMatches(config: Config, run: seq<Step>, p: Passage)
    requires p.c !in Exec(config, run).captures && Elsewhere(p.first, p.c) && Elsewhere(p.second, p.c)
    ensures var s := Exec(config, Midway(run, p));
      && p.c in s.captures
      && s.captures[p.c] == Matched(
           Correlated(Pruned(Retained(Ops(config, Begun(run, p))), p.now), Pids(run), p.e))
  {
    hide Exec, Pids, Elsewhere, Begun, Pruned, Retained, Ops, Attributed, BestOf;
    CaptureBegins(config, run, p);
    var begun := Begun(run, p);
    StateFollows(config, begun);
    ExecMore(config, begun, Match(p.c, p.now));
    OthersLeaveIt(config, begun + [Match(p.c, p.now)], p.second, p.c);
  }

  lemma ApplyThenWait(config: Config, run: seq<Step>, third: seq<Step>, c: nat)
    requires Ready(Exec(config, run), c) && Exec(config, run).captures[c].event.privacy.metadataOnly
    requires Elsewhere(third, c)
    ensures var s, t := Exec(config, run), Exec(config, run + [Apply(c)] + third);
      c in t.captures && t.captures[c] == Redacted(Applied(s.updates.policy, s.captures[c].event))
  {
    hide Exec, Elsewhere, Applied;
    ExecMore(config, run, Apply(c));
    OthersLeaveIt(config, run + [Apply(c)], third, c);
  }

  /** A network event is at most 30 seconds old when matched, under a clock that does not run backwards. */
  predicate Fresh(config: Config, run: seq<Step>, p: Passage)
  {
    IsNetworkEvent(p.e) ==>
      ClockUpTo(Ops(config, Begun(run, p)), p.now) && p.now - p.e.timestamp <= 30_000_000_000
  }

  /** What the plain definition says of a capture. */
  function IdealOf(config: Config, run: seq<Step>, p: Passage): Event
  {
    Ideal(Exec(config, Midway(run, p)).updates.policy, Navigations(Begun(run, p)), Pids(run), p.e)
  }

  lemma CaptureClears(config: Config, run: seq<Step>, p: Passage)
    requires p.c !in Exec(config, run).captures && p.e.privacy.metadataOnly && Fresh(config, run, p)
    requires Elsewhere(p.first, p.c) && Elsewhere(p.second, p.c) && Elsewhere(p.third, p.c)
    ensures var s := Exec(config, Cleared(run, p));
      p.c in s.captures && s.captures[p.c] == Redacted(IdealOf(config, run, p))
  {
    hide Exec, Pids, Elsewhere, Begun, Midway, Pruned, Retained, Ops, Attributed, BestOf, LastOf, History, Applied;
    hide ClockUpTo, Navigations;
    CaptureMatches(config, run, p);
    HistoryIsNavigations(config, Begun(run, p));
    if IsNetworkEvent(p.e) {
      PruningIsHarmless(Ops(config, Begun(run, p)), p.now, p.e);
    }
    CorrelationKeepsPrivacy(Pruned(Retained(Ops(config, Begun(run, p))), p.now), Pids(run), p.e);
    ApplyThenWait(config, Midway(run, p), p.third, p.c);
  }

  /**
   In every interleaving a capture broadcasts what the plain definition says for the processes known when it began,
   the last 512 navigations recorded when it was matched, and the policy in force when the policy was applied; for
   network events at most 30 seconds old when matched, under a clock that does not run backwards.
   */
  lemma PipelineRefinesIdeal(config: Config, run: seq<Step>, p: Passage)
    requires p.c !in Exec(config, run).captures && config.hasServer && p.e.privacy.metadataOnly
    requires Elsewhere(p.first, p.c) && Elsewhere(p.second, p.c) && Elsewhere(p.third, p.c)
    requires IsNetworkEvent(p.e) ==>
      ClockUpTo(Ops(config, Begun(run, p)), p.now) && p.now - p.e.timestamp <= 30 * SECOND
    ensures Exec(config, Done(run, p)).broadcast == Exec(config, Cleared(run, p)).broadcast +
      [Ideal(Exec(config, Midway(run, p)).updates.policy, Navigations(Begun(run, p)), Pids(run), p.e)]
  {
    CaptureClears(config, run, p);
    hide Exec, Pids, Elsewhere, Begun, Midway, Cleared, Ideal, Navigations;
    ExecMore(config, Cleared(run, p), Broadcast(p.c));
  }

  /** The store is then given that same event; it is published once, and a refusal counts one drop. */
  lemma StoreGetsTheSame(config: Config, run: seq<Step>, p: Passage, fourth: seq<Step>, takes: bool)
    requires p.c !in Exec(config, run).captures && p.e.privacy.metadataOnly && Fresh(config, run, p)
    requires Elsewhere(p.first, p.c) && Elsewhere(p.second, p.c) && Elsewhere(p.third, p.c) && Elsewhere(fourth, p.c)
    ensures
      var s, t := Exec(config, Done(run, p) + fourth), Exec(config, Done(run, p) + fourth + [Store(p.c, takes)]);
      && t.stored == s.stored + (if config.hasStore && takes then [IdealOf(config, run, p)] else [])
      && t.published == s.published + 1
      && t.dropped == s.dropped + (if config.hasStore && !takes then 1 else 0)
      && t.broadcast == s.broadcast && p.c !in t.captures
  {
    CaptureClears(config, run, p);
    hide Exec, Elsewhere, Cleared, IdealOf;
    ExecMore(config, Cleared(run, p), Broadcast(p.c));
    OthersLeaveIt(config, Done(run, p), fourth, p.c);
    ExecMore(config, Done(run, p) + fourth, Store(p.c, takes));
  }

  /** An event that is not metadata-only ends at the policy: it is counted as dropped and reaches nobody. */
  lemma NonMetadataIsDropped(config: Config, run: seq<Step>, p: Passage)
    requires p.c !in Exec(config, run).captures && !p.e.privacy.metadataOnly
    requires Elsewhere(p.first, p.c) && Elsewhere(p.second, p.c)
    ensures
      var s, t := Exec(config, Midway(run, p)), Exec(config, Midway(run, p) + [Apply(p.c)]);
      && t.dropped == s.dropped + 1 && t.lostToPolicy == s.lostToPolicy + 1
      && p.c !in t.captures && t.broadcast == s.broadcast && t.stored == s.stored && t.published == s.published
  {
    hide Exec, Pids, Elsewhere, Begun, Midway, Pruned, Retained, Ops, Attributed, BestOf;
    CaptureMatches(config, run, p);
    CorrelationKeepsPrivacy(Pruned(Retained(Ops(config, Begun(run, p))), p.now), Pids(run), p.e);
    ExecMore(config, Midway(run, p), Apply(p.c));
  }

  lemma CorrelationKeepsPrivacy(navs: seq<Observation>, pids: seq<nat>, e: Event)
    ensures var out := Correlated(navs, pids, e);
      out.privacy == e.privacy && out.network == e.network && out.source == e.source && out.eventType == e.eventType
  {
  }

  // ---------- Every event that leaves ----------

  predicate Capped(e: Event)
  {
    IsNetworkEvent(e) ==> 0 <= e.confidence < 90 && (e.source == Pcap ==> e.confidence <= 69)
  }

  /** What holds of every event handed to a subscriber or to storage. */
  predicate Clean(e: Event)
  {
    && e.privacy.metadataOnly && Capped(e)
    && (e.browser.Some? ==> NoQueryOrFragment(e.browser.value.url))
  }

  predicate AllClean(events: seq<Event>)
  {
    forall i :: 0 <= i < |events| ==> Clean(events[i])
  }

  /** What holds of a capture under way. */
  predicate StageWell(config: Config, stage: Stage, broadcast: seq<Event>)
  {
    match stage
    case Looked(_, _) => true
    case Matched(e) => Capped(e)
    case Redacted(e) => Clean(e)
    case Sent(e) => Clean(e) && (config.hasServer ==> e in broadcast)
  }

  lemma AttributedIsCapped(e: Event, process: bool, best: Option<Observation>)
    ensures Capped(Attributed(e, process, best))
  {
    hide Score;
  }

  lemma AppliedIsClean(p: Policy, e: Event)
    requires Sound(p) && e.privacy.metadataOnly && Capped(e)
    ensures Clean(Applied(p, e))
  {
    hide RedactUrl, RedactDnsName, UrlKinds, DnsKinds, NoQueryOrFragment, Excluded, TabWithheld;
    SoundIsPrivate(p, e);
  }

  predicate Well(config: Config, s: State)
  {
    && (forall c :: c in s.captures ==> StageWell(config, s.captures[c], s.broadcast))
    && AllClean(s.broadcast) && AllClean(s.stored)
    && (config.hasServer ==> forall i :: 0 <= i < |s.stored| ==> s.stored[i] in s.broadcast)
  }

  lemma ApplyKeepsWell(config: Config, s: State, c: nat)
    requires Well(config, s) && Sound(s.updates.policy)
    ensures Well(config, Next(config, s, Apply(c)))
  {
    hide Clean, Applied, Sound, Capped, AllClean;
    if Ready(s, c) && s.captures[c].event.privacy.metadataOnly {
      assert StageWell(config, s.captures[c], s.broadcast);
      AppliedIsClean(s.updates.policy, s.captures[c].event);
    }
  }

  lemma BroadcastKeepsWell(config: Config, s: State, c: nat)
    requires Well(config, s)
    ensures Well(config, Next(config, s, Broadcast(c)))
  {
    hide Clean, Capped;
    if Clear(s, c) {
      var t := Next(config, s, Broadcast(c));
      assert StageWell(config, s.captures[c], s.broadcast);
      forall e | e in s.broadcast ensures e in t.broadcast {
      }
      forall d | d in t.captures ensures StageWell(config, t.captures[d], t.broadcast) {
        if d == c {
          assert config.hasServer ==> t.broadcast[|s.broadcast|] == s.captures[c].event;
        } else {
          assert StageWell(config, s.captures[d], s.broadcast);
        }
      }
    }
  }

  lemma StoreKeepsWell(config: Config, s: State, c: nat, takes: bool)
    requires Well(config, s)
    ensures Well(config, Next(config, s, Store(c, takes)))
  {
    hide Clean, Capped;
    if Gone(s, c) {
      assert StageWell(config, s.captures[c], s.broadcast);
    }
  }

  lemma MatchKeepsWell(config: Config, s: State, c: nat, now: int)
    requires Well(config, s)
    ensures Well(config, Next(config, s, Match(c, now)))
  {
    hide Clean, Capped, Attributed, BestOf, Pruned, AllClean;
    if Waiting(s, c) {
      var e := s.captures[c].event;
      AttributedIsCapped(e, s.captures[c].process, BestOf(Pruned(s.navs, now), e));
    }
  }

  lemma LookKeepsWell(config: Config, s: State, c: nat, e: Event)
    requires Well(config, s)
    ensures Well(config, Next(config, s, Look(c, e)))
  {
    hide Clean, AllClean;
  }

  lemma StepKeepsWell(config: Config, s: State, step: Step)
    requires Well(config, s) && Sound(s.updates.policy)
    ensures Well(config, Next(config, s, step))
  {
    hide StageWell, Applied, MatchedEvent, StageOf, Pruned, Recorded, Updates.Step, Sound, AllClean;
    match step
    case Look(c, e) => LookKeepsWell(config, s, c, e);
    case Match(c, now) => MatchKeepsWell(config, s, c, now);
    case Apply(c) => ApplyKeepsWell(config, s, c);
    case Broadcast(c) => BroadcastKeepsWell(config, s, c);
    case Store(c, takes) => StoreKeepsWell(config, s, c, takes);
    case _ =>
  }

  /**
   Over every interleaving: every broadcast or stored event is clean, and with a server running storage holds only
   events that were also broadcast.
   */
  lemma {:induction false} EveryEventClean(config: Config, run: seq<Step>)
    ensures Well(config, Exec(config, run))
  {
    if run != [] {
      var before := run[..|run| - 1];
      EveryEventClean(config, before);
      hide Well, Next, Sound;
      StateFollows(config, before);
      Updates.EveryInterleavingIsSound(UpdatesOf(before));
      StepKeepsWell(config, Exec(config, before), run[|run| - 1]);
    }
  }

  /** After any run, whatever is ready to be published comes out private under the policy in force. */
  lemma EveryPublicationPrivate(config: Config, run: seq<Step>, c: nat)
    requires Ready(Exec(config, run), c)
    ensures var s := Exec(config, run);
      Private(s.updates.policy, s.captures[c].event, Applied(s.updates.policy, s.captures[c].event))
  {
    hide Exec, Private, Applied, Sound;
    StateFollows(config, run);
    Updates.EveryInterleavingIsSound(UpdatesOf(run));
    SoundIsPrivate(Exec(config, run).updates.policy, Exec(config, run).captures[c].event);
  }

  // ---------- Counting ----------

  function Losses(s: State): nat { s.lostToPolicy + s.lostToStore }

  predicate PollFree(run: seq<Step>)
  {
    forall i :: 0 <= i < |run| ==> !run[i].Poll?
  }

  /** The captures that are broadcast and not yet stored. */
  function Underway(captures: map<nat, Stage>): set<nat>
  {
    set c | c in captures && captures[c].Sent?
  }

  predicate Balanced(config: Config, s: State)
  {
    && s.seen == s.published + s.lostToPolicy + |s.captures|
    && |s.broadcast| == (if config.hasServer then s.published + |Underway(s.captures)| else 0)
    && |s.stored| + s.lostToStore == (if config.hasStore then s.published else 0)
  }

  lemma UnderwayUpdate(captures: map<nat, Stage>, c: nat, stage: Stage)
    requires c !in Underway(captures)
    ensures Underway(captures - {c}) == Underway(captures)
    ensures |Underway(captures[c := stage])| == |Underway(captures)| + if stage.Sent? then 1 else 0
  {
    var more := Underway(captures[c := stage]);
    if stage.Sent? {
      assert more == Underway(captures) + {c};
    } else {
      assert more == Underway(captures);
    }
  }

  lemma UnderwayDone(captures: map<nat, Stage>, c: nat)
    requires c in Underway(captures)
    ensures |Underway(captures - {c})| == |Underway(captures)| - 1
  {
    assert Underway(captures - {c}) == Underway(captures) - {c};
  }

  lemma OneFewer(captures: map<nat, Stage>, c: nat)
    requires c in captures
    ensures |captures - {c}| == |captures| - 1
  {
    assert (captures - {c}).Keys == captures.Keys - {c};
  }

  lemma SameNumber(captures: map<nat, Stage>, c: nat, stage: Stage)
    ensures |captures[c := stage]| == |captures| + if c in captures then 0 else 1
  {
    assert captures[c := stage].Keys == captures.Keys + {c};
  }

  predicate BalancedStep(config: Config, s: State, t: State)
  {
    Balanced(config, t) && t.dropped - s.dropped == Losses(t) - Losses(s)
  }

  lemma MoveKeepsBalance(config: Config, s: State, t: State, c: nat, stage: Stage)
    requires Balanced(config, s) && c !in Underway(s.captures) && t.captures == s.captures[c := stage]
    requires t.seen == s.seen + (if c in s.captures then 0 else 1)
    requires t == s.(captures := t.captures, seen := t.seen, navs := t.navs, broadcast := t.broadcast)
    requires |t.broadcast| == |s.broadcast| + (if config.hasServer && stage.Sent? then 1 else 0)
    ensures BalancedStep(config, s, t)
  {
    hide Underway;
    UnderwayUpdate(s.captures, c, stage);
    SameNumber(s.captures, c, stage);
  }

  lemma ApplyKeepsBalance(config: Config, s: State, c: nat)
    requires Balanced(config, s)
    ensures BalancedStep(config, s, Next(config, s, Apply(c)))
  {
    hide Applied, Balanced, BalancedStep, Losses;
    if Ready(s, c) {
      var e, t := s.captures[c].event, Next(config, s, Apply(c));
      if e.privacy.metadataOnly {
        MoveKeepsBalance(config, s, t, c, t.captures[c]);
      } else {
        DropKeepsBalance(config, s, c);
      }
    } else {
      StayKeepsBalance(config, s);
    }
  }

  lemma DropKeepsBalance(config: Config, s: State, c: nat)
    requires Balanced(config, s) && Ready(s, c)
    ensures BalancedStep(config, s,
              s.(captures := s.captures - {c}, dropped := s.dropped + 1, lostToPolicy := s.lostToPolicy + 1))
  {
    OneFewer(s.captures, c);
    UnderwayUpdate(s.captures, c, s.captures[c]);
  }

  lemma StayKeepsBalance(config: Config, s: State)
    requires Balanced(config, s)
    ensures BalancedStep(config, s, s)
  {
  }

  lemma StoreKeepsBalance(config: Config, s: State, c: nat, takes: bool)
    requires Balanced(config, s)
    ensures BalancedStep(config, s, Next(config, s, Store(c, takes)))
  {
    if Gone(s, c) {
      OneFewer(s.captures, c);
      UnderwayDone(s.captures, c);
    }
  }

  lemma StepKeepsBalance(config: Config, s: State, step: Step)
    requires Balanced(config, s)
    ensures Balanced(config, Next(config, s, step))
    ensures !step.Poll? ==> Next(config, s, step).dropped - s.dropped == Losses(Next(config, s, step)) - Losses(s)
  {
    hide Applied, MatchedEvent, Pruned, Recorded, Updates.Step;
    var t := Next(config, s, step);
    match step
    case Look(c, _) =>
      if c !in s.captures {
        MoveKeepsBalance(config, s, t, c, t.captures[c]);
      }
    case Match(c, _) =>
      if Waiting(s, c) {
        MoveKeepsBalance(config, s, t, c, t.captures[c]);
      }
    case Apply(c) => ApplyKeepsBalance(config, s, c);
    case Broadcast(c) =>
      if Clear(s, c) {
        MoveKeepsBalance(config, s, t, c, t.captures[c]);
      }
    case Store(c, takes) => StoreKeepsBalance(config, s, c, takes);
    case _ =>
  }

  /** Every capture seen is under way, published or lost to policy; publications are broadcast,
   and stored or refused. */
  lemma {:induction false} EveryCaptureCounted(config: Config, run: seq<Step>)
    ensures Balanced(config, Exec(config, run))
    ensures PollFree(run) ==> Exec(config, run).dropped == Losses(Exec(config, run))
  {
    if run != [] {
      EveryCaptureCounted(config, run[..|run| - 1]);
      hide Balanced, Next, Losses;
      StepKeepsBalance(config, Exec(config, run[..|run| - 1]), run[|run| - 1]);
    }
  }

  lemma {:induction false} DroppedSince(config: Config, first: seq<Step>, tail: seq<Step>)
    requires PollFree(tail)
    ensures Exec(config, first + tail).dropped - Exec(config, first).dropped ==
      Losses(Exec(config, first + tail)) - Losses(Exec(config, first))
  {
    hide Next, Losses, Balanced, Exec;
    if tail == [] {
      assert first + tail == first;
    } else {
      var n := |tail| - 1;
      DroppedSince(config, first, tail[..n]);
      EveryCaptureCounted(config, first + tail[..n]);
      StepKeepsBalance(config, Exec(config, first + tail[..n]), tail[n]);
      ExecMore(config, first + tail[..n], tail[n]);
      assert first + tail == first + tail[..n] + [tail[n]];
    }
  }

  /**
   The drop counter adds the daemon's own losses to the server's drops exactly when nothing was lost before the
   last poll: the poll overwrites the counter.
   */
  lemma PollForgetsDrops(config: Config, before: seq<Step>, k: nat, tail: seq<Step>)
    requires config.hasServer && PollFree(tail)
    ensures var s, all := Exec(config, before), Exec(config, before + [Poll(k)] + tail);
      && all.dropped == k + (Losses(all) - Losses(s))
      && (all.dropped == k + Losses(all) <==> Losses(s) == 0)
  {
    hide Exec;
    ExecMore(config, before, Poll(k));
    DroppedSince(config, before + [Poll(k)], tail);
  }
}
