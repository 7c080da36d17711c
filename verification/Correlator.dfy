/** Attribution of network events to browser navigations. */
module CorrelatorModel {
  import opened Common
  import opened Events

  /** Clock ticks are nanoseconds. */
  const SECOND: int := 1_000_000_000
  const NAVIGATION_WINDOW: int := 10 * SECOND
  const PRUNE_AGE: int := 4 * NAVIGATION_WINDOW
  const MAX_NAVIGATIONS: nat := 512

  datatype Observation = Observation(
    timestamp: int, tabId: nat, windowId: nat, host: string, url: string, title: string,
    navigationId: string, frameId: nat)

  // ---------- Evidence ----------

  const WEIGHT_PROCESS: int := 40
  const WEIGHT_TEMPORAL: int := 12
  const WEIGHT_HOST: int := 18
  const WEIGHT_DIRECT: int := 95
  const PCAP_CAP: int := 69
  const ATTACH_THRESHOLD: int := 40

  /** The confidence of a combination of evidence, in hundredths. */
  function Score(process: bool, temporal: bool, host: bool, direct: bool, pcapOnly: bool): (score: int)
    ensures 0 <= score <= 100
    ensures score >= 90 <==> direct
    ensures pcapOnly && !direct ==> score <= 69
  {
    if direct then WEIGHT_DIRECT
    else
      var sum := (if process then WEIGHT_PROCESS else 0)
        + (if temporal then WEIGHT_TEMPORAL else 0) + (if host then WEIGHT_HOST else 0);
      var capped := if pcapOnly && sum > PCAP_CAP then PCAP_CAP else sum;
      if capped < 0 then 0 else if capped > 100 then 100 else capped
  }

  /** Every score there is: 95 on the browser's word, else by process, time and host, 69 the cap of capture alone. */
  lemma ScoreTable(process: bool, temporal: bool, host: bool, pcapOnly: bool)
    ensures Score(process, temporal, host, true, pcapOnly) == 95
    ensures Score(process, temporal, host, false, pcapOnly) ==
      match (process, temporal, host)
      case (true, true, true) => if pcapOnly then 69 else 70
      case (true, true, false) => 52
      case (true, false, true) => 58
      case (true, false, false) => 40
      case (false, true, true) => 30
      case (false, true, false) => 12
      case (false, false, true) => 18
      case (false, false, false) => 0
  {
  }

  /** Without the browser's own word only a process match reaches the attach threshold;
   time and host together stay below. */
  lemma ProcessDecides(process: bool, temporal: bool, host: bool, pcapOnly: bool)
    ensures Score(process, temporal, host, false, pcapOnly) >= 40 <==> process
  {
  }

  // ---------- The best navigation ----------

  function Delta(n: Observation, e: Event): nat
  {
    if n.timestamp > e.timestamp then n.timestamp - e.timestamp else e.timestamp - n.timestamp
  }

  predicate Eligible(n: Observation, e: Event)
  {
    Delta(n, e) <= NAVIGATION_WINDOW
  }

  function EventHost(e: Event): string
  {
    if e.network.Some? then e.network.value.dnsQueryName else ""
  }

  predicate HostMatch(n: Observation, e: Event)
  {
    EventHost(e) != "" && n.host != "" && EventHost(e) == n.host
  }

  /** n is a strictly better match than b: a host match first, then the smaller time distance. */
  predicate Better(n: Observation, b: Observation, e: Event)
  {
    || (HostMatch(n, e) && !HostMatch(b, e))
    || (HostMatch(n, e) == HostMatch(b, e) && Delta(n, e) < Delta(b, e))
  }

  /** The best eligible navigation, the earlier recorded one among equals. */
  function BestOf(navs: seq<Observation>, e: Event): Option<Observation>
  {
    if navs == [] then None
    else
      var best, n := BestOf(navs[..|navs| - 1], e), navs[|navs| - 1];
      if Eligible(n, e) && (best.None? || Better(n, best.value, e)) then Some(n) else best
  }

  /** Within ten seconds, before or after. */
  predicate Near(n: Observation, e: Event)
  {
    -10_000_000_000 <= n.timestamp - e.timestamp <= 10_000_000_000
  }

  /** The event's DNS name is the host the navigation went to. */
  predicate SharesHost(n: Observation, e: Event)
  {
    e.network.Some? && e.network.value.dnsQueryName == n.host != ""
  }

  /** a is no further from the event in time than b. */
  predicate NoFurther(a: Observation, b: Observation, e: Event)
  {
    var x, y := a.timestamp - e.timestamp, b.timestamp - e.timestamp;
    (-y <= x <= y) || (y <= x <= -y)
  }

  lemma MatchTerms(n: Observation, b: Observation, e: Event)
    ensures Eligible(n, e) <==> Near(n, e)
    ensures HostMatch(n, e) <==> SharesHost(n, e)
    ensures Delta(n, e) <= Delta(b, e) <==> NoFurther(n, b, e)
  {
  }

  /**
   Position k holds the match: it is near, no near navigation has the host unless it has, none that is its equal
   there is nearer, and none of those before it is as near.
   */
  predicate IsBest(navs: seq<Observation>, e: Event, k: nat)
  {
    && k < |navs| && Near(navs[k], e)
    && forall j :: 0 <= j < |navs| && Near(navs[j], e) ==>
         && (SharesHost(navs[j], e) ==> SharesHost(navs[k], e))
         && (SharesHost(navs[j], e) == SharesHost(navs[k], e) ==>
               NoFurther(navs[k], navs[j], e) && (j < k ==> !NoFurther(navs[j], navs[k], e)))
  }

  /** The same in the terms of the search. */
  predicate Leads(navs: seq<Observation>, e: Event, k: nat)
  {
    && k < |navs| && Eligible(navs[k], e)
    && (forall j :: 0 <= j < |navs| && Eligible(navs[j], e) ==> !Better(navs[j], navs[k], e))
    && (forall j :: 0 <= j < k && Eligible(navs[j], e) ==> Better(navs[k], navs[j], e))
  }

  lemma LeadsIsBest(navs: seq<Observation>, e: Event, k: nat)
    ensures Leads(navs, e, k) <==> IsBest(navs, e, k)
  {
    hide Eligible, Near, HostMatch, SharesHost, Delta, NoFurther;
    if k < |navs| {
      var n := navs[k];
      forall j | 0 <= j < |navs|
        ensures Eligible(navs[j], e) <==> Near(navs[j], e)
        ensures HostMatch(navs[j], e) <==> SharesHost(navs[j], e)
        ensures Delta(navs[j], e) <= Delta(n, e) <==> NoFurther(navs[j], n, e)
        ensures Delta(n, e) <= Delta(navs[j], e) <==> NoFurther(n, navs[j], e)
      {
        MatchTerms(navs[j], n, e);
        MatchTerms(n, navs[j], e);
      }
    }
  }

  lemma {:induction false} BestOfLeads(navs: seq<Observation>, e: Event) returns (k: nat)
    ensures BestOf(navs, e).None? ==> forall j :: 0 <= j < |navs| ==> !Eligible(navs[j], e)
    ensures BestOf(navs, e).Some? ==> Leads(navs, e, k) && navs[k] == BestOf(navs, e).value
  {
    k := 0;
    if navs != [] {
      var last := |navs| - 1;
      k := BestOfLeads(navs[..last], e);
      var before := BestOf(navs[..last], e);
      if Eligible(navs[last], e) && (before.None? || Better(navs[last], before.value, e)) {
        k := last;
      }
    }
  }

  lemma NoneIsNear(navs: seq<Observation>, e: Event)
    ensures BestOf(navs, e).None? <==> forall j :: 0 <= j < |navs| ==> !Eligible(navs[j], e)
    ensures BestOf(navs, e).None? <==> forall j :: 0 <= j < |navs| ==> !Near(navs[j], e)
  {
    hide Eligible, Near, BestOf;
    var k := BestOfLeads(navs, e);
    forall j | 0 <= j < |navs| ensures Eligible(navs[j], e) <==> Near(navs[j], e) {
      MatchTerms(navs[j], navs[j], e);
    }
  }

  /** The match is the lexicographically best eligible navigation, and there is none only if none is eligible. */
  lemma BestMatchMeans(navs: seq<Observation>, e: Event)
    ensures BestOf(navs, e).None? <==> forall j :: 0 <= j < |navs| ==> !Near(navs[j], e)
    ensures BestOf(navs, e).Some? ==> exists k: nat :: IsBest(navs, e, k) && navs[k] == BestOf(navs, e).value
    ensures forall k: nat, l: nat :: IsBest(navs, e, k) && IsBest(navs, e, l) ==> k == l
  {
    NoneIsNear(navs, e);
    var k := BestOfLeads(navs, e);
    LeadsIsBest(navs, e, k);
    forall k: nat, l: nat | IsBest(navs, e, k) && IsBest(navs, e, l) ensures k == l {
      LeadsIsBest(navs, e, k);
      LeadsIsBest(navs, e, l);
    }
  }

  /** A host match wins whenever there is one, so the match shows whether any eligible navigation has the host. */
  lemma HostMatchShows(navs: seq<Observation>, e: Event)
    ensures BestOf(navs, e).Some? && HostMatch(BestOf(navs, e).value, e) <==>
            exists j :: 0 <= j < |navs| && Eligible(navs[j], e) && HostMatch(navs[j], e)
  {
    var k := BestOfLeads(navs, e);
    if BestOf(navs, e).Some? && HostMatch(BestOf(navs, e).value, e) {
      assert Eligible(navs[k], e) && HostMatch(navs[k], e);
    }
    forall j | 0 <= j < |navs| && Eligible(navs[j], e) && HostMatch(navs[j], e)
      ensures BestOf(navs, e).Some? && HostMatch(BestOf(navs, e).value, e)
    {
      assert !Better(navs[j], navs[k], e);
    }
  }

  // ---------- The correlator ----------

  function Pruned(navs: seq<Observation>, now: int): (r: seq<Observation>)
    ensures |r| <= |navs| && r == navs[|navs| - |r|..]
    ensures r != [] ==> now - r[0].timestamp <= PRUNE_AGE
    ensures forall j :: 0 <= j < |navs| - |r| ==> now - navs[j].timestamp > PRUNE_AGE
  {
    if navs != [] && now - navs[0].timestamp > PRUNE_AGE then Pruned(navs[1..], now) else navs
  }

  function Recorded(navs: seq<Observation>, n: Observation): seq<Observation>
  {
    LastOf(navs + [n])
  }

  /** At most the last 512. */
  function LastOf(navs: seq<Observation>): (r: seq<Observation>)
    ensures |r| <= MAX_NAVIGATIONS
  {
    if |navs| > MAX_NAVIGATIONS then navs[|navs| - MAX_NAVIGATIONS..] else navs
  }

  predicate IsNetworkEvent(e: Event)
  {
    e.eventType == Connection || e.eventType == Dns
  }

  predicate FromBrowser(pids: seq<nat>, e: Event)
  {
    e.process.Some? && e.process.value.pid in pids
  }

  function Attachment(n: Observation): BrowserInfo
  {
    BrowserInfo(n.tabId, n.windowId, n.url, n.title, n.navigationId, n.frameId)
  }

  /** The event after correlation against the retained navigations. */
  function Correlated(navs: seq<Observation>, pids: seq<nat>, e: Event): Event
  {
    if IsNetworkEvent(e) then Attributed(e, FromBrowser(pids, e), BestOf(navs, e)) else e
  }

  function Attributed(e: Event, process: bool, best: Option<Observation>): Event
  {
    var host := best.Some? && e.network.Some? && EventHost(e) != "" && EventHost(e) == best.value.host;
    var score := Score(process, best.Some?, host, false, e.source == Pcap);
    var scored := e.(confidence := score);
    if best.Some? && score >= ATTACH_THRESHOLD then scored.(browser := Some(Attachment(best.value))) else scored
  }

  class Correlator {
    var navigations: seq<Observation>
    var browserPids: seq<nat>

    constructor ()
      ensures navigations == [] && browserPids == []
    {
      navigations, browserPids := [], [];
    }

    method RecordNavigation(n: Observation)
      modifies this`navigations
      ensures navigations == Recorded(old(navigations), n)
    {
      navigations := navigations + [n];
      ghost var all := navigations;
      while |navigations| > MAX_NAVIGATIONS
        invariant |navigations| <= |all| && navigations == all[|all| - |navigations|..]
        invariant |all| <= MAX_NAVIGATIONS ==> navigations == all
        invariant |all| > MAX_NAVIGATIONS ==> |navigations| >= MAX_NAVIGATIONS
      {
        navigations := navigations[1..];
      }
    }

    method SetBrowserProcesses(pids: seq<nat>)
      modifies this`browserPids
      ensures browserPids == pids
    {
      browserPids := pids;
    }

    method IsBrowserProcess(pid: nat) returns (r: bool)
      ensures r <==> pid in browserPids
    {
      r := exists i :: 0 <= i < |browserPids| && browserPids[i] == pid;
    }

    method BestMatch(e: Event) returns (best: Option<Observation>)
      ensures best == BestOf(navigations, e)
    {
      best := None;
      var bestDelta: Option<nat> := None;
      var bestHostMatch := false;
      var eventHost := if e.network.Some? then e.network.value.dnsQueryName else "";
      for i := 0 to |navigations|
        invariant best == BestOf(navigations[..i], e)
        invariant best.Some? ==> bestDelta == Some(Delta(best.value, e)) && bestHostMatch == HostMatch(best.value, e)
      {
        var nav := navigations[i];
        assert navigations[..i + 1][..i] == navigations[..i];
        var delta := Delta(nav, e);
        if delta > NAVIGATION_WINDOW {
          continue;
        }
        var hostMatch := eventHost != "" && nav.host != "" && eventHost == nav.host;
        var better := best.None? || (hostMatch && !bestHostMatch)
        || (hostMatch == bestHostMatch && delta < bestDelta.value);
        if better {
          best := Some(nav);
          bestDelta := Some(delta);
          bestHostMatch := hostMatch;
        }
      }
      assert navigations[..|navigations|] == navigations;
    }

    method PruneOld(now: int)
      modifies this`navigations
      ensures navigations == Pruned(old(navigations), now)
    {
      while navigations != [] && now - navigations[0].timestamp > PRUNE_AGE
        invariant Pruned(navigations, now) == Pruned(old(navigations), now)
        decreases |navigations|
      {
        navigations := navigations[1..];
      }
    }

    method Correlate(input: Event, now: int) returns (event: Event)
      modifies this`navigations
      ensures navigations == if IsNetworkEvent(input) then Pruned(old(navigations), now) else old(navigations)
      ensures event == Correlated(navigations, browserPids, input)
    {
      hide BestOf, Attributed, Pruned;
      event := input;
      if event.eventType != Connection && event.eventType != Dns {
        return;
      }
      var processMatch := false;
      if event.process.Some? {
        processMatch := IsBrowserProcess(event.process.value.pid);
      }
      PruneOld(now);
      var best := BestMatch(event);
      event := Attribute(event, processMatch, best);
    }

    /** Scores the evidence and attaches the tab when it is strong enough. */
    static method Attribute(input: Event, processMatch: bool, best: Option<Observation>) returns (event: Event)
      ensures event == Attributed(input, processMatch, best)
    {
      hide Score;
      event := input;
      var pcapOnly := event.source == Pcap;
      var hostMatch := best.Some? && event.network.Some? && event.network.value.dnsQueryName != ""
      && event.network.value.dnsQueryName == best.value.host;
      var confidence := Score(processMatch, best.Some?, hostMatch, false, pcapOnly);
      event := event.(confidence := confidence);
      if best.Some? && confidence >= ATTACH_THRESHOLD {
        var b := best.value;
        event := event.(browser := Some(BrowserInfo(b.tabId, b.windowId, b.url, b.title, b.navigationId, b.frameId)));
      }
    }
  }

  // ---------- What correlation decides ----------

  /**
   A tab is attached to an event that came without one exactly when its process is a known browser process and
   some retained navigation is near in time; the tab is then that of the best such navigation, field by field.
   */
  lemma AttachedIff(navs: seq<Observation>, pids: seq<nat>, e: Event)
    requires (e.eventType == Connection || e.eventType == Dns) && e.browser.None?
    ensures
      var out := Correlated(navs, pids, e);
      && (out.browser.Some? <==>
            && e.process.Some? && e.process.value.pid in pids
            && exists j :: 0 <= j < |navs| && Near(navs[j], e))
      && (out.browser.Some? ==> exists k: nat ::
            && IsBest(navs, e, k)
            && out.browser.value.tabId == navs[k].tabId && out.browser.value.windowId == navs[k].windowId
            && out.browser.value.url == navs[k].url && out.browser.value.title == navs[k].title
            && out.browser.value.navigationId == navs[k].navigationId
            && out.browser.value.frameId == navs[k].frameId)
  {
    hide IsBest, BestOf, Near;
    BestMatchMeans(navs, e);
  }

  /** Correlation sets the confidence and the tab of a network event, and touches nothing else. */
  lemma CorrelationTouchesOnly(navs: seq<Observation>, pids: seq<nat>, e: Event)
    ensures
      var out := Correlated(navs, pids, e);
      && out.id == e.id && out.eventType == e.eventType && out.source == e.source && out.timestamp == e.timestamp
      && out.process == e.process && out.network == e.network && out.privacy == e.privacy
      && (e.eventType in {Navigation, Process, Status, Error} ==> out == e)
      && (out.browser != e.browser ==> out.confidence >= 40 && exists j :: 0 <= j < |navs| && Near(navs[j], e))
  {
    hide BestOf, Near;
    BestMatchMeans(navs, e);
  }

  /**
   The confidence in numbers, from the retained navigations: a known browser process gives 40 hundredths, a near
   navigation 12 and one that went to the event's host 18 more, and capture alone stops at 69.
   */
  lemma ConfidenceIs(navs: seq<Observation>, pids: seq<nat>, e: Event)
    requires e.eventType == Connection || e.eventType == Dns
    ensures
      var process := e.process.Some? && e.process.value.pid in pids;
      var near := exists j :: 0 <= j < |navs| && Near(navs[j], e);
      var host := exists j :: 0 <= j < |navs| && Near(navs[j], e) && SharesHost(navs[j], e);
      Correlated(navs, pids, e).confidence ==
        if process && host then (if e.source == Pcap then 69 else 70)
        else if process && near then 52
        else if process then 40
        else if host then 30
        else if near then 12
        else 0
  {
    hide BestOf, Near, Eligible, SharesHost, Score;
    BestMatchMeans(navs, e);
    HostMatchShows(navs, e);
    forall j | 0 <= j < |navs|
      ensures Eligible(navs[j], e) <==> Near(navs[j], e)
      ensures HostMatch(navs[j], e) <==> SharesHost(navs[j], e)
    {
      MatchTerms(navs[j], navs[j], e);
    }
    var best := BestOf(navs, e);
    var host := best.Some? && e.network.Some? && EventHost(e) != "" && EventHost(e) == best.value.host;
    assert host <==> best.Some? && HostMatch(best.value, e);
    ScoreTable(FromBrowser(pids, e), best.Some?, host, e.source == Pcap);
  }

  // ---------- Every run of records and correlations ----------

  datatype Op = Record(n: Observation) | Query(now: int)

  function Retained(ops: seq<Op>): seq<Observation>
  {
    if ops == [] then []
    else
      var navs := Retained(ops[..|ops| - 1]);
      match ops[|ops| - 1]
      case Record(n) => Recorded(navs, n)
      case Query(now) => Pruned(navs, now)
  }

  /** Everything ever recorded. */
  function History(ops: seq<Op>): seq<Observation>
  {
    if ops == [] then []
    else
      var h := History(ops[..|ops| - 1]);
      match ops[|ops| - 1]
      case Record(n) => h + [n]
      case Query(_) => h
  }

  /** The clock readings of a run do not decrease, and none is later than `now`. */
  predicate ClockUpTo(ops: seq<Op>, now: int)
  {
    ops == [] ||
    match ops[|ops| - 1]
    case Record(_) => ClockUpTo(ops[..|ops| - 1], now)
    case Query(t) => t <= now && ClockUpTo(ops[..|ops| - 1], t)
  }

  predicate SuffixOf(r: seq<Observation>, h: seq<Observation>)
  {
    |r| <= |h| && r == h[|h| - |r|..]
  }

  lemma SuffixOfSuffix(r: seq<Observation>, s: seq<Observation>, h: seq<Observation>)
    requires SuffixOf(r, s) && SuffixOf(s, h)
    ensures SuffixOf(r, h)
  {
  }

  lemma SuffixAppend(r: seq<Observation>, h: seq<Observation>, n: Observation)
    requires SuffixOf(r, h)
    ensures SuffixOf(r + [n], h + [n])
  {
  }

  lemma LastIsSuffix(navs: seq<Observation>)
    ensures SuffixOf(LastOf(navs), navs)
    ensures SuffixOf([], navs)
  {
  }

  lemma PrunedIsSuffix(navs: seq<Observation>, now: int)
    ensures SuffixOf(Pruned(navs, now), navs)
  {
  }

  /** The retained navigations are always the latest of the history, at most 512 of them. */
  lemma {:induction false} RetainedIsSuffix(ops: seq<Op>)
    ensures |Retained(ops)| <= 512
    ensures SuffixOf(Retained(ops), History(ops))
  {
    hide Pruned, SuffixOf, LastOf;
    if ops == [] {
      LastIsSuffix([]);
    } else {
      var navs, h := Retained(ops[..|ops| - 1]), History(ops[..|ops| - 1]);
      RetainedIsSuffix(ops[..|ops| - 1]);
      match ops[|ops| - 1]
      case Record(n) =>
        SuffixAppend(navs, h, n);
        LastIsSuffix(navs + [n]);
        SuffixOfSuffix(LastOf(navs + [n]), navs + [n], h + [n]);
      case Query(now) =>
        PrunedIsSuffix(navs, now);
        SuffixOfSuffix(Pruned(navs, now), navs, h);
    }
  }

  /** What pruning removed from the last 512 is too old to matter. */
  lemma {:induction false} RemovedIsOld(ops: seq<Op>, now: int, i: nat)
    requires ClockUpTo(ops, now)
    requires |History(ops)| - 512 <= i < |History(ops)| - |Retained(ops)|
    ensures now - History(ops)[i].timestamp > 40_000_000_000
  {
    var before := ops[..|ops| - 1];
    RetainedIsSuffix(before);
    match ops[|ops| - 1]
    case Record(_) =>
      RemovedIsOld(before, now, i);
    case Query(t) =>
      if i < |History(before)| - |Retained(before)| {
        RemovedIsOld(before, t, i);
      } else {
        var j := i - (|History(before)| - |Retained(before)|);
        assert Retained(before)[j] == History(before)[i];
      }
  }

  lemma {:induction false} IneligiblePrefix(stale: seq<Observation>, navs: seq<Observation>, e: Event)
    requires forall j :: 0 <= j < |stale| ==> !Eligible(stale[j], e)
    ensures BestOf(stale + navs, e) == BestOf(navs, e)
  {
    if navs == [] {
      assert stale + navs == stale;
      NoneIsNear(stale, e);
    } else {
      var n := |navs| - 1;
      IneligiblePrefix(stale, navs[..n], e);
      assert (stale + navs)[..|stale| + n] == stale + navs[..n];
    }
  }

  /** Pruning agrees with the plain search over the last 512 for events of bounded age. */
  predicate PruningAgrees(ops: seq<Op>, now: int, e: Event)
  {
    BestOf(Pruned(Retained(ops), now), e) == BestOf(LastOf(History(ops)), e)
  }

  lemma PruningIsHarmless(ops: seq<Op>, now: int, e: Event)
    requires ClockUpTo(ops, now) && now - e.timestamp <= 3 * NAVIGATION_WINDOW
    ensures PruningAgrees(ops, now, e)
  {
    hide Pruned, BestOf, Eligible, Retained, History, LastOf, SuffixOf;
    var run := ops + [Query(now)];
    OneMoreQuery(ops, now);
    RetainedIsSuffix(run);
    var kept, h := Retained(run), History(run);
    forall i | 0 <= i && |h| - MAX_NAVIGATIONS <= i < |h| - |kept| ensures !Eligible(h[i], e) {
      RemovedIsOld(run, now, i);
      TooOld(h[i], now, e);
    }
    SameAnswer(kept, h, e);
  }

  lemma OneMoreQuery(ops: seq<Op>, now: int)
    requires ClockUpTo(ops, now)
    ensures var run := ops + [Query(now)];
            ClockUpTo(run, now) && Retained(run) == Pruned(Retained(ops), now) && History(run) == History(ops)
  {
    assert (ops + [Query(now)])[..|ops|] == ops;
  }

  /** A suffix answers for the last 512 when what it lacks of them is not eligible. */
  lemma SameAnswer(kept: seq<Observation>, h: seq<Observation>, e: Event)
    requires |kept| <= MAX_NAVIGATIONS && SuffixOf(kept, h)
    requires forall i :: 0 <= i && |h| - MAX_NAVIGATIONS <= i < |h| - |kept| ==> !Eligible(h[i], e)
    ensures BestOf(kept, e) == BestOf(LastOf(h), e)
  {
    hide BestOf, Eligible;
    var last := LastOf(h);
    var stale := last[..|last| - |kept|];
    forall j | 0 <= j < |stale| ensures !Eligible(stale[j], e) {
      assert stale[j] == h[|h| - |last| + j];
    }
    assert last == stale + kept;
    IneligiblePrefix(stale, kept, e);
  }

  /** The better of two matches, the earlier recorded one among equals. */
  function Winner(earlier: Option<Observation>, later: Option<Observation>, e: Event): Option<Observation>
  {
    if earlier.None? then later
    else if later.Some? && Better(later.value, earlier.value, e) then later
    else earlier
  }

  lemma {:induction false} BestOfJoined(earlier: seq<Observation>, later: seq<Observation>, e: Event)
    ensures BestOf(earlier + later, e) == Winner(BestOf(earlier, e), BestOf(later, e), e)
  {
    hide Eligible, Delta, HostMatch;
    if later == [] {
      assert earlier + later == earlier;
    } else {
      var n := |later| - 1;
      BestOfJoined(earlier, later[..n], e);
      assert (earlier + later)[..|earlier| + n] == earlier + later[..n];
    }
  }

  /**
   Keeping only the last 512 finds the same navigation as keeping all, exactly when the best of the dropped ones,
   if any is eligible, is the one kept or loses to it.
   */
  lemma CapIsHarmlessIff(h: seq<Observation>, e: Event)
    ensures var kept := BestOf(LastOf(h), e);
      var dropped := BestOf(h[..|h| - |LastOf(h)|], e);
      kept == BestOf(h, e) <==>
      dropped.None? || (kept.Some? && (dropped == kept || Better(kept.value, dropped.value, e)))
  {
    hide BestOf, Better;
    var n := |h| - |LastOf(h)|;
    assert h == h[..n] + LastOf(h);
    BestOfJoined(h[..n], LastOf(h), e);
  }

  lemma TooOld(n: Observation, now: int, e: Event)
    requires now - n.timestamp > PRUNE_AGE && now - e.timestamp <= 3 * NAVIGATION_WINDOW
    ensures !Eligible(n, e)
  {
  }

  function SoleObservation(): Observation
  {
    Observation(0, 1, 1, "", "", "", "", 0)
  }

  function EventAt(t: int): Event
  {
    Event("", Connection, Ebpf, t, 0, None, None, None, PrivacyInfo(false, true, {}))
  }

  /** One tick more of age and pruning can lose the match. */
  lemma OlderEventsDisagree()
    ensures !PruningAgrees([Record(SoleObservation())], PRUNE_AGE + 1, EventAt(NAVIGATION_WINDOW))
  {
    var n, e := SoleObservation(), EventAt(NAVIGATION_WINDOW);
    var ops := [Record(n)];
    assert ops[..0] == [];
    assert Retained(ops) == [n] && History(ops) == [n];
    assert [n][..0] == [] && BestOf([n], e) == Some(n);
    assert [n][1..] == [] && Pruned([n], PRUNE_AGE + 1) == [];
  }

  /**
   On every run with a non-decreasing clock the pruned search answers as the search over the last 512
   observations, for all events of at most the given age, exactly when that age is at most 30 seconds.
   */
  lemma PruningBound(age: int)
    ensures (forall ops: seq<Op>, now: int, e: Event ::
             ClockUpTo(ops, now) && now - e.timestamp <= age ==> PruningAgrees(ops, now, e)) <==>
            age <= 30_000_000_000
  {
    if age <= 30_000_000_000 {
      forall ops: seq<Op>, now: int, e: Event | ClockUpTo(ops, now) && now - e.timestamp <= age
        ensures PruningAgrees(ops, now, e) {
        PruningIsHarmless(ops, now, e);
      }
    } else {
      var ops := [Record(SoleObservation())];
      assert ops[..0] == [] && ClockUpTo(ops, PRUNE_AGE + 1);
      OlderEventsDisagree();
    }
  }
}
