/** The lifecycle of a driver script: loading, starting, events, stopping, faults and quarantine. */
module DriverModel {

  datatype DriverState = Discovered | Loaded | Started | Quarantined | Failed

  /** How far loading gets; the sandbox, the bindings and the script are outside the model. */
  datatype LoadResult = NoSandbox | NoBindings | BadSource | ChunkFaults | NoOnLoad | OnLoadFaults | LoadOk

  /** How a script callback ends; a missing optional callback counts as Ok. */
  datatype CallResult = Ok | Faults

  const WRAP32: nat := 0x1_0000_0000
  /** The largest threshold for which no backoff shifts a 32-bit value by 32 or more. */
  const MAX_THRESHOLD: nat := 33

  // ---------- Backoff ----------

  function Pow2(n: nat): (p: nat)
    ensures p > 0
  {
    if n == 0 then 1 else 2 * Pow2(n - 1)
  }

  function Min(a: nat, b: nat): nat { if a < b then a else b }

  /** The sleep after fault k: 25 shifted left in 32 bits, capped. */
  function Backoff(k: nat): nat
    requires 1 <= k <= 32
  {
    Min(25 * Pow2(k - 1) % WRAP32, 8000)
  }

  lemma {:induction false} Pow2Grows(m: nat, n: nat)
    requires m <= n
    ensures Pow2(m) <= Pow2(n)
  {
    if m < n {
      Pow2Grows(m, n - 1);
    }
  }

  lemma LargePowers()
    ensures Pow2(9) == 512 && Pow2(27) == 0x800_0000
    ensures Pow2(28) == 0x1000_0000 && Pow2(29) == 0x2000_0000 && Pow2(30) == 0x4000_0000 && Pow2(31) == 0x8000_0000
  {
    assert Pow2(9) == 512;
    assert Pow2(18) == 0x4_0000;
    assert Pow2(27) == 0x800_0000;
  }

  /** The 32-bit shift loses bits from fault 29 on, but never enough to undercut the cap. */
  lemma BackoffAsDocumented(k: nat)
    requires 1 <= k <= 32
    ensures Backoff(k) == Min(25 * Pow2(k - 1), 8000)
  {
    hide Pow2;
    LargePowers();
    if k - 1 <= 27 {
      Pow2Grows(k - 1, 27);
    } else if k - 1 == 28 {
    } else if k - 1 == 29 {
    } else if k - 1 == 30 {
    } else {
      assert k - 1 == 31;
    }
  }

  /** The documented backoff after the first n faults together. */
  function TotalBackoff(n: nat): nat
  {
    if n == 0 then 0 else TotalBackoff(n - 1) + Min(25 * Pow2(n - 1), 8000)
  }

  // ---------- One driver ----------

  /** State, fault count and sandbox, with the time slept and how often the script has been given the chance to run. */
  datatype Driver = Driver(state: DriverState, faults: nat, live: bool, slept: nat, calls: nat)

  const FRESH: Driver := Driver(Discovered, 0, false, 0, 0)

  /** The number of faults that ends a driver: the first one, when the threshold is 0. */
  function Limit(threshold: nat): (n: nat)
    ensures n >= 1
  {
    if threshold == 0 then 1 else threshold
  }

  function Faulted(d: Driver, threshold: nat): Driver
    requires threshold <= MAX_THRESHOLD && d.faults < Limit(threshold)
  {
    var n := d.faults + 1;
    if n >= threshold then d.(faults := n, state := Quarantined)
    else d.(faults := n, slept := d.slept + Backoff(n))
  }

  function AfterLoad(d: Driver, threshold: nat, r: LoadResult): Driver
    requires threshold <= MAX_THRESHOLD && d.faults <= Limit(threshold)
    requires d.state == Discovered ==> d.faults < Limit(threshold)
  {
    if d.state != Discovered then d
    else
      match r
      case NoSandbox | NoBindings | BadSource => d.(state := Failed, live := false)
      case ChunkFaults | NoOnLoad => d.(state := Failed, live := false, calls := d.calls + 1)
      case OnLoadFaults => Faulted(d.(calls := d.calls + 2), threshold).(state := Failed, live := false)
      case LoadOk => d.(state := Loaded, live := true, calls := d.calls + 2)
  }

  function AfterStart(d: Driver, threshold: nat, r: CallResult): Driver
    requires threshold <= MAX_THRESHOLD && (d.state == Loaded ==> d.faults < Limit(threshold))
  {
    if d.state != Loaded then d
    else if r == Faults then Faulted(d.(calls := d.calls + 1), threshold)
    else d.(state := Started, calls := d.calls + 1)
  }

  function AfterEvent(d: Driver, threshold: nat, delivered: bool, r: CallResult): Driver
    requires threshold <= MAX_THRESHOLD && (d.state == Started ==> d.faults < Limit(threshold))
  {
    if d.state != Started || !d.live || !delivered then d
    else if r == Faults then Faulted(d.(calls := d.calls + 1), threshold)
    else d.(calls := d.calls + 1)
  }

  function AfterStop(d: Driver, threshold: nat, r: CallResult): Driver
    requires threshold <= MAX_THRESHOLD && (d.state == Started ==> d.faults < Limit(threshold))
  {
    var called :=
      if d.state != Started || !d.live then d
      else if r == Faults then Faulted(d.(calls := d.calls + 1), threshold)
      else d.(calls := d.calls + 1);
    called.(live := false,
           state := if called.state == Started || called.state == Loaded then Discovered else called.state)
  }

  /** What holds of a driver between calls. */
  predicate Sound(d: Driver, threshold: nat)
  {
    && (d.state == Loaded || d.state == Started ==> d.live)
    && (d.state == Discovered || d.state == Failed ==> !d.live)
    && (d.state == Discovered || d.state == Loaded || d.state == Started ==> d.faults < Limit(threshold))
    && (d.state == Quarantined ==> d.faults == Limit(threshold))
    && d.faults <= Limit(threshold)
    && d.slept == TotalBackoff(Min(d.faults, Limit(threshold) - 1))
  }

  class DriverInstance {
    const threshold: nat
    var state: DriverState
    var faults: nat
    var live: bool
    ghost var slept: nat
    ghost var calls: nat

    ghost function Snapshot(): Driver
      reads this
    {
      Driver(state, faults, live, slept, calls)
    }

    ghost predicate Valid()
      reads this
    {
      threshold <= MAX_THRESHOLD && Sound(Snapshot(), threshold)
    }

    constructor (threshold: nat)
      requires threshold <= MAX_THRESHOLD
      ensures this.threshold == threshold && Snapshot() == FRESH && Valid()
    {
      this.threshold := threshold;
      state, faults, live, slept, calls := Discovered, 0, false, 0, 0;
    }

    method Load(r: LoadResult) returns (ok: bool)
      requires Valid()
      modifies this
      ensures Valid() && Snapshot() == AfterLoad(old(Snapshot()), threshold, r)
      ensures ok <==> old(state) == Discovered && r == LoadOk
    {
      hide TotalBackoff, Backoff, Pow2;
      LoadKeepsSound(Snapshot(), threshold, r);
      if state != Discovered {
        return false;
      }
      live := r != NoSandbox;
      if !live {
        state := Failed;
        return false;
      }
      if r == NoBindings {
        state := Failed;
        live := false;
        return false;
      }
      if r == BadSource {
        state := Failed;
        live := false;
        return false;
      }
      calls := calls + 1;
      if r == ChunkFaults {
        state := Failed;
        live := false;
        return false;
      }
      if r == NoOnLoad {
        state := Failed;
        live := false;
        return false;
      }
      calls := calls + 1;
      if r == OnLoadFaults {
        RecordFault();
        state := Failed;
        live := false;
        return false;
      }
      state := Loaded;
      return true;
    }

    method Start(r: CallResult) returns (ok: bool)
      requires Valid()
      modifies this
      ensures Valid() && Snapshot() == AfterStart(old(Snapshot()), threshold, r)
      ensures ok <==> old(state) == Loaded && r == Ok
    {
      hide TotalBackoff, Backoff, Pow2;
      StartKeepsSound(Snapshot(), threshold, r);
      if state != Loaded {
        return false;
      }
      calls := calls + 1;
      if r != Ok {
        RecordFault();
        return false;
      }
      state := Started;
      return true;
    }

    /** An event; `delivered` says whether subscriptions, filters and the script's on_event let it through. */
    method OnEvent(delivered: bool, r: CallResult)
      requires Valid()
      modifies this
      ensures Valid() && Snapshot() == AfterEvent(old(Snapshot()), threshold, delivered, r)
    {
      hide TotalBackoff, Backoff, Pow2;
      EventKeepsSound(Snapshot(), threshold, delivered, r);
      if state != Started || !live {
        return;
      }
      if !delivered {
        return;
      }
      calls := calls + 1;
      if r != Ok {
        RecordFault();
      }
    }

    method Stop(r: CallResult)
      requires Valid()
      modifies this
      ensures Valid() && Snapshot() == AfterStop(old(Snapshot()), threshold, r)
    {
      hide TotalBackoff, Backoff, Pow2;
      StopKeepsSound(Snapshot(), threshold, r);
      if state == Started && live {
        calls := calls + 1;
        if r != Ok {
          RecordFault();
        }
      }
      live := false;
      if state == Started || state == Loaded {
        state := Discovered;
      }
    }

    method RecordFault()
      requires threshold <= MAX_THRESHOLD && faults < Limit(threshold)
      modifies this
      ensures Snapshot() == Faulted(old(Snapshot()), threshold)
    {
      faults := faults + 1;
      if faults >= threshold {
        state := Quarantined;
        return;
      }
      slept := slept + Min(25 * Pow2(faults - 1) % WRAP32, 8000);
    }
  }

  // ---------- Every call keeps it ----------

  lemma FaultKeepsBackoff(d: Driver, threshold: nat)
    requires threshold <= MAX_THRESHOLD && d.faults < Limit(threshold)
    requires d.slept == TotalBackoff(Min(d.faults, Limit(threshold) - 1))
    ensures var f := Faulted(d, threshold);
            && f.slept == TotalBackoff(Min(f.faults, Limit(threshold) - 1))
            && f.faults <= Limit(threshold)
            && (f.state == Quarantined || f.faults < Limit(threshold))
            && (f.faults == Limit(threshold) ==> f.state == Quarantined)
  {
    hide Backoff;
    var n := d.faults + 1;
    if n < threshold {
      BackoffAsDocumented(n);
    }
  }

  lemma LoadKeepsSound(d: Driver, threshold: nat, r: LoadResult)
    requires threshold <= MAX_THRESHOLD && Sound(d, threshold)
    ensures Sound(AfterLoad(d, threshold, r), threshold)
  {
    hide TotalBackoff, Backoff;
    if d.state == Discovered {
      FaultKeepsBackoff(d.(calls := d.calls + 2), threshold);
    }
  }

  lemma StartKeepsSound(d: Driver, threshold: nat, r: CallResult)
    requires threshold <= MAX_THRESHOLD && Sound(d, threshold)
    ensures Sound(AfterStart(d, threshold, r), threshold)
  {
    hide TotalBackoff, Backoff;
    if d.state == Loaded {
      FaultKeepsBackoff(d.(calls := d.calls + 1), threshold);
    }
  }

  lemma EventKeepsSound(d: Driver, threshold: nat, delivered: bool, r: CallResult)
    requires threshold <= MAX_THRESHOLD && Sound(d, threshold)
    ensures Sound(AfterEvent(d, threshold, delivered, r), threshold)
  {
    hide TotalBackoff, Backoff;
    if d.state == Started {
      FaultKeepsBackoff(d.(calls := d.calls + 1), threshold);
    }
  }

  lemma StopKeepsSound(d: Driver, threshold: nat, r: CallResult)
    requires threshold <= MAX_THRESHOLD && Sound(d, threshold)
    ensures Sound(AfterStop(d, threshold, r), threshold)
  {
    hide TotalBackoff, Backoff;
    if d.state == Started {
      FaultKeepsBackoff(d.(calls := d.calls + 1), threshold);
    }
  }

  // ---------- Every run ----------

  datatype Call =
    | LoadCall(load: LoadResult)
    | StartCall(result: CallResult)
    | EventCall(delivered: bool, result: CallResult)
    | StopCall(result: CallResult)

  function After(d: Driver, threshold: nat, c: Call): Driver
    requires threshold <= MAX_THRESHOLD && Sound(d, threshold)
  {
    match c
    case LoadCall(r) => AfterLoad(d, threshold, r)
    case StartCall(r) => AfterStart(d, threshold, r)
    case EventCall(delivered, r) => AfterEvent(d, threshold, delivered, r)
    case StopCall(r) => AfterStop(d, threshold, r)
  }

  lemma CallKeepsSound(d: Driver, threshold: nat, c: Call)
    requires threshold <= MAX_THRESHOLD && Sound(d, threshold)
    ensures Sound(After(d, threshold, c), threshold)
  {
    hide Sound;
    match c
    case LoadCall(r) => LoadKeepsSound(d, threshold, r);
    case StartCall(r) => StartKeepsSound(d, threshold, r);
    case EventCall(delivered, r) => EventKeepsSound(d, threshold, delivered, r);
    case StopCall(r) => StopKeepsSound(d, threshold, r);
  }

  /** Whether one more fault ends the driver. */
  predicate OnLastFault(d: Driver, threshold: nat)
  {
    d.faults + 1 == (if threshold == 0 then 1 else threshold)
  }

  /** Where every call leads from every state: the life cycle of a driver. */
  lemma StateAfter(d: Driver, threshold: nat, c: Call)
    requires threshold <= MAX_THRESHOLD && Sound(d, threshold)
    ensures After(d, threshold, c).state ==
      match (d.state, c)
      case (Discovered, LoadCall(LoadOk)) => Loaded
      case (Discovered, LoadCall(_)) => Failed
      case (Loaded, StartCall(Ok)) => Started
      case (Loaded, StartCall(Faults)) => if OnLastFault(d, threshold) then Quarantined else Loaded
      case (Loaded, StopCall(_)) => Discovered
      case (Started, EventCall(true, Faults)) => if OnLastFault(d, threshold) then Quarantined else Started
      case (Started, StopCall(Faults)) => if OnLastFault(d, threshold) then Quarantined else Discovered
      case (Started, StopCall(Ok)) => Discovered
      case (other, _) => other
  {
    hide Backoff, TotalBackoff;
  }

  /** Which calls count a fault. */
  lemma FaultsAfter(d: Driver, threshold: nat, c: Call)
    requires threshold <= MAX_THRESHOLD && Sound(d, threshold)
    ensures
      var next := After(d, threshold, c);
      var faulty :=
        match (d.state, c)
        case (Discovered, LoadCall(OnLoadFaults)) => true
        case (Loaded, StartCall(Faults)) => true
        case (Started, EventCall(true, Faults)) => true
        case (Started, StopCall(Faults)) => true
        case _ => false;
      next.faults == d.faults + (if faulty then 1 else 0)
  {
    hide Backoff, TotalBackoff;
  }

  /** How often each call runs the script. */
  lemma ScriptRuns(d: Driver, threshold: nat, c: Call)
    requires threshold <= MAX_THRESHOLD && Sound(d, threshold)
    ensures After(d, threshold, c).calls == d.calls +
      match (d.state, c)
      case (Discovered, LoadCall(ChunkFaults)) => 1
      case (Discovered, LoadCall(NoOnLoad)) => 1
      case (Discovered, LoadCall(OnLoadFaults)) => 2
      case (Discovered, LoadCall(LoadOk)) => 2
      case (Loaded, StartCall(_)) => 1
      case (Started, EventCall(true, _)) => 1
      case (Started, StopCall(_)) => 1
      case _ => 0
  {
    hide Backoff, TotalBackoff;
  }

  /** A start that faults short of the threshold leaves the driver loaded, and starting it again can succeed. */
  lemma StartCanBeRetried(d: Driver, threshold: nat)
    requires threshold <= MAX_THRESHOLD && Sound(d, threshold) && d.state == Loaded && !OnLastFault(d, threshold)
    ensures
      var once := After(d, threshold, StartCall(Faults));
      && once.state == Loaded && once.live && once.faults == d.faults + 1
      && Sound(once, threshold) && After(once, threshold, StartCall(Ok)).state == Started
  {
    hide Backoff, TotalBackoff;
    CallKeepsSound(d, threshold, StartCall(Faults));
  }

  /** The driver after any sequence of calls with any outcomes. */
  function Run(threshold: nat, calls: seq<Call>): (d: Driver)
    requires threshold <= MAX_THRESHOLD
    ensures Sound(d, threshold)
  {
    if calls == [] then FRESH
    else
      var before := Run(threshold, calls[..|calls| - 1]);
      CallKeepsSound(before, threshold, calls[|calls| - 1]);
      After(before, threshold, calls[|calls| - 1])
  }

  predicate Ended(d: Driver)
  {
    d.state == Quarantined || d.state == Failed
  }

  /** A quarantined or failed driver stays so through any further calls, and none of its script ever runs again. */
  lemma {:induction false} EndedForever(threshold: nat, calls: seq<Call>, more: seq<Call>)
    requires threshold <= MAX_THRESHOLD && Ended(Run(threshold, calls))
    ensures var d, later := Run(threshold, calls), Run(threshold, calls + more);
            later == d.(live := later.live)
  {
    hide TotalBackoff, Backoff;
    if more == [] {
      assert calls + more == calls;
    } else {
      var n := |more| - 1;
      EndedForever(threshold, calls, more[..n]);
      assert (calls + more)[..|calls| + n] == calls + more[..n];
    }
  }

  /** The driver never sleeps longer in all than the documented backoffs of all faults short of the threshold. */
  lemma BackoffBound(threshold: nat, calls: seq<Call>)
    requires threshold <= MAX_THRESHOLD
    ensures Run(threshold, calls).slept <= TotalBackoff(Limit(threshold) - 1)
  {
    var d := Run(threshold, calls);
    TotalBackoffGrows(Min(d.faults, Limit(threshold) - 1), Limit(threshold) - 1);
  }

  lemma {:induction false} TotalBackoffGrows(m: nat, n: nat)
    requires m <= n
    ensures TotalBackoff(m) <= TotalBackoff(n)
  {
    if m < n {
      TotalBackoffGrows(m, n - 1);
    }
  }

  function FaultyEvents(n: nat): (calls: seq<Call>)
    ensures |calls| == n + 2
  {
    [LoadCall(LoadOk), StartCall(Ok)] + seq(n, _ => EventCall(true, Faults))
  }

  lemma {:induction false} FaultsAddUp(threshold: nat, n: nat)
    requires threshold <= MAX_THRESHOLD && n < Limit(threshold)
    ensures Run(threshold, FaultyEvents(n)) == Driver(Started, n, true, TotalBackoff(n), n + 3)
  {
    hide Backoff;
    var calls := FaultyEvents(n);
    if n == 0 {
      assert calls[..1][..0] == [];
      assert calls == [LoadCall(LoadOk), StartCall(Ok)];
      assert calls[..1] == [LoadCall(LoadOk)];
      assert Run(threshold, calls[..1]) == Driver(Loaded, 0, true, 0, 2);
    } else {
      FaultsAddUp(threshold, n - 1);
      assert calls[..n + 1] == FaultyEvents(n - 1);
      BackoffAsDocumented(n);
    }
  }

  /** The bound is reached, and one more fault quarantines: after exactly `Limit` faulting events. */
  lemma BackoffBoundIsTight(threshold: nat)
    requires threshold <= MAX_THRESHOLD
    ensures var d := Run(threshold, FaultyEvents(Limit(threshold)));
            d.state == Quarantined && d.slept == TotalBackoff(Limit(threshold) - 1)
  {
    var n := Limit(threshold);
    FaultsAddUp(threshold, n - 1);
    assert FaultyEvents(n)[..n + 1] == FaultyEvents(n - 1);
  }

  /** A stopped driver can be loaded again, with its faults still counted. */
  lemma StoppedIsReloadable(threshold: nat)
    requires 2 <= threshold <= MAX_THRESHOLD
    ensures Run(threshold, FaultyEvents(1) + [StopCall(Ok), LoadCall(LoadOk)]) == Driver(Loaded, 1, true, 25, 7)
  {
    FaultsAddUp(threshold, 1);
    var calls := FaultyEvents(1) + [StopCall(Ok), LoadCall(LoadOk)];
    assert calls[..4][..3] == FaultyEvents(1);
    assert Run(threshold, calls[..4]) == Driver(Discovered, 1, false, TotalBackoff(1), 5);
    assert calls[..|calls| - 1] == calls[..4];
    assert TotalBackoff(1) == 25 by { assert Pow2(0) == 1; }
  }

  /** Whatever a driver has been through, stopping and loading it again works exactly when stopping does not end it. */
  lemma ReloadIff(threshold: nat, calls: seq<Call>, r: CallResult)
    requires threshold <= MAX_THRESHOLD
    ensures var d, stopped := Run(threshold, calls), Run(threshold, calls + [StopCall(r)]);
      var again := Run(threshold, calls + [StopCall(r)] + [LoadCall(LoadOk)]);
      && (again.state == Loaded <==> !Ended(stopped))
      && again.faults == stopped.faults
      && (Ended(stopped) <==> Ended(d) || (d.state == Started && r == Faults && d.faults + 1 == Limit(threshold)))
  {
    hide Backoff;
    assert (calls + [StopCall(r)])[..|calls|] == calls;
    assert (calls + [StopCall(r)] + [LoadCall(LoadOk)])[..|calls| + 1] == calls + [StopCall(r)];
  }
}
