/** The fixed-window rate limit on events a driver emits. */
module EmitLimiter {

  const WINDOW_MS: int := 1000

  /** The start of the current window and the emits admitted in it. */
  datatype Window = Window(start: int, count: nat)

  const INITIAL: Window := Window(0, 0)

  function Rolled(w: Window, now: int): Window
  {
    if now - w.start >= WINDOW_MS then Window(now, 0) else w
  }

  /** A limit of 0 admits everything. */
  predicate Admits(w: Window, now: int, limit: nat)
  {
    limit == 0 || Rolled(w, now).count < limit
  }

  function Emit(w: Window, now: int, limit: nat): Window
  {
    var r := Rolled(w, now);
    if Admits(w, now, limit) then r.(count := r.count + 1) else r
  }

  /** What an admitted event turns out to be when it is converted. */
  datatype Payload = Malformed | Oversized | Fits

  /** The window with the driver's two counters and the events that reached the sink. */
  datatype Totals = Totals(window: Window, emitted: nat, dropped: nat, delivered: nat)

  /** An admitted event counts as emitted before it is converted, and an oversized one as dropped besides. */
  function Counted(t: Totals, now: int, payload: Payload, limit: nat): Totals
  {
    var window := Emit(t.window, now, limit);
    if !Admits(t.window, now, limit) then t.(window := window, dropped := t.dropped + 1)
    else
      Totals(window, t.emitted + 1,
             if payload == Oversized then t.dropped + 1 else t.dropped,
             if payload == Fits then t.delivered + 1 else t.delivered)
  }

  class Limiter {
    const limit: nat
    var start: int
    var count: nat
    var emitted: nat
    var dropped: nat
    var delivered: nat

    ghost function Now(): Totals
      reads this
    {
      Totals(Window(start, count), emitted, dropped, delivered)
    }

    constructor (limit: nat)
      ensures this.limit == limit && Now() == Totals(INITIAL, 0, 0, 0)
    {
      this.limit := limit;
      start, count, emitted, dropped, delivered := 0, 0, 0, 0, 0;
    }

    method TryEmit(now: int, payload: Payload) returns (ok: bool)
      modifies this
      ensures ok <==> Admits(old(Now()).window, now, limit) && payload == Fits
      ensures Now() == Counted(old(Now()), now, payload, limit)
    {
      if now - start >= WINDOW_MS {
        start := now;
        count := 0;
      }
      if limit > 0 && count >= limit {
        dropped := dropped + 1;
        return false;
      }
      count := count + 1;
      emitted := emitted + 1;
      if payload == Malformed {
        return false;
      }
      if payload == Oversized {
        dropped := dropped + 1;
        return false;
      }
      delivered := delivered + 1;
      return true;
    }
  }

  // ---------- Every run ----------

  predicate NonDecreasing(times: seq<int>)
  {
    forall i, j :: 0 <= i < j < |times| ==> times[i] <= times[j]
  }

  /** The limiter after calls at the given times. */
  function After(times: seq<int>, limit: nat): Window
  {
    if times == [] then INITIAL else Emit(After(times[..|times| - 1], limit), times[|times| - 1], limit)
  }

  /** How many calls in [from, from + 1000) were admitted. */
  function AdmittedIn(times: seq<int>, limit: nat, from: int): nat
  {
    if times == [] then 0
    else
      var before, t := times[..|times| - 1], times[|times| - 1];
      AdmittedIn(before, limit, from)
      + (if from <= t < from + 1000 && Admits(After(before, limit), t, limit) then 1 else 0)
  }

  datatype Call = Call(now: int, payload: Payload)

  function TotalsAfter(calls: seq<Call>, limit: nat): Totals
  {
    if calls == [] then Totals(INITIAL, 0, 0, 0)
    else
      var last := calls[|calls| - 1];
      Counted(TotalsAfter(calls[..|calls| - 1], limit), last.now, last.payload, limit)
  }

  function TimesOf(calls: seq<Call>): (times: seq<int>)
    ensures |times| == |calls|
  {
    seq(|calls|, i requires 0 <= i < |calls| => calls[i].now)
  }

  /** The window does not depend on the payloads. */
  lemma {:induction false} WindowFollows(calls: seq<Call>, limit: nat)
    ensures TotalsAfter(calls, limit).window == After(TimesOf(calls), limit)
  {
    if calls != [] {
      WindowFollows(calls[..|calls| - 1], limit);
      assert TimesOf(calls)[..|calls| - 1] == TimesOf(calls[..|calls| - 1]);
    }
  }

  /** How many calls with a payload of this kind were admitted. */
  function AdmittedOf(calls: seq<Call>, kind: Payload, limit: nat): nat
  {
    if calls == [] then 0
    else
      var before, last := calls[..|calls| - 1], calls[|calls| - 1];
      AdmittedOf(before, kind, limit)
      + (if last.payload == kind && Admits(TotalsAfter(before, limit).window, last.now, limit) then 1 else 0)
  }

  /** What the counters say of a run: oversized events are counted twice, and malformed ones as if emitted. */
  lemma {:induction false} CountersSay(calls: seq<Call>, limit: nat)
    ensures var t := TotalsAfter(calls, limit);
      && t.emitted + t.dropped == |calls| + AdmittedOf(calls, Oversized, limit)
      && t.emitted == t.delivered + AdmittedOf(calls, Oversized, limit) + AdmittedOf(calls, Malformed, limit)
  {
    hide Emit, Admits;
    if calls != [] {
      CountersSay(calls[..|calls| - 1], limit);
    }
  }

  /** The counters add up to the calls exactly when no oversized event was admitted. */
  lemma CountersAddUp(calls: seq<Call>, limit: nat)
    ensures var t := TotalsAfter(calls, limit);
      t.emitted + t.dropped == |calls| <==> AdmittedOf(calls, Oversized, limit) == 0
  {
    CountersSay(calls, limit);
  }

  lemma OversizedCountsTwice(limit: nat)
    ensures var t := TotalsAfter([Call(0, Oversized)], limit);
      t.emitted == 1 && t.dropped == 1 && t.delivered == 0
  {
    assert [Call(0, Oversized)][..0] == [];
  }

  /** No window admits more than the limit. */
  lemma {:induction false} WindowBound(times: seq<int>, limit: nat)
    requires limit > 0
    ensures After(times, limit).count <= limit
  {
    if times != [] {
      WindowBound(times[..|times| - 1], limit);
    }
  }

  /**
   What the calls so far have admitted of an interval, by where the current window starts: before the interval,
   in it, or after it. `spare` is 1 when the first call opened a window of its own, whose opening call is then
   never in the same interval as the next window.
   */
  predicate Accounted(times: seq<int>, limit: nat, from: int, spare: nat)
  {
    var w, n := After(times, limit), AdmittedIn(times, limit, from);
    && (times == [] || times[|times| - 1] < w.start + WINDOW_MS)
    && (times == [] || w.start <= times[|times| - 1] || (spare == 0 && n <= w.count))
    && (times == [] || times[|times| - 1] < from ==> n == 0)
    && (times != [] && spare == 1 ==> w.count >= 1)
    && (if times == [] then n == 0
        else if w.start < from then n + spare <= w.count
        else if w.start < from + WINDOW_MS then n + spare <= limit + w.count
        else n + spare <= 2 * limit)
  }

  lemma {:induction false} AccountedAlways(times: seq<int>, limit: nat, from: int, spare: nat)
    requires limit > 0 && NonDecreasing(times)
    requires spare == 0 || (spare == 1 && (times != [] ==> times[0] >= WINDOW_MS))
    ensures times != [] ==> Accounted(times, limit, from, spare)
  {
    if |times| == 1 {
      assert times[..0] == [];
    } else if |times| > 1 {
      var before := times[..|times| - 1];
      AccountedAlways(before, limit, from, spare);
      WindowBound(before, limit);
      AccountedStep(before, times[|times| - 1], limit, from, spare);
      assert before + [times[|times| - 1]] == times;
    }
  }

  lemma AccountedStep(before: seq<int>, t: int, limit: nat, from: int, spare: nat)
    requires limit > 0 && before != [] && before[|before| - 1] <= t && spare <= 1
    requires Accounted(before, limit, from, spare) && After(before, limit).count <= limit
    ensures Accounted(before + [t], limit, from, spare)
  {
    var times := before + [t];
    assert times[..|before|] == before;
  }

  /**
   For any non-decreasing clock and any positive limit, no interval of 1000 ms sees more than twice the limit
   admitted; and one fewer when the first call comes no earlier than 1000 ms on the clock, as the window that
   starts at 0 is then never used.
   */
  lemma IntervalBound(times: seq<int>, limit: nat, from: int)
    requires limit > 0 && NonDecreasing(times)
    ensures AdmittedIn(times, limit, from) <= 2 * limit
    ensures times != [] && times[0] >= 1000 ==> AdmittedIn(times, limit, from) <= 2 * limit - 1
  {
    AccountedAlways(times, limit, from, 0);
    WindowBound(times, limit);
    if times != [] && times[0] >= WINDOW_MS {
      AccountedAlways(times, limit, from, 1);
    }
  }

  // ---------- The bounds are reached ----------

  function Times(t: int, n: nat): (r: seq<int>)
    ensures |r| == n
  {
    seq(n, _ => t)
  }

  /** A burst that fits the current window is admitted in full. */
  lemma {:induction false} Burst(before: seq<int>, t: int, n: nat, limit: nat, from: int)
    requires limit > 0 && Rolled(After(before, limit), t).count + n <= limit
    requires from <= t < from + WINDOW_MS
    ensures AdmittedIn(before + Times(t, n), limit, from) == AdmittedIn(before, limit, from) + n
    ensures n > 0 ==> After(before + Times(t, n), limit).start == Rolled(After(before, limit), t).start
    ensures n > 0 ==> After(before + Times(t, n), limit).count == Rolled(After(before, limit), t).count + n
    decreases n
  {
    var times := before + Times(t, n);
    if n == 0 {
      assert times == before;
    } else {
      Burst(before, t, n - 1, limit, from);
      assert times[..|times| - 1] == before + Times(t, n - 1);
      if n == 1 {
        assert before + Times(t, 0) == before;
      }
    }
  }

  /** Calls at 999 ms use the first window, calls at 1000 ms the next. */
  function EarlyBurst(limit: nat): seq<int> { Times(999, limit) + Times(1000, limit) }

  lemma EarlyBurstReaches(limit: nat)
    requires limit > 0
    ensures NonDecreasing(EarlyBurst(limit)) && AdmittedIn(EarlyBurst(limit), limit, 999) == 2 * limit
  {
    hide AdmittedIn, After;
    Burst([], 999, limit, limit, 999) by { EmptyRun(limit, 999); }
    EmptyRun(limit, 999);
    assert [] + Times(999, limit) == Times(999, limit);
    Burst(Times(999, limit), 1000, limit, limit, 999);
  }

  lemma EmptyRun(limit: nat, from: int)
    ensures After([], limit) == INITIAL && AdmittedIn([], limit, from) == 0
  {
  }

  /** One call opens a window at 1000 ms, the rest of it comes at its end, and the next window follows at once. */
  function LateBurst(limit: nat): seq<int>
    requires limit > 0
  {
    [1000] + Times(1999, limit - 1) + Times(2000, limit)
  }

  lemma LateBurstOrdered(limit: nat)
    requires limit > 0
    ensures NonDecreasing(LateBurst(limit)) && LateBurst(limit)[0] == 1000
  {
  }

  lemma LateBurstReaches(limit: nat)
    requires limit > 0
    ensures NonDecreasing(LateBurst(limit)) && LateBurst(limit)[0] == 1000
    ensures AdmittedIn(LateBurst(limit), limit, 1001) == 2 * limit - 1
  {
    hide NonDecreasing, Times;
    LateBurstOrdered(limit);
    var first, middle := [1000], [1000] + Times(1999, limit - 1);
    assert first[..0] == [];
    assert After(first, limit) == Window(1000, 1) && AdmittedIn(first, limit, 1001) == 0;
    hide AdmittedIn, After, Emit;
    Burst(first, 1999, limit - 1, limit, 1001);
    if limit == 1 {
      assert middle == first;
    }
    assert After(middle, limit).start == 1000 && After(middle, limit).count == limit;
    Burst(middle, 2000, limit, limit, 1001);
  }
}
