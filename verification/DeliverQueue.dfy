/**
 The per-client outgoing queue of the IPC server. Any number of threads call deliver at once: each one
 appends to the shared queue under the client's mutex, releases it, swaps the queue out under the mutex
 again, and sends what it got without holding the mutex, in as many send calls as the socket makes it take.
 The two critical sections are the methods of OutQueue; they and the single send calls are the steps of Next.
 */
module DeliverQueue {
  import opened Common

  type Message = seq<Byte>

  const MAX_OUTGOING_QUEUE: nat := 1024

  datatype Admission = Queued(queue: seq<Message>) | Overflowed

  /** The first critical section: a full queue is thrown away and the new message with it. */
  function Admit(queue: seq<Message>, encoded: Message): Admission
  {
    if |queue| >= MAX_OUTGOING_QUEUE then Overflowed else Queued(queue + [encoded + [NEWLINE]])
  }

  class OutQueue {
    var queue: seq<Message>
    var dropped: nat

    constructor ()
      ensures queue == [] && dropped == 0
    {
      queue, dropped := [], 0;
    }

    method Push(encoded: Message) returns (queued: bool)
      modifies this
      ensures queued <==> Admit(old(queue), encoded).Queued?
      ensures queue == if queued then Admit(old(queue), encoded).queue else []
      ensures dropped == if queued then old(dropped) else old(dropped) + 1
    {
      if |queue| >= MAX_OUTGOING_QUEUE {
        queue := [];
        dropped := dropped + 1;
        return false;
      }
      queue := queue + [encoded + [NEWLINE]];
      return true;
    }

    method Swap() returns (batch: seq<Message>)
      modifies this`queue
      ensures batch == old(queue) && queue == []
    {
      batch := [];
      batch, queue := queue, batch;
    }
  }

  // ---------- The interleaved system ----------

  /**
   Where a calling thread is: outside, between the two critical sections, or sending its batch, with some
   messages of it sent and some bytes of the next one.
   */
  datatype Phase = Idle | Pushed | Sending(batch: seq<Message>, sent: nat, offset: nat)

  /** A batch leaves the queue by a swap or by an overflow. */
  datatype Removal = Swapped(batch: seq<Message>) | Cleared(batch: seq<Message>)

  /**
   The client's state, its calling threads, the bytes on the wire, and the history the properties speak about:
   messages accepted, sent to the end, and given up on by a failed send, with what was already sent of them.
   */
  datatype State = State(
    queue: seq<Message>,
    threads: seq<Phase>,
    dropped: nat,
    wire: seq<Byte>,
    accepted: seq<Message>,
    removals: seq<Removal>,
    completed: seq<Message>,
    abandoned: seq<Message>,
    fragments: seq<seq<Byte>>)

  /** A send call fails, or moves at most `count` bytes; an interrupted one moves none. */
  datatype Action =
    | Push(thread: nat, encoded: Message)
    | Swap(thread: nat)
    | Send(thread: nat, count: nat, ok: bool)

  function Init(n: nat): State
  {
    State([], seq(n, _ => Idle), 0, [], [], [], [], [], [])
  }

  predicate Halfway(p: Phase)
  {
    p.Sending? && p.sent < |p.batch| && p.offset < |p.batch[p.sent]|
  }

  predicate Finished(p: Phase)
  {
    p.Sending? && p.sent == |p.batch| && p.offset == 0
  }

  /** RunSound shows that every sending thread is halfway or finished, so a send is enabled for each of them. */
  predicate Enabled(s: State, a: Action)
  {
    && a.thread < |s.threads|
    && match a
       case Push(t, _) => s.threads[t].Idle?
       case Swap(t) => s.threads[t].Pushed?
       case Send(t, _, _) => Halfway(s.threads[t]) || Finished(s.threads[t])
  }

  /** One atomic step of one thread. */
  function Next(s: State, a: Action): State
    requires Enabled(s, a)
  {
    match a
    case Push(t, m) =>
      (match Admit(s.queue, m)
       case Overflowed =>
         s.(queue := [], dropped := s.dropped + 1, removals := s.removals + [Cleared(s.queue)])
       case Queued(queue) =>
         s.(queue := queue, threads := s.threads[t := Pushed], accepted := s.accepted + [m + [NEWLINE]]))
    case Swap(t) =>
      s.(queue := [], threads := s.threads[t := Sending(s.queue, 0, 0)], removals := s.removals + [Swapped(s.queue)])
    case Send(t, count, ok) =>
      var p := s.threads[t];
      if Finished(p) then s.(threads := s.threads[t := Idle])
      else if ok then Sent(s, t, count)
      else
        s.(threads := s.threads[t := Idle], dropped := s.dropped + |p.batch|,
           abandoned := s.abandoned + p.batch[p.sent..],
           fragments := s.fragments + [p.batch[p.sent][..p.offset]])
  }

  /** A send call that moves bytes of the current message, at most as many as asked for and left. */
  function Sent(s: State, t: nat, count: nat): State
    requires t < |s.threads| && Halfway(s.threads[t])
  {
    var p := s.threads[t];
    var m := p.batch[p.sent];
    if p.offset + count < |m| then
      s.(threads := s.threads[t := p.(offset := p.offset + count)], wire := s.wire + m[p.offset..p.offset + count])
    else
      s.(threads := s.threads[t := Sending(p.batch, p.sent + 1, 0)], wire := s.wire + m[p.offset..],
         completed := s.completed + [m])
  }

  /** Any sequence of actions is a run: the ones that are not enabled change nothing. */
  function Exec(n: nat, run: seq<Action>): State
  {
    if run == [] then Init(n)
    else
      var s := Exec(n, run[..|run| - 1]);
      var a := run[|run| - 1];
      if Enabled(s, a) then Next(s, a) else s
  }

  // ---------- Queue bound and overflow ----------

  function Waiting(threads: seq<Phase>): (k: nat)
    ensures k <= |threads|
  {
    if threads == [] then 0
    else Waiting(threads[..|threads| - 1]) + (if threads[|threads| - 1].Pushed? then 1 else 0)
  }

  lemma {:induction false} WaitingUpdate(threads: seq<Phase>, t: nat, p: Phase)
    requires t < |threads|
    ensures Waiting(threads[t := p]) ==
            Waiting(threads) - (if threads[t].Pushed? then 1 else 0) + (if p.Pushed? then 1 else 0)
  {
    var n := |threads| - 1;
    if t < n {
      WaitingUpdate(threads[..n], t, p);
      assert threads[t := p][..n] == threads[..n][t := p];
    } else {
      assert threads[t := p][..n] == threads[..n];
    }
  }

  lemma {:induction false} WaitingLeavesRoom(threads: seq<Phase>, t: nat)
    requires t < |threads| && !threads[t].Pushed?
    ensures Waiting(threads) < |threads|
  {
    if t < |threads| - 1 {
      WaitingLeavesRoom(threads[..|threads| - 1], t);
    }
  }

  lemma {:induction false} NobodyWaits(n: nat)
    ensures Waiting(seq(n, _ => Idle)) == 0
  {
    if n > 0 {
      NobodyWaits(n - 1);
      assert seq(n, _ => Idle)[..n - 1] == seq(n - 1, _ => Idle);
    }
  }

  /** In every state of every run the queue is no longer than the number of threads between push and swap. */
  lemma {:induction false} QueueBound(n: nat, run: seq<Action>)
    ensures |Exec(n, run).threads| == n
    ensures |Exec(n, run).queue| <= Waiting(Exec(n, run).threads)
  {
    if run == [] {
      NobodyWaits(n);
    } else {
      var s, a := Exec(n, run[..|run| - 1]), run[|run| - 1];
      QueueBound(n, run[..|run| - 1]);
      if Enabled(s, a) {
        var s' := Next(s, a);
        if s'.threads != s.threads {
          WaitingUpdate(s.threads, a.thread, s'.threads[a.thread]);
        }
      }
    }
  }

  predicate HasOverflowed(s: State)
  {
    exists i :: 0 <= i < |s.removals| && s.removals[i].Cleared?
  }

  /** With at most as many callers as the queue holds, the overflow branch is never taken. */
  lemma {:induction false} NoOverflow(n: nat, run: seq<Action>)
    requires n <= 1024
    ensures !HasOverflowed(Exec(n, run))
  {
    if run != [] {
      var s, a := Exec(n, run[..|run| - 1]), run[|run| - 1];
      NoOverflow(n, run[..|run| - 1]);
      if Enabled(s, a) && a.Push? {
        QueueBound(n, run[..|run| - 1]);
        WaitingLeavesRoom(s.threads, a.thread);
      }
    }
  }

  /** k threads push one after the other. */
  function Burst(k: nat): (run: seq<Action>)
    ensures |run| == k
  {
    seq(k, i requires 0 <= i < k => Push(i, []))
  }

  lemma {:induction false} BurstFills(n: nat, k: nat)
    requires k <= n && k <= MAX_OUTGOING_QUEUE
    ensures var s := Exec(n, Burst(k));
            && |s.threads| == n && |s.queue| == |s.accepted| == k && s.dropped == 0
            && forall t :: k <= t < n ==> s.threads[t].Idle?
  {
    if k > 0 {
      BurstFills(n, k - 1);
      assert Burst(k)[..k - 1] == Burst(k - 1);
    }
  }

  /** One caller more and it can be: a full queue and the new message are lost, and the counter says one. */
  lemma OverflowHappens(n: nat)
    requires n > 1024
    ensures var s := Exec(n, Burst(1025));
            HasOverflowed(s) && |s.accepted| == 1024 && s.dropped == 1 && s.queue == []
  {
    var k := MAX_OUTGOING_QUEUE;
    BurstFills(n, k);
    assert Burst(k + 1)[..k] == Burst(k);
    var s := Exec(n, Burst(k + 1));
    assert s.removals[|s.removals| - 1].Cleared?;
  }

  /** The exact number of callers at which messages can be thrown away. */
  lemma OverflowReachable(n: nat)
    ensures (exists run :: HasOverflowed(Exec(n, run))) <==> n > 1024
  {
    if n > MAX_OUTGOING_QUEUE {
      OverflowHappens(n);
    } else {
      forall run: seq<Action> ensures !HasOverflowed(Exec(n, run)) {
        NoOverflow(n, run);
      }
    }
  }

  // ---------- Conservation ----------

  function Removed(removals: seq<Removal>): seq<Message>
  {
    if removals == [] then [] else Removed(removals[..|removals| - 1]) + removals[|removals| - 1].batch
  }

  /**
   The batches in the order they left the queue, followed by the queue, are the accepted messages in the
   order they were accepted: nothing is lost, duplicated or reordered inside the queue, for any number of callers.
   */
  lemma {:induction false} Conservation(n: nat, run: seq<Action>)
    ensures var s := Exec(n, run);
            Removed(s.removals) + s.queue == s.accepted
  {
    if run != [] {
      var s, a := Exec(n, run[..|run| - 1]), run[|run| - 1];
      Conservation(n, run[..|run| - 1]);
      if Enabled(s, a) {
        var s' := Next(s, a);
        if |s'.removals| > |s.removals| {
          assert s'.removals[..|s.removals|] == s.removals;
        }
      }
    }
  }

  function Occurs(messages: seq<Message>, m: Message): nat
  {
    multiset(messages)[m]
  }

  /** How often the sending threads have yet to send m to its end. */
  function InFlight(threads: seq<Phase>, m: Message): nat
  {
    if threads == [] then 0
    else InFlight(threads[..|threads| - 1], m) + Unsent(threads[|threads| - 1], m)
  }

  function Unsent(p: Phase, m: Message): nat
  {
    if p.Sending? && p.sent <= |p.batch| then Occurs(p.batch[p.sent..], m) else 0
  }

  lemma {:induction false} InFlightUpdate(threads: seq<Phase>, t: nat, p: Phase, m: Message)
    requires t < |threads|
    ensures InFlight(threads[t := p], m) == InFlight(threads, m) - Unsent(threads[t], m) + Unsent(p, m)
  {
    hide Unsent;
    var n := |threads| - 1;
    if t < n {
      InFlightUpdate(threads[..n], t, p, m);
      assert threads[t := p][..n] == threads[..n][t := p];
    } else {
      assert threads[t := p][..n] == threads[..n];
    }
  }

  lemma {:induction false} NothingInFlight(n: nat, m: Message)
    ensures InFlight(seq(n, _ => Idle), m) == 0
  {
    if n > 0 {
      NothingInFlight(n - 1, m);
      assert seq(n, _ => Idle)[..n - 1] == seq(n - 1, _ => Idle);
    }
  }

  function Discarded(removals: seq<Removal>, m: Message): nat
  {
    if removals == [] then 0
    else
      var last := removals[|removals| - 1];
      Discarded(removals[..|removals| - 1], m) + (if last.Cleared? then Occurs(last.batch, m) else 0)
  }

  /** How often m is found over all the places a message can be. */
  function Found(s: State, m: Message): nat
  {
    Occurs(s.completed, m) + InFlight(s.threads, m) + Occurs(s.queue, m) + Occurs(s.abandoned, m)
    + Discarded(s.removals, m)
  }

  /**
   At every moment of every run each accepted message is in exactly one place: sent to its end, in the hands
   of a sending thread, in the queue, abandoned by a failed send, or discarded by an overflow.
   */
  lemma {:induction false} EveryMessageAccountedFor(n: nat, run: seq<Action>, m: Message)
    ensures Occurs(Exec(n, run).accepted, m) == Found(Exec(n, run), m)
  {
    if run == [] {
      NothingInFlight(n, m);
    } else {
      var s, a := Exec(n, run[..|run| - 1]), run[|run| - 1];
      EveryMessageAccountedFor(n, run[..|run| - 1], m);
      if Enabled(s, a) {
        hide Found, Next, Enabled;
        FoundStep(s, a, m);
      }
    }
  }

  lemma FoundStep(s: State, a: Action, m: Message)
    requires Enabled(s, a)
    ensures Occurs(Next(s, a).accepted, m) - Occurs(s.accepted, m) == Found(Next(s, a), m) - Found(s, m)
  {
    hide InFlight;
    var t, s' := a.thread, Next(s, a);
    match a
    case Push(_, _) =>
      if Admit(s.queue, a.encoded).Queued? {
        InFlightUpdate(s.threads, t, Phase.Pushed, m);
      } else {
        assert s'.removals[..|s.removals|] == s.removals;
      }
    case Swap(_) =>
      InFlightUpdate(s.threads, t, s'.threads[t], m);
      assert s'.removals[..|s.removals|] == s.removals;
      assert s.queue[0..] == s.queue;
    case Send(_, _, _) =>
      FoundSend(s, a, m);
  }

  lemma FoundSend(s: State, a: Action, m: Message)
    requires Enabled(s, a) && a.Send?
    ensures Found(Next(s, a), m) == Found(s, m)
  {
    hide InFlight, Discarded;
    var s', p := Next(s, a), s.threads[a.thread];
    InFlightUpdate(s.threads, a.thread, s'.threads[a.thread], m);
    if Halfway(p) {
      assert p.batch[p.sent..] == [p.batch[p.sent]] + p.batch[p.sent + 1..];
    } else {
      assert p.batch[p.sent..] == [];
    }
  }

  predicate AllIdle(threads: seq<Phase>)
  {
    forall t :: 0 <= t < |threads| ==> threads[t].Idle?
  }

  lemma {:induction false} IdleThreads(threads: seq<Phase>, m: Message)
    requires AllIdle(threads)
    ensures Waiting(threads) == 0 && InFlight(threads, m) == 0
  {
    if threads != [] {
      IdleThreads(threads[..|threads| - 1], m);
    }
  }

  /** No message is left behind: whenever no call is in progress the queue is empty, for any number of callers. */
  lemma NothingStranded(n: nat, run: seq<Action>)
    requires AllIdle(Exec(n, run).threads)
    ensures Exec(n, run).queue == []
  {
    QueueBound(n, run);
    IdleThreads(Exec(n, run).threads, []);
  }

  /** The messages handed to deliver, as the wire should carry them, in the order the calls got the mutex. */
  function Offered(n: nat, run: seq<Action>): seq<Message>
  {
    if run == [] then []
    else
      var a := run[|run| - 1];
      var before := Offered(n, run[..|run| - 1]);
      if a.Push? && Enabled(Exec(n, run[..|run| - 1]), a) then before + [a.encoded + [NEWLINE]] else before
  }

  predicate NoSendFails(run: seq<Action>)
  {
    forall i :: 0 <= i < |run| && run[i].Send? ==> run[i].ok
  }

  lemma {:induction false} AllAccepted(n: nat, run: seq<Action>)
    requires n <= 1024
    ensures Exec(n, run).accepted == Offered(n, run)
    ensures NoSendFails(run) ==>
      Exec(n, run).abandoned == [] && Exec(n, run).fragments == [] && Exec(n, run).dropped == 0
  {
    if run != [] {
      var s, a := Exec(n, run[..|run| - 1]), run[|run| - 1];
      AllAccepted(n, run[..|run| - 1]);
      if Enabled(s, a) && a.Push? {
        QueueBound(n, run[..|run| - 1]);
        WaitingLeavesRoom(s.threads, a.thread);
      }
    }
  }

  lemma {:induction false} NothingDiscarded(removals: seq<Removal>, m: Message)
    requires forall i :: 0 <= i < |removals| ==> removals[i].Swapped?
    ensures Discarded(removals, m) == 0
  {
    if removals != [] {
      NothingDiscarded(removals[..|removals| - 1], m);
    }
  }

  /**
   Up to 1024 callers and no failing send: once every call has returned, each message handed to deliver has
   been sent to its end exactly as often as it was handed over, and the drop counter is zero.
   */
  lemma DeliveredExactlyOnce(n: nat, run: seq<Action>, m: Message)
    requires n <= 1024 && NoSendFails(run) && AllIdle(Exec(n, run).threads)
    ensures Occurs(Exec(n, run).completed, m) == Occurs(Offered(n, run), m)
    ensures Exec(n, run).dropped == 0
  {
    var s := Exec(n, run);
    EveryMessageAccountedFor(n, run, m);
    AllAccepted(n, run);
    NothingStranded(n, run);
    IdleThreads(s.threads, m);
    NoOverflow(n, run);
    NothingDiscarded(s.removals, m);
  }

  // ---------- Every sending thread can go on ----------

  /** Messages end in their newline, so none is empty. */
  predicate AllEnded(messages: seq<Message>)
  {
    forall i :: 0 <= i < |messages| ==> messages[i] != [] && messages[i][|messages[i]| - 1] == NEWLINE
  }

  predicate PhaseSound(p: Phase)
  {
    p.Sending? ==> (Halfway(p) || Finished(p)) && AllEnded(p.batch)
  }

  predicate Sound(s: State)
  {
    && AllEnded(s.queue) && AllEnded(s.accepted)
    && (forall t :: 0 <= t < |s.threads| ==> PhaseSound(s.threads[t]))
  }

  lemma SoundStep(s: State, a: Action)
    requires Sound(s) && Enabled(s, a)
    ensures Sound(Next(s, a))
  {
  }

  /** In every reachable state a sending thread is halfway through a message or finished: the loop never gets stuck. */
  lemma {:induction false} RunSound(n: nat, run: seq<Action>)
    ensures Sound(Exec(n, run))
  {
    if run != [] {
      var s, a := Exec(n, run[..|run| - 1]), run[|run| - 1];
      RunSound(n, run[..|run| - 1]);
      if Enabled(s, a) {
        hide Sound, Next, Enabled;
        SoundStep(s, a);
      }
    }
  }

  // ---------- Conservation of bytes ----------

  function Count(bytes: seq<Byte>, b: Byte): nat
  {
    multiset(bytes)[b]
  }

  /** What the sending threads have put on the wire of messages not yet sent to their end. */
  function Begun(threads: seq<Phase>, b: Byte): nat
  {
    if threads == [] then 0
    else Begun(threads[..|threads| - 1], b) + Part(threads[|threads| - 1], b)
  }

  function Part(p: Phase, b: Byte): nat
  {
    if Halfway(p) then Count(p.batch[p.sent][..p.offset], b) else 0
  }

  lemma {:induction false} BegunUpdate(threads: seq<Phase>, t: nat, p: Phase, b: Byte)
    requires t < |threads|
    ensures Begun(threads[t := p], b) == Begun(threads, b) - Part(threads[t], b) + Part(p, b)
  {
    hide Part;
    var n := |threads| - 1;
    if t < n {
      BegunUpdate(threads[..n], t, p, b);
      assert threads[t := p][..n] == threads[..n][t := p];
    } else {
      assert threads[t := p][..n] == threads[..n];
    }
  }

  lemma {:induction false} NothingBegun(n: nat, b: Byte)
    ensures Begun(seq(n, _ => Idle), b) == 0
  {
    if n > 0 {
      NothingBegun(n - 1, b);
      assert seq(n, _ => Idle)[..n - 1] == seq(n - 1, _ => Idle);
    }
  }

  lemma ConcatSnoc(messages: seq<Message>, m: Message)
    ensures Concat(messages + [m]) == Concat(messages) + m
  {
    assert (messages + [m])[..|messages|] == messages;
  }

  function ByteSum(s: State, b: Byte): nat
  {
    Count(Concat(s.completed), b) + Count(Concat(s.fragments), b) + Begun(s.threads, b)
  }

  lemma NotBegun(p: Phase, b: Byte)
    requires p.Sending? ==> p.offset == 0
    ensures Part(p, b) == 0
  {
  }

  lemma ByteSent(s: State, t: nat, count: nat, b: Byte)
    requires t < |s.threads| && Halfway(s.threads[t])
    ensures Count(Sent(s, t, count).wire, b) - Count(s.wire, b) == ByteSum(Sent(s, t, count), b) - ByteSum(s, b)
  {
    hide Begun, Concat;
    var p, s' := s.threads[t], Sent(s, t, count);
    var m := p.batch[p.sent];
    BegunUpdate(s.threads, t, s'.threads[t], b);
    if p.offset + count < |m| {
      assert m[..p.offset + count] == m[..p.offset] + m[p.offset..p.offset + count];
    } else {
      ConcatSnoc(s.completed, m);
      NotBegun(s'.threads[t], b);
      assert m == m[..p.offset] + m[p.offset..];
    }
  }

  lemma ByteFailed(s: State, t: nat, count: nat, b: Byte)
    requires t < |s.threads| && Halfway(s.threads[t])
    ensures Next(s, Send(t, count, false)).wire == s.wire
    ensures ByteSum(Next(s, Send(t, count, false)), b) == ByteSum(s, b)
  {
    hide Begun, Concat, Sent;
    var p := s.threads[t];
    BegunUpdate(s.threads, t, Idle, b);
    ConcatSnoc(s.fragments, p.batch[p.sent][..p.offset]);
  }

  lemma ByteStep(s: State, a: Action, b: Byte)
    requires Enabled(s, a)
    ensures Count(Next(s, a).wire, b) - Count(s.wire, b) == ByteSum(Next(s, a), b) - ByteSum(s, b)
  {
    hide Concat, Begun, Sent, Count;
    var t, s' := a.thread, Next(s, a);
    if a.Send? && Halfway(s.threads[t]) {
      if a.ok {
        ByteSent(s, t, a.count, b);
      } else {
        ByteFailed(s, t, a.count, b);
      }
    } else if s'.threads != s.threads {
      BegunUpdate(s.threads, t, s'.threads[t], b);
      NotBegun(s.threads[t], b);
      NotBegun(s'.threads[t], b);
    }
  }

  /**
   Every byte on the wire is one of a message sent to its end, of a message in the hands of a sending thread,
   or of one a failed send cut off, and all of those bytes are on the wire.
   */
  lemma {:induction false} ByteConservation(n: nat, run: seq<Action>, b: Byte)
    ensures Count(Exec(n, run).wire, b) == ByteSum(Exec(n, run), b)
  {
    if run == [] {
      NothingBegun(n, b);
    } else {
      var s, a := Exec(n, run[..|run| - 1]), run[|run| - 1];
      ByteConservation(n, run[..|run| - 1], b);
      if Enabled(s, a) {
        hide ByteSum, Next, Enabled, Count;
        ByteStep(s, a, b);
      }
    }
  }
}
