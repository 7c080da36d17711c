/**
 What the client of a delivery queue reads. The bytes of concurrent deliveries meet on one socket, and the
 client splits them at newlines; whether its frames are the messages delivered depends on how many threads
 deliver and on how the socket answers.
 */
module DeliverWire {
  import opened Common
  import opened DeliverQueue
  import Framing

  /** How a socket may answer: whole messages or nothing, parts of them, or also a failure after a part. */
  datatype Socket = TakesAll | TakesSome | FailsMidway

  predicate SendAllowed(socket: Socket, p: Phase, count: nat, ok: bool)
  {
    Halfway(p) ==>
      match socket
      case TakesAll => !ok || count == 0 || count >= |p.batch[p.sent]|
      case TakesSome => ok || p.offset == 0
      case FailsMidway => true
  }

  /** The socket answers as it may, and callers deliver one line at a time. */
  predicate StepAllowed(socket: Socket, s: State, a: Action)
  {
    Enabled(s, a) ==>
      match a
      case Push(_, m) => Framing.NewlineFree(m)
      case Swap(_) => true
      case Send(t, count, ok) => SendAllowed(socket, s.threads[t], count, ok)
  }

  predicate Allowed(socket: Socket, n: nat, run: seq<Action>)
  {
    run == [] ||
    (Allowed(socket, n, run[..|run| - 1]) && StepAllowed(socket, Exec(n, run[..|run| - 1]), run[|run| - 1]))
  }

  // ---------- Lines and frames ----------

  predicate IsLine(m: Message)
  {
    m != [] && m[|m| - 1] == 10 && Framing.NewlineFree(m[..|m| - 1])
  }

  predicate AllLines(messages: seq<Message>)
  {
    forall i :: 0 <= i < |messages| ==> IsLine(messages[i])
  }

  function Body(m: Message): Message
  {
    if m == [] then [] else m[..|m| - 1]
  }

  /** The messages as their senders gave them, without the newline. */
  function Bodies(messages: seq<Message>): (r: seq<Message>)
    ensures |r| == |messages|
  {
    seq(|messages|, i requires 0 <= i < |messages| => Body(messages[i]))
  }

  lemma BodiesOfLast(messages: seq<Message>)
    requires messages != []
    ensures Bodies(messages) == Bodies(messages[..|messages| - 1]) + [Body(messages[|messages| - 1])]
  {
  }

  lemma {:induction false} JoinBodies(messages: seq<Message>, part: seq<Byte>)
    requires AllLines(messages)
    ensures Framing.Join(Bodies(messages), part) == Concat(messages) + part
  {
    hide Framing.Join, Body;
    if messages == [] {
      assert Framing.Join([], part) == part by { OneJoin([], part); }
    } else {
      var n := |messages| - 1;
      var m := messages[n];
      BodiesOfLast(messages);
      JoinBodies(messages[..n], m + part);
      Framing.JoinAppend(Bodies(messages[..n]), [Body(m)], part);
      OneJoin(m, part);
      assert Concat(messages[..n]) + (m + part) == Concat(messages) + part;
    }
  }

  lemma OneJoin(m: Message, part: seq<Byte>)
    ensures Framing.Join([], part) == part
    ensures IsLine(m) ==> Framing.Join([Body(m)], part) == m + part
  {
    assert Framing.Join([Body(m)], part) == Body(m) + [NEWLINE] + part by {
      assert [Body(m)][1..] == [];
    }
    if IsLine(m) {
      assert m == Body(m) + [NEWLINE];
    }
  }

  /** Whole lines followed by part of one are read as those lines and that part. */
  lemma ClientReads(messages: seq<Message>, part: seq<Byte>)
    requires AllLines(messages) && Framing.NewlineFree(part)
    ensures Framing.Frames(Concat(messages) + part) == Bodies(messages)
    ensures Framing.Tail(Concat(messages) + part) == part
  {
    hide Framing.Frames, Framing.Tail, Framing.Join, Concat;
    JoinBodies(messages, part);
    forall i | 0 <= i < |messages| ensures Framing.NewlineFree(Bodies(messages)[i]) {
      assert IsLine(messages[i]);
    }
    Framing.SplitJoin(Bodies(messages), part);
  }

  lemma BodyDecides(m: Message, f: Message)
    requires m != [] && m[|m| - 1] == NEWLINE
    ensures Body(m) == f <==> m == f + [NEWLINE]
  {
    assert m == Body(m) + [NEWLINE];
    assert Body(f + [NEWLINE]) == f;
  }

  lemma {:induction false} BodyCount(messages: seq<Message>, f: Message)
    requires AllEnded(messages)
    ensures Occurs(Bodies(messages), f) == Occurs(messages, f + [NEWLINE])
  {
    hide Body, Bodies;
    if messages == [] {
      assert Bodies(messages) == [];
    } else {
      var n := |messages| - 1;
      BodyCount(messages[..n], f);
      BodiesOfLast(messages);
      assert messages == messages[..n] + [messages[n]];
      BodyDecides(messages[n], f);
    }
  }

  lemma {:induction false} AcceptedLines(socket: Socket, n: nat, run: seq<Action>)
    requires Allowed(socket, n, run)
    ensures AllLines(Exec(n, run).accepted)
  {
    hide SendAllowed;
    if run != [] {
      var s, a := Exec(n, run[..|run| - 1]), run[|run| - 1];
      AcceptedLines(socket, n, run[..|run| - 1]);
      if Enabled(s, a) && a.Push? {
        assert (a.encoded + [NEWLINE])[..|a.encoded|] == a.encoded;
      }
    }
  }

  lemma CompletedAccepted(n: nat, run: seq<Action>, m: Message)
    ensures Occurs(Exec(n, run).completed, m) + InFlight(Exec(n, run).threads, m) <= Occurs(Exec(n, run).accepted, m)
  {
    hide Exec, InFlight, Occurs, Discarded;
    EveryMessageAccountedFor(n, run, m);
  }

  lemma CompletedLines(n: nat, run: seq<Action>)
    requires AllLines(Exec(n, run).accepted)
    ensures AllLines(Exec(n, run).completed)
  {
    hide Exec, IsLine, InFlight;
    var s := Exec(n, run);
    forall i | 0 <= i < |s.completed| ensures IsLine(s.completed[i]) {
      CompletedAccepted(n, run, s.completed[i]);
      assert s.completed[i] in multiset(s.accepted);
    }
  }

  // ---------- Frames that are messages ----------

  /** Every frame the client reads is a message that was delivered, and no more often than it was. */
  predicate ReadsMessages(s: State)
  {
    multiset(Framing.Frames(s.wire)) <= multiset(Bodies(s.accepted))
  }

  predicate ReadsInOrder(s: State)
  {
    Subsequence(Framing.Frames(s.wire), Bodies(s.accepted))
  }

  lemma ReadsCompleted(n: nat, run: seq<Action>, part: seq<Byte>)
    requires AllLines(Exec(n, run).accepted)
    requires Exec(n, run).wire == Concat(Exec(n, run).completed) + part && Framing.NewlineFree(part)
    ensures Framing.Frames(Exec(n, run).wire) == Bodies(Exec(n, run).completed)
    ensures ReadsMessages(Exec(n, run))
  {
    hide Exec, Framing.Frames, Concat, Bodies, IsLine;
    var s := Exec(n, run);
    CompletedLines(n, run);
    ClientReads(s.completed, part);
    LinesEnd(s.completed);
    LinesEnd(s.accepted);
    forall f: Message ensures multiset(Bodies(s.completed))[f] <= multiset(Bodies(s.accepted))[f] {
      BodyCount(s.completed, f);
      BodyCount(s.accepted, f);
      CompletedAccepted(n, run, f + [NEWLINE]);
    }
  }

  lemma LinesEnd(messages: seq<Message>)
    requires AllLines(messages)
    ensures AllEnded(messages)
  {
    forall i | 0 <= i < |messages| ensures messages[i] != [] && messages[i][|messages[i]| - 1] == NEWLINE {
      assert IsLine(messages[i]);
    }
  }

  // ---------- A socket that takes whole messages ----------

  predicate Unbroken(s: State)
  {
    && s.wire == Concat(s.completed)
    && (forall t :: 0 <= t < |s.threads| && s.threads[t].Sending? ==> s.threads[t].offset == 0)
  }

  lemma UnbrokenStep(s: State, a: Action)
    requires Unbroken(s) && Enabled(s, a) && StepAllowed(TakesAll, s, a)
    ensures Unbroken(Next(s, a))
  {
    hide Concat;
    if a.Send? && Halfway(s.threads[a.thread]) && a.ok {
      var p := s.threads[a.thread];
      var m := p.batch[p.sent];
      ConcatSnoc(s.completed, m);
      assert m[0..] == m && m[0..0] == [];
    }
  }

  lemma {:induction false} UnbrokenRun(n: nat, run: seq<Action>)
    requires Allowed(TakesAll, n, run)
    ensures Unbroken(Exec(n, run))
  {
    if run != [] {
      var s, a := Exec(n, run[..|run| - 1]), run[|run| - 1];
      UnbrokenRun(n, run[..|run| - 1]);
      if Enabled(s, a) {
        hide Unbroken, Next, Enabled, StepAllowed;
        UnbrokenStep(s, a);
      }
    }
  }

  // ---------- A single delivering thread ----------

  predicate Subsequence(a: seq<Message>, b: seq<Message>)
  {
    if a == [] then true
    else if b == [] then false
    else if a[|a| - 1] == b[|b| - 1] then Subsequence(a[..|a| - 1], b[..|b| - 1])
    else Subsequence(a, b[..|b| - 1])
  }

  lemma {:induction false} DropLast(a: seq<Message>, b: seq<Message>)
    requires a != [] && Subsequence(a, b)
    ensures Subsequence(a[..|a| - 1], b)
    decreases |b|, 0
  {
    var b' := b[..|b| - 1];
    if a[|a| - 1] != b[|b| - 1] {
      DropLast(a, b');
    }
    Widen(a[..|a| - 1], b', b[|b| - 1]);
    assert b' + [b[|b| - 1]] == b;
  }

  lemma {:induction false} Widen(a: seq<Message>, b: seq<Message>, x: Message)
    requires Subsequence(a, b)
    ensures Subsequence(a, b + [x])
    decreases |b|, 1
  {
    assert (b + [x])[..|b|] == b;
    if a != [] && a[|a| - 1] == x {
      DropLast(a, b);
    }
  }

  lemma AppendBoth(a: seq<Message>, b: seq<Message>, x: Message)
    requires Subsequence(a, b)
    ensures Subsequence(a + [x], b + [x])
  {
    assert (a + [x])[..|a|] == a && (b + [x])[..|b|] == b;
  }

  lemma {:induction false} KeepPrefix(a: seq<Message>, b: seq<Message>, k: nat)
    requires k <= |a| && Subsequence(a, b)
    ensures Subsequence(a[..k], b)
  {
    if k < |a| {
      DropLast(a, b);
      KeepPrefix(a[..|a| - 1], b, k);
      assert a[..|a| - 1][..k] == a[..k];
    } else {
      assert a[..k] == a;
    }
  }

  lemma {:induction false} SubsequenceOfBodies(a: seq<Message>, b: seq<Message>)
    requires Subsequence(a, b) && AllEnded(a) && AllEnded(b)
    ensures Subsequence(Bodies(a), Bodies(b))
    decreases |b|
  {
    if a != [] {
      var x, y := a[|a| - 1], b[|b| - 1];
      BodiesOfLast(a);
      BodiesOfLast(b);
      assert Bodies(a)[..|a| - 1] == Bodies(a[..|a| - 1]) && Bodies(b)[..|b| - 1] == Bodies(b[..|b| - 1]);
      assert x == Body(x) + [NEWLINE] && y == Body(y) + [NEWLINE];
      SubsequenceOfBodies(if x == y then a[..|a| - 1] else a, b[..|b| - 1]);
    }
  }

  lemma {:induction false} SubsequenceIsShorter(a: seq<Message>, b: seq<Message>)
    requires Subsequence(a, b)
    ensures |a| <= |b| && (|a| == |b| ==> a == b)
    decreases |b|
  {
    if a != [] {
      SubsequenceIsShorter(if a[|a| - 1] == b[|b| - 1] then a[..|a| - 1] else a, b[..|b| - 1]);
      assert a == a[..|a| - 1] + [a[|a| - 1]] && b == b[..|b| - 1] + [b[|b| - 1]];
    }
  }

  /** The part of a message a thread has sent so far. */
  function Piece(p: Phase): seq<Byte>
  {
    if Halfway(p) then p.batch[p.sent][..p.offset] else []
  }

  /** What a single thread still has to send. */
  function Remaining(s: State): seq<Message>
  {
    if s.threads == [] then []
    else match s.threads[0]
      case Idle => []
      case Pushed => s.queue
      case Sending(batch, sent, _) => if sent <= |batch| then batch[sent..] else []
  }

  function Pending(s: State): seq<Byte>
  {
    if s.threads == [] then [] else Piece(s.threads[0])
  }

  /** With a single calling thread: the wire is whole messages and a piece, in acceptance order. */
  predicate Solo(s: State)
  {
    && |s.threads| <= 1
    && (s.threads == [] || !s.threads[0].Pushed? ==> s.queue == [])
    && s.wire == Concat(s.completed) + Pending(s)
    && Subsequence(s.completed + Remaining(s), s.accepted)
  }

  lemma SoloSendsPart(s: State, count: nat)
    requires Solo(s) && |s.threads| == 1 && Halfway(s.threads[0])
    requires s.threads[0].offset + count < |s.threads[0].batch[s.threads[0].sent]|
    ensures Solo(Sent(s, 0, count))
  {
    hide Concat, Subsequence;
    var p, s' := s.threads[0], Sent(s, 0, count);
    var m := p.batch[p.sent];
    assert Remaining(s') == Remaining(s);
    assert m[..p.offset + count] == m[..p.offset] + m[p.offset..p.offset + count];
    assert Concat(s.completed) + m[..p.offset] + m[p.offset..p.offset + count] ==
      Concat(s.completed) + m[..p.offset + count];
  }

  lemma SoloSendsRest(s: State, count: nat)
    requires Solo(s) && |s.threads| == 1 && Halfway(s.threads[0])
    requires s.threads[0].offset + count >= |s.threads[0].batch[s.threads[0].sent]|
    ensures Solo(Sent(s, 0, count))
  {
    hide Concat, Subsequence;
    var p, s' := s.threads[0], Sent(s, 0, count);
    var m := p.batch[p.sent];
    ConcatSnoc(s.completed, m);
    assert m == m[..p.offset] + m[p.offset..];
    assert Concat(s.completed) + m[..p.offset] + m[p.offset..] == Concat(s'.completed) + Pending(s');
    assert s.completed + Remaining(s) == s'.completed + Remaining(s');
  }

  lemma SoloPush(s: State, m: Message)
    requires Solo(s) && Enabled(s, Push(0, m))
    ensures Solo(Next(s, Push(0, m)))
  {
    hide Concat, Subsequence;
    var s' := Next(s, Push(0, m));
    assert s.completed + Remaining(s) == s.completed;
    AppendBoth(s.completed, s.accepted, m + [NEWLINE]);
    assert Remaining(s') == [m + [NEWLINE]];
  }

  lemma SoloSwap(s: State)
    requires Solo(s) && Enabled(s, Swap(0))
    ensures Solo(Next(s, Swap(0)))
  {
    hide Concat, Subsequence;
    assert s.queue[0..] == s.queue;
  }

  lemma SoloReturns(s: State, a: Action)
    requires Solo(s) && Enabled(s, a) && a.Send?
    requires Finished(s.threads[0]) || (!a.ok && s.threads[0].offset == 0)
    ensures Solo(Next(s, a))
  {
    hide Concat, Subsequence, Sent;
    KeepPrefix(s.completed + Remaining(s), s.accepted, |s.completed|);
    assert (s.completed + Remaining(s))[..|s.completed|] == s.completed + [];
    assert Pending(s) == [];
  }

  lemma SoloStep(s: State, a: Action)
    requires Solo(s) && Enabled(s, a)
    requires a.Send? && !a.ok ==> s.threads[a.thread].offset == 0
    ensures Solo(Next(s, a))
  {
    hide Solo, Sent;
    assert |s.threads| == 1 by { SoloThreads(s); }
    match a
    case Push(_, m) => SoloPush(s, m);
    case Swap(_) => SoloSwap(s);
    case Send(_, count, ok) =>
      if Finished(s.threads[0]) || !ok {
        SoloReturns(s, a);
      } else if s.threads[0].offset + count < |s.threads[0].batch[s.threads[0].sent]| {
        SoloSendsPart(s, count);
      } else {
        SoloSendsRest(s, count);
      }
  }

  lemma SoloThreads(s: State)
    requires Solo(s)
    ensures |s.threads| <= 1
  {
  }

  lemma {:induction false} SoloRun(socket: Socket, n: nat, run: seq<Action>)
    requires n <= 1 && !socket.FailsMidway? && Allowed(socket, n, run)
    ensures Solo(Exec(n, run))
  {
    if run != [] {
      var s, a := Exec(n, run[..|run| - 1]), run[|run| - 1];
      SoloRun(socket, n, run[..|run| - 1]);
      if Enabled(s, a) {
        hide Solo, Next, Unbroken;
        if socket.TakesAll? {
          UnbrokenRun(n, run[..|run| - 1]);
          if a.Send? {
            UnbrokenOffset(s, a);
          }
        }
        SoloStep(s, a);
      }
    }
  }

  lemma UnbrokenOffset(s: State, a: Action)
    requires Unbroken(s) && Enabled(s, a) && a.Send?
    ensures s.threads[a.thread].offset == 0
  {
  }

  // ---------- Witness runs ----------

  /** A reachable state with an empty queue, as far as the witnesses look at it. */
  predicate Stands(socket: Socket, n: nat, run: seq<Action>,
                   threads: seq<Phase>, accepted: seq<Message>, wire: seq<Byte>)
  {
    var s := Exec(n, run);
    Allowed(socket, n, run) && s.queue == [] && s.threads == threads && s.accepted == accepted && s.wire == wire
  }

  lemma ExecMore(n: nat, run: seq<Action>, a: Action)
    requires Enabled(Exec(n, run), a)
    ensures Exec(n, run + [a]) == Next(Exec(n, run), a)
    ensures forall socket :: Allowed(socket, n, run + [a]) <==>
      Allowed(socket, n, run) && StepAllowed(socket, Exec(n, run), a)
  {
    assert (run + [a])[..|run|] == run;
  }

  lemma TakesUp(socket: Socket, n: nat, run: seq<Action>, threads: seq<Phase>, accepted: seq<Message>, wire: seq<Byte>,
                t: nat, m: Message)
    requires Stands(socket, n, run, threads, accepted, wire)
    requires t < |threads| && threads[t].Idle? && Framing.NewlineFree(m)
    ensures Stands(socket, n, run + [Push(t, m)] + [Swap(t)], threads[t := Sending([m + [NEWLINE]], 0, 0)],
                   accepted + [m + [NEWLINE]], wire)
  {
    hide Exec, Allowed;
    ExecMore(n, run, Push(t, m));
    assert Exec(n, run + [Push(t, m)]).queue == [m + [NEWLINE]];
    ExecMore(n, run + [Push(t, m)], Swap(t));
    assert threads[t := Pushed][t := Sending([m + [NEWLINE]], 0, 0)] == threads[t := Sending([m + [NEWLINE]], 0, 0)];
  }

  lemma SendsPart(socket: Socket, n: nat, run: seq<Action>, threads: seq<Phase>, accepted: seq<Message>,
                  wire: seq<Byte>,
                  t: nat, m: Message, count: nat)
    requires Stands(socket, n, run, threads, accepted, wire) && !socket.TakesAll?
    requires t < |threads| && threads[t] == Sending([m], 0, 0) && count < |m|
    ensures Stands(socket, n, run + [Send(t, count, true)], threads[t := Sending([m], 0, count)], accepted,
                   wire + m[..count])
  {
    hide Exec, Allowed;
    ExecMore(n, run, Send(t, count, true));
    assert m[0..count] == m[..count];
  }

  lemma SendsRest(socket: Socket, n: nat, run: seq<Action>, threads: seq<Phase>, accepted: seq<Message>,
                  wire: seq<Byte>,
                  t: nat, m: Message, offset: nat)
    requires Stands(socket, n, run, threads, accepted, wire) && (!socket.TakesAll? || offset == 0)
    requires t < |threads| && threads[t] == Sending([m], 0, offset) && offset < |m|
    ensures Stands(socket, n, run + [Send(t, |m| - offset, true)], threads[t := Sending([m], 1, 0)], accepted,
                   wire + m[offset..])
  {
    hide Exec, Allowed;
    ExecMore(n, run, Send(t, |m| - offset, true));
  }

  lemma FailsHalfway(n: nat, run: seq<Action>, threads: seq<Phase>, accepted: seq<Message>, wire: seq<Byte>,
                     t: nat, m: Message, offset: nat)
    requires Stands(FailsMidway, n, run, threads, accepted, wire)
    requires t < |threads| && threads[t] == Sending([m], 0, offset) && offset < |m|
    ensures Stands(FailsMidway, n, run + [Send(t, 0, false)], threads[t := Idle], accepted, wire)
  {
    hide Exec, Allowed;
    ExecMore(n, run, Send(t, 0, false));
  }

  const FIRST: Message := [1]
  const SECOND: Message := [2]

  lemma TwoBodies()
    ensures Bodies([FIRST + [NEWLINE]] + [SECOND + [NEWLINE]]) == [FIRST, SECOND]
    ensures Framing.NewlineFree(FIRST) && Framing.NewlineFree(SECOND)
  {
    assert Body(FIRST + [NEWLINE]) == FIRST && Body(SECOND + [NEWLINE]) == SECOND;
  }

  /** Two threads hold one message each. */
  function TwoBatches(): seq<Action>
  {
    [] + [Push(0, FIRST)] + [Swap(0)] + [Push(1, SECOND)] + [Swap(1)]
  }

  function TwoSenders(n: nat): seq<Phase>
    requires n >= 2
  {
    seq(n, _ => Idle)[0 := Sending([FIRST + [NEWLINE]], 0, 0)][1 := Sending([SECOND + [NEWLINE]], 0, 0)]
  }

  lemma OneBatchStands(socket: Socket, n: nat)
    requires n >= 1
    ensures Stands(socket, n, [] + [Push(0, FIRST)] + [Swap(0)],
                   seq(n, _ => Idle)[0 := Sending([FIRST + [NEWLINE]], 0, 0)],
                   [FIRST + [NEWLINE]], [])
  {
    hide Bodies;
    var idle: seq<Phase> := seq(n, _ => Idle);
    assert Stands(socket, n, [], idle, [], []);
    hide Stands;
    TwoBodies();
    TakesUp(socket, n, [], idle, [], [], 0, FIRST);
    assert [] + [FIRST + [NEWLINE]] == [FIRST + [NEWLINE]];
  }

  lemma TwoBatchesStand(socket: Socket, n: nat)
    requires n >= 2
    ensures Stands(socket, n, TwoBatches(), TwoSenders(n), [FIRST + [NEWLINE]] + [SECOND + [NEWLINE]], [])
  {
    hide Stands, Bodies;
    OneBatchStands(socket, n);
    TwoBodies();
    TakesUp(socket, n, [] + [Push(0, FIRST)] + [Swap(0)], seq(n, _ => Idle)[0 := Sending([FIRST + [NEWLINE]], 0, 0)],
            [FIRST + [NEWLINE]], [], 1, SECOND);
  }

  /** The second thread sends before the first. */
  function Overtaking(): seq<Action>
  {
    TwoBatches() + [Send(1, 2, true)] + [Send(0, 2, true)]
  }

  lemma OvertakingReorders(socket: Socket, n: nat)
    requires n >= 2
    ensures Allowed(socket, n, Overtaking()) && !ReadsInOrder(Exec(n, Overtaking()))
  {
    var a, b := FIRST + [NEWLINE], SECOND + [NEWLINE];
    var threads := TwoSenders(n);
    var r := TwoBatches();
    assert Stands(socket, n, Overtaking(), threads[1 := Sending([b], 1, 0)][0 := Sending([a], 1, 0)],
                  [a] + [b], [] + b[0..] + a[0..]) by {
      hide Stands, TwoBatches;
      TwoBatchesStand(socket, n);
      SendsRest(socket, n, r, threads, [a] + [b], [], 1, b, 0);
      SendsRest(socket, n, r + [Send(1, 2, true)], threads[1 := Sending([b], 1, 0)], [a] + [b], [] + b[0..], 0, a, 0);
    }
    hide Framing.Frames, Exec, Allowed, Overtaking, TwoBatches;
    TwoBodies();
    assert [] + b[0..] + a[0..] == SECOND + [NEWLINE] + (FIRST + [NEWLINE] + []);
    Framing.FirstFrame(SECOND, FIRST + [NEWLINE] + []);
    Framing.FirstFrame(FIRST, []);
    Framing.EmptyStream();
    assert Framing.Frames(Exec(n, Overtaking()).wire) == [SECOND, FIRST];
    NotInOrder(FIRST, SECOND);
  }

  lemma NotInOrder(a: Message, b: Message)
    requires a != b
    ensures !Subsequence([b, a], [a, b])
  {
    assert [a, b][..1] == [a] && [b, a][..1] == [b];
    assert [a][..0] == [];
    assert !Subsequence([b], []);
  }

  /** The second thread's bytes fall between two of the first's. */
  function Interleaving(): seq<Action>
  {
    TwoBatches() + [Send(0, 1, true)] + [Send(1, 2, true)] + [Send(0, 1, true)]
  }

  lemma InterleavingMixes(socket: Socket, n: nat)
    requires n >= 2 && !socket.TakesAll?
    ensures Allowed(socket, n, Interleaving()) && !ReadsMessages(Exec(n, Interleaving()))
  {
    var a, b := FIRST + [NEWLINE], SECOND + [NEWLINE];
    var t0 := TwoSenders(n);
    var t1 := t0[0 := Sending([a], 0, 1)];
    var t2 := t1[1 := Sending([b], 1, 0)];
    var r := TwoBatches();
    assert Stands(socket, n, Interleaving(), t2[0 := Sending([a], 1, 0)], [a] + [b], [] + a[..1] + b[0..] + a[1..]) by {
      hide Stands, TwoBatches;
      TwoBatchesStand(socket, n);
      SendsPart(socket, n, r, t0, [a] + [b], [], 0, a, 1);
      SendsRest(socket, n, r + [Send(0, 1, true)], t1, [a] + [b], [] + a[..1], 1, b, 0);
      SendsRest(socket, n, r + [Send(0, 1, true)] + [Send(1, 2, true)], t2, [a] + [b], [] + a[..1] + b[0..], 0, a, 1);
    }
    hide Framing.Frames, Exec, Allowed, Interleaving, TwoBatches;
    TwoBodies();
    assert [] + a[..1] + b[0..] + a[1..] == FIRST + SECOND + [NEWLINE] + [NEWLINE];
    Framing.FirstFrame(FIRST + SECOND, [NEWLINE]);
    StrayFrame(Exec(n, Interleaving()), FIRST + SECOND);
  }

  lemma StrayFrame(s: State, f: Message)
    requires Framing.Frames(s.wire) != [] && Framing.Frames(s.wire)[0] == f
    requires Bodies(s.accepted) == [FIRST, SECOND] && f != FIRST && f != SECOND
    ensures !ReadsMessages(s) && !ReadsInOrder(s)
  {
    hide Framing.Frames, Bodies;
    var frames := Framing.Frames(s.wire);
    assert f in multiset(frames);
    assert f !in multiset([FIRST, SECOND]);
    assert !Subsequence([f], [FIRST, SECOND]) by {
      assert [FIRST, SECOND][..1] == [FIRST] && [FIRST][..0] == [];
      assert !Subsequence([f], []) && !Subsequence([f], [FIRST]);
    }
    assert frames[..1] == [f];
    if ReadsInOrder(s) {
      KeepPrefix(frames, [FIRST, SECOND], 1);
      assert false;
    }
  }

  /** One thread: a send fails after part of a message, and the next delivery goes on from there. */
  function CuttingOff(): seq<Action>
  {
    [] + [Push(0, FIRST)] + [Swap(0)] + [Send(0, 1, true)] + [Send(0, 0, false)]
    + [Push(0, SECOND)] + [Swap(0)] + [Send(0, 2, true)]
  }

  lemma CuttingOffStands(n: nat)
    requires n >= 1
    ensures var a, b := FIRST + [NEWLINE], SECOND + [NEWLINE];
      Stands(FailsMidway, n, CuttingOff(), seq(n, _ => Idle)[0 := Sending([b], 1, 0)], [a] + [b], [] + a[..1] + b[0..])
  {
    var a, b := FIRST + [NEWLINE], SECOND + [NEWLINE];
    var idle: seq<Phase> := seq(n, _ => Idle);
    hide Stands, Bodies;
    TwoBodies();
    var r2 := [] + [Push(0, FIRST)] + [Swap(0)];
    var r3 := r2 + [Send(0, 1, true)];
    var r4 := r3 + [Send(0, 0, false)];
    var r6 := r4 + [Push(0, SECOND)] + [Swap(0)];
    OneBatchStands(FailsMidway, n);
    SendsPart(FailsMidway, n, r2, idle[0 := Sending([a], 0, 0)], [a], [], 0, a, 1);
    assert idle[0 := Sending([a], 0, 0)][0 := Sending([a], 0, 1)] == idle[0 := Sending([a], 0, 1)];
    FailsHalfway(n, r3, idle[0 := Sending([a], 0, 1)], [a], [] + a[..1], 0, a, 1);
    assert idle[0 := Sending([a], 0, 1)][0 := Idle] == idle;
    TakesUp(FailsMidway, n, r4, idle, [a], [] + a[..1], 0, SECOND);
    SendsRest(FailsMidway, n, r6, idle[0 := Sending([b], 0, 0)], [a] + [b], [] + a[..1], 0, b, 0);
    assert idle[0 := Sending([b], 0, 0)][0 := Sending([b], 1, 0)] == idle[0 := Sending([b], 1, 0)];
  }

  lemma CuttingOffMerges(n: nat)
    requires n >= 1
    ensures Allowed(FailsMidway, n, CuttingOff())
    ensures !ReadsMessages(Exec(n, CuttingOff())) && !ReadsInOrder(Exec(n, CuttingOff()))
  {
    hide Framing.Frames, Exec, Allowed, CuttingOff;
    var a, b := FIRST + [NEWLINE], SECOND + [NEWLINE];
    CuttingOffStands(n);
    TwoBodies();
    assert [] + a[..1] + b[0..] == FIRST + SECOND + [NEWLINE] + [];
    Framing.FirstFrame(FIRST + SECOND, []);
    StrayFrame(Exec(n, CuttingOff()), FIRST + SECOND);
  }

  // ---------- Exactly when the client reads what was delivered ----------

  lemma PieceIsLineStart(n: nat, run: seq<Action>)
    requires AllLines(Exec(n, run).accepted) && |Exec(n, run).threads| <= 1
    ensures Framing.NewlineFree(Pending(Exec(n, run)))
  {
    hide Exec;
    var s := Exec(n, run);
    if s.threads != [] && Halfway(s.threads[0]) {
      var p := s.threads[0];
      var m := p.batch[p.sent];
      CompletedAccepted(n, run, m);
      assert s.threads[..0] == [];
      assert p.batch[p.sent..][0] == m;
      assert m in multiset(s.accepted);
      assert IsLine(m);
    }
  }

  lemma ReadsWell(socket: Socket, n: nat, run: seq<Action>)
    requires Allowed(socket, n, run) && (socket.TakesAll? || n == 0 || (n == 1 && socket.TakesSome?))
    ensures ReadsMessages(Exec(n, run))
    ensures Framing.Frames(Exec(n, run).wire) == Bodies(Exec(n, run).completed)
  {
    hide Exec, Concat, Framing.Frames, ReadsMessages, Bodies, Allowed;
    var s := Exec(n, run);
    AcceptedLines(socket, n, run);
    if socket.TakesAll? {
      UnbrokenRun(n, run);
      assert s.wire == Concat(s.completed) + [];
      ReadsCompleted(n, run, []);
    } else if socket.TakesSome? {
      SoloRun(socket, n, run);
      PieceIsLineStart(n, run);
      ReadsCompleted(n, run, Pending(s));
    } else {
      Nobody(run);
      AllowedForNobody(run);
      SoloRun(TakesSome, n, run);
      PieceIsLineStart(n, run);
      ReadsCompleted(n, run, Pending(s));
    }
  }

  lemma {:induction false} Nobody(run: seq<Action>)
    ensures Exec(0, run) == Init(0)
  {
    if run != [] {
      Nobody(run[..|run| - 1]);
    }
  }

  lemma {:induction false} AllowedForNobody(run: seq<Action>)
    ensures Allowed(TakesSome, 0, run)
  {
    if run != [] {
      AllowedForNobody(run[..|run| - 1]);
      Nobody(run[..|run| - 1]);
    }
  }

  /**
   On every run the client's frames are messages that were delivered, exactly when the socket takes whole
   messages, or at most one thread delivers and no send fails halfway through a message.
   */
  lemma WireWhole(socket: Socket, n: nat)
    ensures (forall run :: Allowed(socket, n, run) ==> ReadsMessages(Exec(n, run))) <==>
      socket.TakesAll? || n == 0 || (n == 1 && socket.TakesSome?)
  {
    hide Exec, Allowed, ReadsMessages, Interleaving, CuttingOff;
    if socket.TakesAll? || n == 0 || (n == 1 && socket.TakesSome?) {
      forall run: seq<Action> | Allowed(socket, n, run) ensures ReadsMessages(Exec(n, run)) {
        ReadsWell(socket, n, run);
      }
    } else if n >= 2 {
      InterleavingMixes(socket, n);
    } else {
      CuttingOffMerges(n);
    }
  }

  lemma ReadsOrdered(socket: Socket, n: nat, run: seq<Action>)
    requires Allowed(socket, n, run) && (n == 0 || (n == 1 && !socket.FailsMidway?))
    ensures ReadsInOrder(Exec(n, run))
  {
    hide Exec, Concat, Framing.Frames, Bodies, Allowed, Subsequence, Pending, Remaining, IsLine;
    var s := Exec(n, run);
    ReadsWell(socket, n, run);
    AcceptedLines(socket, n, run);
    if socket.FailsMidway? {
      Nobody(run);
      AllowedForNobody(run);
      SoloRun(TakesSome, n, run);
    } else {
      SoloRun(socket, n, run);
    }
    KeepPrefix(s.completed + Remaining(s), s.accepted, |s.completed|);
    assert (s.completed + Remaining(s))[..|s.completed|] == s.completed;
    CompletedLines(n, run);
    LinesEnd(s.completed);
    LinesEnd(s.accepted);
    SubsequenceOfBodies(s.completed, s.accepted);
  }

  /**
   On every run the client's frames are delivered messages in the order of acceptance, exactly when at most
   one thread delivers and no send fails halfway through a message.
   */
  lemma WireOrder(socket: Socket, n: nat)
    ensures (forall run :: Allowed(socket, n, run) ==> ReadsInOrder(Exec(n, run))) <==>
      n == 0 || (n == 1 && !socket.FailsMidway?)
  {
    hide Exec, Allowed, ReadsInOrder, Overtaking, CuttingOff;
    if n == 0 || (n == 1 && !socket.FailsMidway?) {
      forall run: seq<Action> | Allowed(socket, n, run) ensures ReadsInOrder(Exec(n, run)) {
        ReadsOrdered(socket, n, run);
      }
    } else if n >= 2 {
      OvertakingReorders(socket, n);
    } else {
      CuttingOffMerges(n);
    }
  }

  /**
   Where frames are messages, nothing fails and at most 1024 threads deliver: once every call has returned the
   client has read every message handed to deliver, exactly as often, and from a single thread in that order.
   */
  lemma ClientGetsAll(socket: Socket, n: nat, run: seq<Action>)
    requires Allowed(socket, n, run) && (socket.TakesAll? || n == 0 || (n == 1 && socket.TakesSome?))
    requires n <= 1024 && NoSendFails(run) && AllIdle(Exec(n, run).threads)
    ensures multiset(Framing.Frames(Exec(n, run).wire)) == multiset(Bodies(Offered(n, run)))
    ensures n <= 1 ==> Framing.Frames(Exec(n, run).wire) == Bodies(Offered(n, run))
  {
    hide Exec, Offered, Framing.Frames, Bodies, Allowed, NoSendFails, AllIdle, IsLine;
    var s, offered := Exec(n, run), Offered(n, run);
    ReadsWell(socket, n, run);
    AcceptedLines(socket, n, run);
    AllAccepted(n, run);
    CompletedLines(n, run);
    LinesEnd(s.completed);
    LinesEnd(offered);
    forall f: Message ensures multiset(Bodies(s.completed))[f] == multiset(Bodies(offered))[f] {
      BodyCount(s.completed, f);
      BodyCount(offered, f);
      DeliveredExactlyOnce(n, run, f + [NEWLINE]);
    }
    assert multiset(Bodies(s.completed)) == multiset(Bodies(offered));
    if n <= 1 {
      ReadsOrdered(socket, n, run);
      assert |multiset(Bodies(s.completed))| == |Bodies(s.completed)|
        && |multiset(Bodies(offered))| == |Bodies(offered)|;
      SubsequenceIsShorter(Bodies(s.completed), Bodies(offered));
    }
  }
}
