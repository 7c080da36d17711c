/** Newline framing: the daemon's bounded splitter, the native host's unbounded one, and chunked delivery. */
module Framing {
  import opened Common

  // ---------- Streams, frames and tails ----------

  predicate NewlineFree(frame: Bytes)
  {
    forall j :: 0 <= j < |frame| ==> frame[j] != 10
  }

  predicate AllNewlineFree(frames: seq<Bytes>)
  {
    forall i :: 0 <= i < |frames| ==> NewlineFree(frames[i])
  }

  /** The stream that frames and an unfinished tail come from. */
  function Join(frames: seq<Bytes>, tail: Bytes): Bytes
  {
    if frames == [] then tail else frames[0] + [10] + Join(frames[1..], tail)
  }

  /** The complete frames of a stream, by its newlines. */
  function Frames(stream: Bytes): (frames: seq<Bytes>)
    ensures AllNewlineFree(frames)
    decreases |stream|
  {
    var nl := Find(stream);
    if nl == |stream| then [] else [stream[..nl]] + Frames(stream[nl + 1..])
  }

  /** What follows the last newline. */
  function Tail(stream: Bytes): (tail: Bytes)
    ensures NewlineFree(tail)
    decreases |stream|
  {
    var nl := Find(stream);
    if nl == |stream| then stream else Tail(stream[nl + 1..])
  }

  /** The position of the first newline, or the length. */
  function Find(stream: Bytes): (nl: nat)
    ensures nl <= |stream| && (nl < |stream| ==> stream[nl] == NEWLINE)
    ensures forall j :: 0 <= j < nl ==> stream[j] != NEWLINE
  {
    if stream == [] || stream[0] == NEWLINE then 0 else 1 + Find(stream[1..])
  }

  /** Rejoining what a stream was split into gives the stream back. */
  lemma {:induction false} JoinSplit(stream: Bytes)
    ensures Join(Frames(stream), Tail(stream)) == stream
    decreases |stream|
  {
    hide Find;
    var nl := Find(stream);
    if nl < |stream| {
      JoinSplit(stream[nl + 1..]);
      assert Frames(stream)[1..] == Frames(stream[nl + 1..]);
      assert stream == stream[..nl] + [NEWLINE] + stream[nl + 1..];
    }
  }

  lemma FirstFrame(frame: Bytes, rest: Bytes)
    requires NewlineFree(frame)
    ensures var s := frame + [NEWLINE] + rest;
            Frames(s) == [frame] + Frames(rest) && Tail(s) == Tail(rest)
  {
    hide Find;
    var s := frame + [NEWLINE] + rest;
    assert s[|frame|] == NEWLINE;
    assert Find(s) == |frame|;
    assert s[..|frame|] == frame && s[|frame| + 1..] == rest;
  }

  /** Splitting is the only way to write a stream as newline-free frames and a newline-free tail. */
  lemma {:induction false} SplitJoin(frames: seq<Bytes>, tail: Bytes)
    requires AllNewlineFree(frames) && NewlineFree(tail)
    ensures Frames(Join(frames, tail)) == frames && Tail(Join(frames, tail)) == tail
  {
    if frames == [] {
      assert Find(tail) == |tail|;
    } else {
      SplitJoin(frames[1..], tail);
      FirstFrame(frames[0], Join(frames[1..], tail));
      assert [frames[0]] + frames[1..] == frames;
    }
  }

  lemma {:induction false} JoinAppend(frames: seq<Bytes>, more: seq<Bytes>, tail: Bytes)
    ensures Join(frames + more, tail) == Join(frames, Join(more, tail))
  {
    if frames == [] {
      assert frames + more == more;
    } else {
      JoinAppend(frames[1..], more, tail);
      assert (frames + more)[1..] == frames[1..] + more;
    }
  }

  lemma {:induction false} JoinTail(frames: seq<Bytes>, tail: Bytes, more: Bytes)
    ensures Join(frames, tail) + more == Join(frames, tail + more)
  {
    if frames != [] {
      JoinTail(frames[1..], tail, more);
      var rest := Join(frames[1..], tail);
      assert frames[0] + [NEWLINE] + rest + more == frames[0] + [NEWLINE] + (rest + more);
    }
  }

  /** Splitting a stream that grew: the old frames stay, and the old tail is split together with the new bytes. */
  lemma SplitExtend(stream: Bytes, more: Bytes)
    ensures Frames(stream + more) == Frames(stream) + Frames(Tail(stream) + more)
    ensures Tail(stream + more) == Tail(Tail(stream) + more)
  {
    hide Frames, Tail, Join;
    var f, t := Frames(stream), Tail(stream);
    var f', t' := Frames(t + more), Tail(t + more);
    JoinSplit(stream);
    JoinTail(f, t, more);
    JoinSplit(t + more);
    JoinAppend(f, f', t');
    SplitJoin(f + f', t');
  }

  // ---------- The two splitters ----------

  predicate AllWithin(frames: seq<Bytes>, max: nat)
  {
    forall i :: 0 <= i < |frames| ==> |frames[i]| <= max
  }

  /** The frames before the first one that is too long. */
  function Acceptable(frames: seq<Bytes>, max: nat): (n: nat)
    ensures n <= |frames| && AllWithin(frames[..n], max)
    ensures n < |frames| ==> |frames[n]| > max
  {
    if frames == [] || |frames[0]| > max then 0
    else
      var n := Acceptable(frames[1..], max);
      assert frames[..n + 1] == [frames[0]] + frames[1..][..n];
      n + 1
  }

  /** A newline search from a position on. */
  method FindFrom(buffer: Bytes, from: nat) returns (nl: nat)
    requires from <= |buffer|
    ensures nl == from + Find(buffer[from..])
  {
    nl := from;
    while nl < |buffer| && buffer[nl] != NEWLINE
      invariant from <= nl <= |buffer|
      invariant from + Find(buffer[from..]) == nl + Find(buffer[nl..])
    {
      assert buffer[nl..][1..] == buffer[nl + 1..];
      nl := nl + 1;
    }
  }

  /** What one newline search settles. */
  lemma FrameStep(buffer: Bytes, from: nat, nl: nat)
    requires from <= |buffer| && nl == from + Find(buffer[from..])
    ensures nl < |buffer| ==> Frames(buffer[from..]) == [buffer[from..nl]] + Frames(buffer[nl + 1..])
    ensures nl < |buffer| ==> Tail(buffer[from..]) == Tail(buffer[nl + 1..])
    ensures nl == |buffer| ==> Frames(buffer[from..]) == [] && Tail(buffer[from..]) == buffer[from..]
  {
    hide Find;
    if nl < |buffer| {
      assert buffer[from..][..nl - from] == buffer[from..nl];
      assert buffer[from..][nl - from + 1..] == buffer[nl + 1..];
    }
  }

  /**
   The daemon's splitter. It fails on a finished frame longer than the limit, with the buffer as it was and the
   frames before that one handed out, and on a tail that has reached the limit.
   */
  method SplitFrames(buffer: Bytes, max: nat) returns (ok: bool, frames: seq<Bytes>, rest: Bytes)
    ensures ok <==> AllWithin(Frames(buffer), max) && |Tail(buffer)| < max
    ensures frames == Frames(buffer)[..Acceptable(Frames(buffer), max)]
    ensures rest == if AllWithin(Frames(buffer), max) then Tail(buffer) else buffer
  {
    hide Find, Frames, Tail, Acceptable;
    frames, rest := [], buffer;
    var from := 0;
    assert buffer[0..] == buffer;
    while true
      invariant from <= |buffer| && (from == 0 ==> frames == [])
      invariant Frames(buffer) == frames + Frames(buffer[from..]) && Tail(buffer) == Tail(buffer[from..])
      invariant AllWithin(frames, max)
      decreases |buffer| - from
    {
      var nl := FindFrom(buffer, from);
      FrameStep(buffer, from, nl);
      if nl == |buffer| {
        break;
      }
      var len := nl - from;
      if len > max {
        assert Frames(buffer)[|frames|] == buffer[from..nl];
        AcceptableIs(Frames(buffer), max, frames);
        return false, frames, rest;
      }
      frames := frames + [buffer[from..nl]];
      from := nl + 1;
    }
    AcceptableIs(Frames(buffer), max, frames);
    if from > 0 {
      rest := rest[from..];
    }
    ok := |rest| < max;
  }

  lemma AcceptableIs(frames: seq<Bytes>, max: nat, good: seq<Bytes>)
    requires good <= frames && AllWithin(good, max) && (|good| < |frames| ==> |frames[|good|]| > max)
    ensures frames[..Acceptable(frames, max)] == good
  {
    hide Acceptable;
    assert Acceptable(frames, max) == |good|;
  }

  /** The native host's splitter: no limit. */
  method ExtractFrames(buffer: Bytes) returns (frames: seq<Bytes>, rest: Bytes)
    ensures frames == Frames(buffer) && rest == Tail(buffer)
  {
    hide Find, Frames, Tail;
    frames := [];
    var start := 0;
    assert buffer[0..] == buffer;
    while true
      invariant start <= |buffer|
      invariant Frames(buffer) == frames + Frames(buffer[start..]) && Tail(buffer) == Tail(buffer[start..])
      decreases |buffer| - start
    {
      var nl := FindFrom(buffer, start);
      FrameStep(buffer, start, nl);
      if nl == |buffer| {
        break;
      }
      frames := frames + [buffer[start..nl]];
      start := nl + 1;
    }
    rest := buffer[start..];
  }

  // ---------- Chunked delivery ----------

  datatype Received = Broken | Received(frames: seq<Bytes>, buffer: Bytes)

  /** What a connection has after some chunks: every chunk is appended to the buffer, which is then split. */
  function Fed(chunks: seq<Bytes>, max: nat): Received
  {
    if chunks == [] then Received([], [])
    else
      match Fed(chunks[..|chunks| - 1], max)
      case Broken => Broken
      case Received(frames, rx) =>
        var buffer := rx + chunks[|chunks| - 1];
        if AllWithin(Frames(buffer), max) && |Tail(buffer)| < max
        then Received(frames + Frames(buffer), Tail(buffer))
        else Broken
  }

  /** The receive loop of a client connection, which ends at the first framing error. */
  method ReceiveLoop(chunks: seq<Bytes>, max: nat) returns (ok: bool, frames: seq<Bytes>, rx: Bytes)
    ensures ok <==> Fed(chunks, max).Received?
    ensures ok ==> Fed(chunks, max) == Received(frames, rx)
  {
    hide Frames, Tail, Acceptable;
    frames, rx := [], [];
    for i := 0 to |chunks|
      invariant Fed(chunks[..i], max) == Received(frames, rx)
    {
      assert chunks[..i + 1][..i] == chunks[..i];
      rx := rx + chunks[i];
      var good, more, rest := SplitFrames(rx, max);
      if !good {
        BrokenStays(chunks, max, i + 1);
        return false, frames, rx;
      }
      AllAcceptable(Frames(rx), max);
      frames := frames + more;
      rx := rest;
    }
    assert chunks[..|chunks|] == chunks;
    ok := true;
  }

  lemma AllAcceptable(frames: seq<Bytes>, max: nat)
    requires AllWithin(frames, max)
    ensures frames[..Acceptable(frames, max)] == frames
  {
    AcceptableIs(frames, max, frames);
  }

  lemma {:induction false} BrokenStays(chunks: seq<Bytes>, max: nat, k: nat)
    requires k <= |chunks| && Fed(chunks[..k], max).Broken?
    ensures Fed(chunks, max).Broken?
    decreases |chunks|
  {
    if k < |chunks| {
      assert chunks[..|chunks| - 1][..k] == chunks[..k];
      BrokenStays(chunks[..|chunks| - 1], max, k);
    } else {
      assert chunks[..k] == chunks;
    }
  }

  /** However a stream was cut into chunks, a connection that is not broken has the stream's frames and its tail. */
  lemma {:induction false} ChunkingDoesNotMatter(chunks: seq<Bytes>, max: nat)
    requires Fed(chunks, max).Received?
    ensures Fed(chunks, max) == Received(Frames(Concat(chunks)), Tail(Concat(chunks)))
  {
    hide Frames, Tail;
    if chunks == [] {
      EmptyStream();
    } else {
      var n := |chunks| - 1;
      ChunkingDoesNotMatter(chunks[..n], max);
      SplitExtend(Concat(chunks[..n]), chunks[n]);
    }
  }

  lemma EmptyStream()
    ensures Frames([]) == [] && Tail([]) == []
  {
  }

  /** Every frame and the tail stay below the limit. */
  predicate Short(stream: Bytes, max: nat)
  {
    (forall i :: 0 <= i < |Frames(stream)| ==> |Frames(stream)[i]| < max) && |Tail(stream)| < max
  }

  lemma ShortPrefix(stream: Bytes, more: Bytes, max: nat)
    requires Short(stream + more, max)
    ensures Short(stream, max)
  {
    hide Frames, Tail;
    SplitExtend(stream, more);
    var f, t := Frames(stream), Tail(stream);
    forall i | 0 <= i < |f| ensures |f[i]| < max {
      assert Frames(stream + more)[i] == f[i];
    }
    TailGrows(t, more);
    if Frames(t + more) != [] {
      assert Frames(stream + more)[|f|] == Frames(t + more)[0];
    }
  }

  lemma TailGrows(tail: Bytes, more: Bytes)
    requires NewlineFree(tail)
    ensures if Frames(tail + more) == [] then |Tail(tail + more)| >= |tail| else |Frames(tail + more)[0]| >= |tail|
  {
    hide Find;
    var b := tail + more;
    assert Find(b) >= |tail|;
  }

  lemma {:induction false} ShortNeverBreaks(chunks: seq<Bytes>, max: nat)
    requires Short(Concat(chunks), max)
    ensures Fed(chunks, max).Received?
  {
    hide Frames, Tail;
    if chunks != [] {
      var n := |chunks| - 1;
      var before := Concat(chunks[..n]);
      ShortPrefix(before, chunks[n], max);
      ShortNeverBreaks(chunks[..n], max);
      ChunkingDoesNotMatter(chunks[..n], max);
      SplitExtend(before, chunks[n]);
      var added := Frames(Tail(before) + chunks[n]);
      forall i | 0 <= i < |added| ensures |added[i]| <= max {
        assert Frames(Concat(chunks))[|Frames(before)| + i] == added[i];
      }
    }
  }

  /** The stream one byte at a time. */
  function Bytewise(stream: Bytes): (chunks: seq<Bytes>)
    ensures |chunks| == |stream|
  {
    seq(|stream|, i requires 0 <= i < |stream| => [stream[i]])
  }

  lemma {:induction false} BytewiseNeedsShort(stream: Bytes, max: nat)
    requires max > 0 && Fed(Bytewise(stream), max).Received?
    ensures Concat(Bytewise(stream)) == stream && Short(stream, max)
  {
    hide Frames, Tail;
    if stream == [] {
      EmptyStream();
    } else {
      var n := |stream| - 1;
      var before, b := stream[..n], stream[n];
      assert Bytewise(stream)[..n] == Bytewise(before);
      BytewiseNeedsShort(before, max);
      ChunkingDoesNotMatter(Bytewise(before), max);
      assert stream == before + [b];
      SplitExtend(before, [b]);
      OneByte(Tail(before), b);
    }
  }

  lemma OneByte(tail: Bytes, b: Byte)
    requires NewlineFree(tail)
    ensures Frames(tail + [b]) == if b == NEWLINE then [tail] else []
    ensures Tail(tail + [b]) == if b == NEWLINE then [] else tail + [b]
  {
    if b == NEWLINE {
      FirstFrame(tail, []);
      assert tail + [b] + [] == tail + [b];
    } else {
      SplitJoin([], tail + [b]);
    }
  }

  lemma BytewiseConcat(stream: Bytes)
    ensures Concat(Bytewise(stream)) == stream
  {
    if stream != [] {
      var n := |stream| - 1;
      BytewiseConcat(stream[..n]);
      assert Bytewise(stream)[..n] == Bytewise(stream[..n]);
    }
  }

  predicate NoEmptyChunk(chunks: seq<Bytes>)
  {
    forall i :: 0 <= i < |chunks| ==> chunks[i] != []
  }

  /**
   A stream survives every way of cutting it into received chunks exactly when all its frames and its tail are
   strictly shorter than the limit.
   */
  lemma AnyChunking(stream: Bytes, max: nat)
    requires max > 0
    ensures (forall chunks :: NoEmptyChunk(chunks) && Concat(chunks) == stream ==> Fed(chunks, max).Received?) <==>
            Short(stream, max)
  {
    if Short(stream, max) {
      forall chunks | NoEmptyChunk(chunks) && Concat(chunks) == stream ensures Fed(chunks, max).Received? {
        ShortNeverBreaks(chunks, max);
      }
    } else {
      BytewiseConcat(stream);
      if Fed(Bytewise(stream), max).Received? {
        BytewiseNeedsShort(stream, max);
      }
      assert NoEmptyChunk(Bytewise(stream));
    }
  }

  /**
   A frame of exactly the limit gets through when its newline comes in one chunk with its last bytes, however the
   rest was chunked, and breaks the connection when the newline comes in a chunk after it.
   */
  lemma FrameAtTheLimit(frame: Bytes, max: nat, chunks: seq<Bytes>, k: nat)
    requires NewlineFree(frame) && |frame| == max > 0 && k <= max && Concat(chunks) == frame[..k]
    ensures k < max ==> Fed(chunks + [frame[k..] + [NEWLINE]], max) == Received([frame], [])
    ensures k == max ==> Fed(chunks + [[NEWLINE]], max).Broken?
  {
    hide Fed;
    if k < max {
      LimitPasses(frame, max, chunks, k);
    } else {
      assert frame[..k] == frame;
      LimitBreaks(frame, max, chunks);
    }
  }

  lemma LimitPasses(frame: Bytes, max: nat, chunks: seq<Bytes>, k: nat)
    requires NewlineFree(frame) && |frame| == max && k < max && Concat(chunks) == frame[..k]
    ensures Fed(chunks + [frame[k..] + [NEWLINE]], max) == Received([frame], [])
  {
    hide Frames, Tail, Concat;
    var part, last := frame[..k], frame[k..] + [NEWLINE];
    assert Fed(chunks, max) == Received([], part) by {
      Unfinished(part);
      ShortNeverBreaks(chunks, max);
      ChunkingDoesNotMatter(chunks, max);
    }
    assert (chunks + [last])[..|chunks|] == chunks;
    assert Frames(part + last) == [frame] && Tail(part + last) == [] by {
      assert part + last == frame + [NEWLINE] + [];
      FirstFrame(frame, []);
      EmptyStream();
    }
  }

  lemma LimitBreaks(frame: Bytes, max: nat, chunks: seq<Bytes>)
    requires NewlineFree(frame) && |frame| == max > 0 && Concat(chunks) == frame
    ensures Fed(chunks + [[NEWLINE]], max).Broken?
  {
    hide Frames, Tail;
    if Fed(chunks, max).Received? {
      Unfinished(frame);
      ChunkingDoesNotMatter(chunks, max);
      TailFits(chunks, max);
      assert false;
    }
    assert (chunks + [[NEWLINE]])[..|chunks|] == chunks;
  }

  lemma Unfinished(part: Bytes)
    requires NewlineFree(part)
    ensures Frames(part) == [] && Tail(part) == part
  {
  }

  lemma TailFits(chunks: seq<Bytes>, max: nat)
    requires Fed(chunks, max).Received? && chunks != []
    ensures |Fed(chunks, max).buffer| < max
  {
    hide Frames, Tail;
  }

  /** Whenever the daemon's bounded splitter succeeds the host's unbounded one agrees,
   and rejoining gives the buffer back. */
  method SplittersAgree(buffer: Bytes, max: nat)
    returns (ok: bool, frames: seq<Bytes>, rest: Bytes, hostFrames: seq<Bytes>, hostRest: Bytes)
    ensures ok <==> AllWithin(hostFrames, max) && |hostRest| < max
    ensures ok ==> frames == hostFrames && rest == hostRest
    ensures Join(hostFrames, hostRest) == buffer && AllNewlineFree(hostFrames) && NewlineFree(hostRest)
  {
    ok, frames, rest := SplitFrames(buffer, max);
    hostFrames, hostRest := ExtractFrames(buffer);
    JoinSplit(buffer);
    if ok {
      AllAcceptable(Frames(buffer), max);
    }
  }
}
