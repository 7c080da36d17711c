/** Native Messaging: length-prefixed UTF-8 messages over a byte pipe whose calls may be short or interrupted. */
module NativeMessaging {
  import opened Common

  const MAX_MESSAGE: nat := 1024 * 1024

  // ---------- The pipe ----------

  /** How the system may answer a read or write: interrupted, failed, or at most n bytes moved. */
  datatype Answer = Interrupted | Failed | AtMost(n: nat)

  predicate NoFailure(answers: seq<Answer>)
  {
    forall i :: 0 <= i < |answers| ==> !answers[i].Failed?
  }

  /** A byte pipe. The answers are used up one per call; a pipe without answers left moves all it is asked to. */
  class Pipe {
    var data: Bytes
    var answers: seq<Answer>

    constructor (answers: seq<Answer>)
      ensures data == [] && this.answers == answers
    {
      this.answers := answers;
      data := [];
    }

    /** A write of a non-empty buffer: -1 when interrupted, -2 when failed, else the number of bytes taken. */
    method Write(buf: Bytes) returns (n: int)
      requires buf != []
      modifies this
      ensures n == Granted(old(answers), |buf|, 0)
      ensures answers == Rest(old(answers))
      ensures data == if n < 0 then old(data) else old(data) + buf[..n]
    {
      n := Granted(answers, |buf|, 0);
      answers := Rest(answers);
      if n >= 0 {
        data := data + buf[..n];
      }
    }

    /** A read of at most count bytes; 0 means end of file, and a read that succeeds moves at least one byte. */
    method Read(count: nat) returns (n: int, bytes: Bytes)
      requires count > 0
      modifies this
      ensures n == if old(data) == [] then 0
        else Granted(old(answers), if count < |old(data)| then count else |old(data)|, 1)
      ensures answers == Rest(old(answers))
      ensures if n <= 0 then data == old(data) && bytes == [] else bytes == old(data)[..n] && data == old(data)[n..]
    {
      var avail := if count < |data| then count else |data|;
      n := if data == [] then 0 else Granted(answers, avail, 1);
      answers := Rest(answers);
      bytes := [];
      if n > 0 {
        bytes := data[..n];
        data := data[n..];
      }
    }
  }

  function Granted(answers: seq<Answer>, asked: nat, least: nat): (n: int)
    requires asked >= least
    ensures n < 0 || least <= n <= asked
    ensures NoFailure(answers) ==> n != -2
    ensures answers == [] ==> n == asked
  {
    if answers == [] then asked
    else
      match answers[0]
      case Interrupted => -1
      case Failed => -2
      case AtMost(n) => if n < least then least else if n < asked then n else asked
  }

  function Rest(answers: seq<Answer>): (r: seq<Answer>)
    ensures NoFailure(answers) ==> NoFailure(r)
    ensures answers != [] ==> |r| < |answers|
  {
    if answers == [] then [] else answers[1..]
  }

  // ---------- The length prefix ----------

  function Prefix(n: nat): (p: Bytes)
    requires n < 0x1_0000_0000
    ensures |p| == 4
  {
    [n % 0x100, n / 0x100 % 0x100, n / 0x1_0000 % 0x100, n / 0x100_0000 % 0x100]
  }

  function FromPrefix(p: Bytes): (n: nat)
    requires |p| == 4
    ensures n < 0x1_0000_0000
  {
    var b0: int, b1: int, b2: int, b3: int := p[0], p[1], p[2], p[3];
    b0 + 0x100 * b1 + 0x1_0000 * b2 + 0x100_0000 * b3
  }

  lemma PrefixRoundTrip(n: nat)
    requires n < 0x1_0000_0000
    ensures FromPrefix(Prefix(n)) == n
  {
    var a := n / 0x100;
    var b := a / 0x100;
    var c := b / 0x100;
    assert n / 0x1_0000 == b && n / 0x100_0000 == c;
    assert c < 0x100;
  }

  /** The prefix is the length in four bytes, least significant first. */
  lemma PrefixIsLittleEndian(n: nat)
    requires n < 0x1_0000_0000
    ensures
      var p := Prefix(n);
      p[0] as int + 256 * (p[1] as int) + 65536 * (p[2] as int) + 16777216 * (p[3] as int) == n
  {
    PrefixRoundTrip(n);
  }

  // ---------- UTF-8 ----------

  predicate Continuation(b: Byte)
  {
    b / 64 == 2
  }

  predicate ContinuationsIn(s: Bytes, from: nat, to: nat)
    requires to <= |s|
  {
    forall k :: from <= k < to ==> Continuation(s[k])
  }

  /** How many continuation bytes a lead byte announces. */
  function Extra(lead: Byte): Option<nat>
  {
    if lead < 0x80 then Some(0)
    else if lead / 32 == 6 then Some(1)
    else if lead / 16 == 14 then Some(2)
    else if lead / 8 == 30 then Some(3)
    else None
  }

  /** The shape the reader checks: a lead byte and as many continuation bytes as it announces. */
  predicate Shaped(part: Bytes)
  {
    part != [] && Extra(part[0]) == Some(|part| - 1) && ContinuationsIn(part, 1, |part|)
  }

  /** One UTF-8 character, section 4 of RFC 3629. */
  predicate Utf8Char(c: Bytes)
  {
    || (|c| == 1 && c[0] <= 0x7F)
    || (|c| == 2 && 0xC2 <= c[0] <= 0xDF && Continuation(c[1]))
    || (|c| == 3 && Continuation(c[2])
        && (|| (c[0] == 0xE0 && 0xA0 <= c[1] <= 0xBF)
            || (0xE1 <= c[0] <= 0xEC && Continuation(c[1]))
            || (c[0] == 0xED && 0x80 <= c[1] <= 0x9F)
            || (0xEE <= c[0] <= 0xEF && Continuation(c[1]))))
    || (|c| == 4 && Continuation(c[2]) && Continuation(c[3])
        && (|| (c[0] == 0xF0 && 0x90 <= c[1] <= 0xBF)
            || (0xF1 <= c[0] <= 0xF3 && Continuation(c[1]))
            || (c[0] == 0xF4 && 0x80 <= c[1] <= 0x8F)))
  }

  /** The bytes the reader steps over as one: any lead byte below 0xF8 with its number of bytes from 0x80 to 0xBF. */
  lemma ShapedMeans(part: Bytes)
    ensures Shaped(part) <==>
      && 1 <= |part| <= 4
      && (forall i :: 1 <= i < |part| ==> 0x80 <= part[i] <= 0xBF)
      && (|| (|part| == 1 && part[0] <= 0x7F) || (|part| == 2 && 0xC0 <= part[0] <= 0xDF)
          || (|part| == 3 && 0xE0 <= part[0] <= 0xEF) || (|part| == 4 && 0xF0 <= part[0] <= 0xF7))
  {
    forall b: Byte ensures Continuation(b) <==> 0x80 <= b <= 0xBF {
    }
  }

  /** A Unicode scalar value. */
  predicate ScalarValue(v: nat)
  {
    v <= 0xD7FF || 0xE000 <= v <= 0x10FFFF
  }

  /** Section 3 of RFC 3629: the bits of a scalar value over one to four bytes. */
  function EncodeScalar(v: nat): Bytes
    requires ScalarValue(v)
  {
    if v < 0x80 then [v]
    else if v < 0x800 then [0xC0 + v / 64, 0x80 + v % 64]
    else if v < 0x1_0000 then [0xE0 + v / 4096, 0x80 + v / 64 % 64, 0x80 + v % 64]
    else [0xF0 + v / 262144, 0x80 + v / 4096 % 64, 0x80 + v / 64 % 64, 0x80 + v % 64]
  }

  lemma EncodedIsChar(v: nat)
    requires ScalarValue(v)
    ensures Utf8Char(EncodeScalar(v))
  {
    var u := v / 64;
    var t := u / 64;
    assert v / 4096 == t && v / 262144 == t / 64;
  }

  /** The scalar value a character stands for. */
  function ValueOf(c: Bytes): nat
    requires Utf8Char(c)
  {
    var lead: int := c[0];
    if |c| == 1 then lead
    else if |c| == 2 then 64 * (lead - 0xC0) + (c[1] as int - 0x80)
    else if |c| == 3 then 4096 * (lead - 0xE0) + 64 * (c[1] as int - 0x80) + (c[2] as int - 0x80)
    else 262144 * (lead - 0xF0) + 4096 * (c[1] as int - 0x80) + 64 * (c[2] as int - 0x80) + (c[3] as int - 0x80)
  }

  /** Base-64 digits. */
  lemma LowDigit(high: nat, low: nat)
    requires low < 64
    ensures (64 * high + low) / 64 == high && (64 * high + low) % 64 == low
  {
  }

  lemma ShortCharIsEncoded(c: Bytes)
    requires Utf8Char(c) && |c| <= 3
    ensures ScalarValue(ValueOf(c)) && EncodeScalar(ValueOf(c)) == c
  {
    if |c| == 2 {
      LowDigit(c[0] - 0xC0, c[1] - 0x80);
    } else if |c| == 3 {
      var high := 64 * (c[0] as int - 0xE0) + (c[1] as int - 0x80);
      LowDigit(c[0] - 0xE0, c[1] - 0x80);
      LowDigit(high, c[2] - 0x80);
      assert ValueOf(c) == 64 * high + (c[2] as int - 0x80);
      assert ValueOf(c) / 4096 == high / 64;
    }
  }

  lemma LongCharIsEncoded(c: Bytes)
    requires Utf8Char(c) && |c| == 4
    ensures ScalarValue(ValueOf(c)) && EncodeScalar(ValueOf(c)) == c
  {
    var high := 64 * (c[0] as int - 0xF0) + (c[1] as int - 0x80);
    var middle := 64 * high + (c[2] as int - 0x80);
    LowDigit(c[0] - 0xF0, c[1] - 0x80);
    LowDigit(high, c[2] - 0x80);
    LowDigit(middle, c[3] - 0x80);
    assert ValueOf(c) == 64 * middle + (c[3] as int - 0x80);
    assert ValueOf(c) / 4096 == high && ValueOf(c) / 262144 == high / 64;
  }

  lemma CharLength(c: Bytes)
    requires Utf8Char(c)
    ensures 1 <= |c| <= 4
  {
  }

  /** The characters of the grammar are exactly the encodings of the scalar values. */
  lemma Utf8CharMeans(c: Bytes)
    ensures Utf8Char(c) <==> exists v :: ScalarValue(v) && EncodeScalar(v) == c
  {
    hide Utf8Char, EncodeScalar, ScalarValue;
    if Utf8Char(c) {
      CharLength(c);
      if |c| <= 3 {
        ShortCharIsEncoded(c);
      } else {
        LongCharIsEncoded(c);
      }
    }
    forall v: nat | ScalarValue(v) && EncodeScalar(v) == c ensures Utf8Char(c) {
      EncodedIsChar(v);
    }
  }

  lemma CharIsShaped(c: Bytes)
    requires Utf8Char(c)
    ensures Shaped(c)
  {
  }

  predicate AllShaped(parts: seq<Bytes>)
  {
    forall i :: 0 <= i < |parts| ==> Shaped(parts[i])
  }

  predicate AllChars(parts: seq<Bytes>)
  {
    forall i :: 0 <= i < |parts| ==> Utf8Char(parts[i])
  }

  /** A string of UTF-8 characters. */
  ghost predicate WellFormed(s: Bytes)
  {
    exists parts :: AllChars(parts) && Concat(parts) == s
  }

  /** The length of the shaped part a string starts with. */
  function PartLength(s: Bytes): (n: Option<nat>)
    requires s != []
    ensures n.Some? ==> 1 <= n.value <= |s|
  {
    var e := Extra(s[0]);
    if e.Some? && e.value < |s| && ContinuationsIn(s, 1, e.value + 1) then Some(e.value + 1) else None
  }

  /** The parts the reader's loop steps over, if it gets to the end. */
  function Parts(s: Bytes): Option<seq<Bytes>>
    decreases |s|
  {
    if s == [] then Some([])
    else
      var n := PartLength(s);
      if n.None? then None
      else
        var rest := Parts(s[n.value..]);
        if rest.None? then None else Some([s[..n.value]] + rest.value)
  }

  lemma ShapedPrefix(part: Bytes, rest: Bytes)
    requires Shaped(part)
    ensures PartLength(part + rest) == Some(|part|)
  {
    var s := part + rest;
    forall j | 1 <= j < |part| ensures Continuation(s[j]) { assert s[j] == part[j]; }
  }

  lemma PartIsShaped(s: Bytes)
    requires s != [] && PartLength(s).Some?
    ensures Shaped(s[..PartLength(s).value])
  {
  }

  lemma ShapedIsSome(part: Bytes)
    requires Shaped(part)
    ensures part != []
  {
  }

  /** The reader's division of a string into shaped parts is the only one. */
  lemma {:induction false} PartsAre(s: Bytes, parts: seq<Bytes>)
    ensures Parts(s) == Some(parts) <==> AllShaped(parts) && Concat(parts) == s
    decreases |s|
  {
    hide PartLength, Shaped;
    if parts != [] && AllShaped(parts) && Concat(parts) == s {
      var rest := Concat(parts[1..]);
      ConcatFirst(parts);
      assert |parts[0]| >= 1 by { ShapedIsSome(parts[0]); }
      ShapedPrefix(parts[0], rest);
      assert s[|parts[0]|..] == rest && s[..|parts[0]|] == parts[0];
      PartsAre(rest, parts[1..]);
      assert parts == [parts[0]] + parts[1..];
    }
    if parts != [] && s != [] && Parts(s) == Some(parts) {
      var n := PartLength(s).value;
      ConcatFirst(parts);
      PartIsShaped(s);
      assert parts[0] == s[..n];
      assert parts[1..] == Parts(s[n..]).value;
      PartsAre(s[n..], parts[1..]);
      assert s == s[..n] + s[n..];
      forall i | 0 <= i < |parts| ensures Shaped(parts[i]) {
        if i > 0 { assert parts[i] == parts[1..][i - 1]; }
      }
    }
  }

  /**
   What the reader accepts against what RFC 3629 calls well-formed: a string is well-formed exactly when the
   reader gets through it and every part it steps over is a UTF-8 character.
   */
  lemma WellFormedMeans(s: Bytes)
    ensures WellFormed(s) <==> Parts(s).Some? && AllChars(Parts(s).value)
  {
    hide Parts, Utf8Char, Shaped;
    if WellFormed(s) {
      var parts :| AllChars(parts) && Concat(parts) == s;
      forall i | 0 <= i < |parts| ensures Shaped(parts[i]) { CharIsShaped(parts[i]); }
      PartsAre(s, parts);
    }
    if Parts(s).Some? && AllChars(Parts(s).value) {
      PartsAre(s, Parts(s).value);
    }
  }

  /** The reader accepts more than RFC 3629: an overlong encoding passes its check. */
  lemma OverlongAccepted()
    ensures Parts([0xC0, 0x80]).Some? && !WellFormed([0xC0, 0x80])
  {
    var s: Bytes := [0xC0, 0x80];
    var parts := [s];
    assert parts[1..] == [];
    assert s + [] == s;
    assert Concat(parts) == s;
    PartsAre(s, parts);
    assert !Utf8Char(parts[0]);
    WellFormedMeans(s);
  }

  method CheckUtf8(out: Bytes) returns (ok: bool)
    ensures ok <==> Parts(out).Some?
  {
    hide PartLength;
    var i := 0;
    assert out[0..] == out;
    while i < |out|
      invariant 0 <= i <= |out|
      invariant Parts(out).Some? <==> Parts(out[i..]).Some?
    {
      var c := out[i];
      var extra := 0;
      PartLengthAt(out, i);
      if c < 0x80 {
        assert out[i..][1..] == out[i + 1..];
        i := i + 1;
        continue;
      } else if c / 32 == 6 {
        extra := 1;
      } else if c / 16 == 14 {
        extra := 2;
      } else if c / 8 == 30 {
        extra := 3;
      } else {
        return false;
      }
      if i + extra >= |out| {
        return false;
      }
      for j := 1 to extra + 1
        invariant ContinuationsIn(out, i + 1, i + j)
      {
        var cc := out[i + j];
        if cc / 64 != 2 {
          return false;
        }
      }
      assert out[i..][extra + 1..] == out[i + extra + 1..];
      i := i + extra + 1;
    }
    ok := true;
  }

  lemma PartLengthAt(out: Bytes, i: nat)
    requires i < |out|
    ensures PartLength(out[i..]) ==
            var e := Extra(out[i]);
            if e.Some? && i + e.value < |out| && ContinuationsIn(out, i + 1, i + 1 + e.value)
            then Some(e.value + 1) else None
  {
    var s, e := out[i..], Extra(out[i]);
    if e.Some? && e.value < |s| {
      if ContinuationsIn(s, 1, e.value + 1) {
        forall k | i + 1 <= k < i + 1 + e.value ensures Continuation(out[k]) { assert s[k - i] == out[k]; }
      }
      if ContinuationsIn(out, i + 1, i + 1 + e.value) {
        forall j | 1 <= j < e.value + 1 ensures Continuation(s[j]) { assert s[j] == out[i + j]; }
      }
    }
  }

  // ---------- Messages ----------

  predicate Fits(payload: Bytes)
  {
    1 <= |payload| <= 1048576
  }

  function Frame(payload: Bytes): Bytes
    requires Fits(payload)
  {
    Prefix(|payload|) + payload
  }

  /** How reading one message off a stream ends. */
  datatype Outcome = Message(payload: Bytes) | Eof | InvalidFraming | TooLarge | InvalidJson

  /** What the bytes of a stream say about its first message. */
  function FirstMessage(data: Bytes): Outcome
  {
    if |data| < 4 then Eof
    else
      var n := FromPrefix(data[..4]);
      if n == 0 then InvalidFraming
      else if n > MAX_MESSAGE then TooLarge
      else if |data| < 4 + n then Eof
      else if Parts(data[4..4 + n]).Some? then Message(data[4..4 + n])
      else InvalidJson
  }

  /** How reading the first message ends, from the four length bytes and what follows them. */
  lemma FirstMessageMeans(data: Bytes, n: nat, rest: Bytes)
    requires |data| >= 4 && rest == data[4..]
    requires n == data[0] as int + 256 * (data[1] as int) + 65536 * (data[2] as int) + 16777216 * (data[3] as int)
    ensures n == 0 ==> FirstMessage(data) == InvalidFraming
    ensures n > 1048576 ==> FirstMessage(data) == TooLarge
    ensures 0 < n <= 1048576 && |rest| < n ==> FirstMessage(data) == Eof
    ensures 0 < n <= 1048576 && n <= |rest| ==>
      FirstMessage(data) ==
        if exists parts :: AllShaped(parts) && Concat(parts) == rest[..n] then Message(rest[..n]) else InvalidJson
  {
    hide Parts, Shaped;
    if 0 < n <= 1048576 && n <= |rest| {
      assert data[4..4 + n] == rest[..n];
      if Parts(rest[..n]).Some? {
        PartsAre(rest[..n], Parts(rest[..n]).value);
      } else {
        forall parts | AllShaped(parts) && Concat(parts) == rest[..n] ensures false {
          PartsAre(rest[..n], parts);
        }
      }
    }
  }

  /** The writer takes exactly the payloads whose prefix and length the reader takes. */
  lemma WriterMatchesReader(payload: Bytes)
    requires |payload| < 0x1_0000_0000
    ensures Fits(payload) <==>
      var m := FirstMessage(Prefix(|payload|) + payload);
      m.Message? || m.InvalidJson?
  {
    hide Prefix, FirstMessage, AllShaped;
    var p := Prefix(|payload|);
    var data := p + payload;
    assert data[0] == p[0] && data[1] == p[1] && data[2] == p[2] && data[3] == p[3] && data[4..] == payload;
    PrefixIsLittleEndian(|payload|);
    FirstMessageMeans(data, |payload|, payload);
  }

  lemma SentPart(before: Bytes, frame: Bytes, sent: nat, n: nat)
    requires sent + n <= |frame|
    ensures before + frame[..sent] + frame[sent..][..n] == before + frame[..sent + n]
    ensures before <= before + frame[..sent] <= before + frame
  {
    assert frame[sent..][..n] == frame[sent..sent + n];
    assert frame[..sent] + frame[sent..sent + n] == frame[..sent + n];
    assert before + frame == before + frame[..sent] + frame[sent..];
  }

  class MessageWriter {

    /** Writes prefix and payload as one frame, in as many pieces as the pipe takes. */
    static method Write(pipe: Pipe, payload: Bytes) returns (ok: bool)
      modifies pipe
      ensures !Fits(payload) ==> !ok && pipe.data == old(pipe.data) && pipe.answers == old(pipe.answers)
      ensures ok ==> Fits(payload) && pipe.data == old(pipe.data) + Frame(payload)
      ensures Fits(payload) && !ok ==>
        !NoFailure(old(pipe.answers)) && old(pipe.data) <= pipe.data <= old(pipe.data) + Frame(payload)
      ensures NoFailure(old(pipe.answers)) ==> NoFailure(pipe.answers)
    {
      if payload == [] || |payload| > MAX_MESSAGE {
        return false;
      }
      hide Prefix;
      var frame := Prefix(|payload|) + payload;
      ghost var before := pipe.data;
      var sent := 0;
      while sent < |frame|
        invariant 0 <= sent <= |frame| && pipe.data == before + frame[..sent]
        invariant NoFailure(old(pipe.answers)) ==> NoFailure(pipe.answers)
        decreases |pipe.answers|, |frame| - sent
      {
        var n := pipe.Write(frame[sent..]);
        if n < 0 {
          if n == -1 {
            continue;
          }
          SentPart(before, frame, sent, 0);
          return false;
        }
        SentPart(before, frame, sent, n);
        sent := sent + n;
      }
      assert frame[..sent] == frame;
      return true;
    }
  }

  class MessageReader {

    /** Exactly count bytes, in as many pieces as the pipe gives; fails at end of file. */
    static method ReadExact(pipe: Pipe, count: nat) returns (ok: bool, bytes: Bytes)
      modifies pipe
      ensures ok ==>
        count <= |old(pipe.data)| && bytes == old(pipe.data)[..count] && pipe.data == old(pipe.data)[count..]
      ensures !ok ==> count > |old(pipe.data)| || !NoFailure(old(pipe.answers))
      ensures NoFailure(old(pipe.answers)) ==> NoFailure(pipe.answers)
    {
      bytes := [];
      ghost var before := pipe.data;
      while |bytes| < count
        invariant |bytes| <= count && |bytes| <= |before|
        invariant bytes == before[..|bytes|] && pipe.data == before[|bytes|..]
        invariant NoFailure(old(pipe.answers)) ==> NoFailure(pipe.answers)
        decreases |pipe.answers|, count - |bytes|
      {
        var n, piece := pipe.Read(count - |bytes|);
        if n < 0 {
          if n == -1 {
            continue;
          }
          return false, bytes;
        }
        if n == 0 {
          return false, bytes;
        }
        assert before[|bytes|..][..n] == before[|bytes|..|bytes| + n];
        bytes := bytes + piece;
      }
      return true, bytes;
    }

    /** Reads one message: the outcome is the one the stream's bytes call for, whatever the pattern of short reads. */
    static method Read(pipe: Pipe) returns (r: Outcome)
      modifies pipe
      ensures r == FirstMessage(old(pipe.data)) || (r.Eof? && !NoFailure(old(pipe.answers)))
      ensures r.Message? ==> |old(pipe.data)| >= 4 + |r.payload| && pipe.data == old(pipe.data)[4 + |r.payload|..]
      ensures NoFailure(old(pipe.answers)) ==> NoFailure(pipe.answers)
    {
      hide Parts;
      ghost var data := pipe.data;
      var ok, prefix := ReadExact(pipe, 4);
      if !ok {
        return Eof;
      }
      var length := FromPrefix(prefix);
      if length == 0 {
        return InvalidFraming;
      }
      if length > MAX_MESSAGE {
        return TooLarge;
      }
      var out;
      ok, out := ReadExact(pipe, length);
      if !ok {
        return Eof;
      }
      assert out == data[4..4 + length];
      assert pipe.data == data[4 + length..];
      ok := CheckUtf8(out);
      if !ok {
        return InvalidJson;
      }
      return Message(out);
    }
  }

  // ---------- Streams of messages ----------

  /** The payloads that pass writer and reader. */
  predicate Passes(payload: Bytes)
  {
    Fits(payload) && Parts(payload).Some?
  }

  lemma WellFormedPasses(payload: Bytes)
    requires Fits(payload) && WellFormed(payload)
    ensures Passes(payload)
  {
    WellFormedMeans(payload);
  }

  predicate AllFit(payloads: seq<Bytes>)
  {
    forall i :: 0 <= i < |payloads| ==> Fits(payloads[i])
  }

  function Stream(payloads: seq<Bytes>): Bytes
    requires AllFit(payloads)
  {
    if payloads == [] then [] else Stream(payloads[..|payloads| - 1]) + Frame(payloads[|payloads| - 1])
  }

  /** The messages a reader gets before the first outcome that is not a message. */
  function Messages(data: Bytes): seq<Bytes>
    decreases |data|
  {
    var m := FirstMessage(data);
    if m.Message? then [m.payload] + Messages(data[4 + |m.payload|..]) else []
  }

  lemma FrameIsRead(payload: Bytes, rest: Bytes)
    requires Fits(payload)
    ensures FirstMessage(Frame(payload) + rest) == if Parts(payload).Some? then Message(payload) else InvalidJson
    ensures (Frame(payload) + rest)[4 + |payload|..] == rest
  {
    hide Parts, Prefix, FromPrefix, FirstMessage;
    var p, data := Prefix(|payload|), Frame(payload) + rest;
    ThreePieces(p, payload, rest);
    PrefixRoundTrip(|payload|);
    assert data == p + payload + rest;
    ReadsAs(data, payload);
  }

  lemma ReadsAs(data: Bytes, payload: Bytes)
    requires Fits(payload) && |data| >= 4 + |payload|
    requires FromPrefix(data[..4]) == |payload| && data[4..4 + |payload|] == payload
    ensures FirstMessage(data) == if Parts(payload).Some? then Message(payload) else InvalidJson
  {
    hide Parts, FromPrefix;
  }

  lemma ThreePieces(a: Bytes, b: Bytes, c: Bytes)
    ensures var s, m, n := a + b + c, |a|, |a| + |b|;
            s[..m] == a && s[m..n] == b && s[n..] == c && |s| >= n
  {
  }

  lemma {:induction false} StreamFront(payloads: seq<Bytes>)
    requires AllFit(payloads) && payloads != []
    ensures Stream(payloads) == Frame(payloads[0]) + Stream(payloads[1..])
  {
    hide Frame;
    var n := |payloads| - 1;
    if n == 0 {
      assert payloads[..0] == [] && payloads[1..] == [];
    } else {
      var middle := Stream(payloads[1..][..n - 1]);
      StreamFront(payloads[..n]);
      assert payloads[..n][1..] == payloads[1..][..n - 1];
      assert Stream(payloads[1..]) == middle + Frame(payloads[n]);
      assert Stream(payloads) == Frame(payloads[0]) + middle + Frame(payloads[n]);
    }
  }

  /** Reading a written stream gives back the payloads up to the first one the reader refuses. */
  lemma {:induction false} MessagesOfStream(payloads: seq<Bytes>)
    requires AllFit(payloads)
    ensures (forall i :: 0 <= i < |payloads| ==> Parts(payloads[i]).Some?) <==> Messages(Stream(payloads)) == payloads
  {
    hide Parts, Frame;
    if payloads != [] {
      StreamFront(payloads);
      FrameIsRead(payloads[0], Stream(payloads[1..]));
      MessagesOfStream(payloads[1..]);
      assert payloads == [payloads[0]] + payloads[1..];
      if Messages(Stream(payloads)) == payloads {
        assert Messages(Stream(payloads))[1..] == payloads[1..];
        forall i | 0 <= i < |payloads| ensures Parts(payloads[i]).Some? {
          if i > 0 { assert payloads[i] == payloads[1..][i - 1]; }
        }
      }
    }
  }

  method WriteAll(pipe: Pipe, payloads: seq<Bytes>) returns (ok: bool)
    modifies pipe
    ensures ok ==> AllFit(payloads) && pipe.data == old(pipe.data) + Stream(payloads)
    ensures AllFit(payloads) && NoFailure(old(pipe.answers)) ==> ok
  {
    hide Frame;
    ghost var before := pipe.data;
    for i := 0 to |payloads|
      invariant AllFit(payloads[..i]) && pipe.data == before + Stream(payloads[..i])
      invariant NoFailure(old(pipe.answers)) ==> NoFailure(pipe.answers)
    {
      var good := MessageWriter.Write(pipe, payloads[i]);
      if !good {
        return false;
      }
      assert payloads[..i + 1][..i] == payloads[..i];
    }
    assert payloads[..|payloads|] == payloads;
    return true;
  }

  /** Reads until something is not a message. */
  method ReadAll(pipe: Pipe) returns (payloads: seq<Bytes>)
    requires NoFailure(pipe.answers)
    modifies pipe
    ensures payloads == Messages(old(pipe.data))
  {
    hide FirstMessage;
    payloads := [];
    while true
      invariant Messages(old(pipe.data)) == payloads + Messages(pipe.data)
      invariant NoFailure(pipe.answers)
      decreases |pipe.data|
    {
      var r := MessageReader.Read(pipe);
      if !r.Message? {
        return;
      }
      payloads := payloads + [r.payload];
    }
  }

  /**
   Any list of non-empty payloads of at most 1 MiB, under any pattern of short and interrupted writes and reads:
   the list read back is the list written exactly when the reader's UTF-8 check takes every payload.
   */
  method RoundTrip(payloads: seq<Bytes>, writing: seq<Answer>, reading: seq<Answer>)
    returns (ok: bool, received: seq<Bytes>)
    requires NoFailure(writing) && NoFailure(reading)
    ensures ok <==> AllFit(payloads)
    ensures ok ==> (received == payloads <==> forall i :: 0 <= i < |payloads| ==> Passes(payloads[i]))
  {
    hide Parts, Stream, Messages;
    var pipe := new Pipe(writing);
    ok := WriteAll(pipe, payloads);
    received := [];
    if ok {
      assert pipe.data == Stream(payloads);
      pipe.answers := reading;
      received := ReadAll(pipe);
      MessagesOfStream(payloads);
    }
  }
}
