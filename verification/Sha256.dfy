/**
 The FIPS 180-4 definition of SHA-256, written from the standard: sections 3.2 and 4.1.2 (functions),
 4.2.2 (constants), 5.1.1 (padding), 5.2.1 (parsing), 5.3.3 (initial value) and 6.2.2 (computation).
 */
module Sha256Spec {
  import opened Common

  const WRAP64: nat := 0x1_0000_0000_0000_0000

  const INITIAL: seq<bv32> :=
    [0x6a09e667, 0xbb67ae85, 0x3c6ef372, 0xa54ff53a, 0x510e527f, 0x9b05688c, 0x1f83d9ab, 0x5be0cd19]

  const CONSTANTS: seq<seq<bv32>> := [
    [0x428a2f98, 0x71374491, 0xb5c0fbcf, 0xe9b5dba5, 0x3956c25b, 0x59f111f1, 0x923f82a4, 0xab1c5ed5],
    [0xd807aa98, 0x12835b01, 0x243185be, 0x550c7dc3, 0x72be5d74, 0x80deb1fe, 0x9bdc06a7, 0xc19bf174],
    [0xe49b69c1, 0xefbe4786, 0x0fc19dc6, 0x240ca1cc, 0x2de92c6f, 0x4a7484aa, 0x5cb0a9dc, 0x76f988da],
    [0x983e5152, 0xa831c66d, 0xb00327c8, 0xbf597fc7, 0xc6e00bf3, 0xd5a79147, 0x06ca6351, 0x14292967],
    [0x27b70a85, 0x2e1b2138, 0x4d2c6dfc, 0x53380d13, 0x650a7354, 0x766a0abb, 0x81c2c92e, 0x92722c85],
    [0xa2bfe8a1, 0xa81a664b, 0xc24b8b70, 0xc76c51a3, 0xd192e819, 0xd6990624, 0xf40e3585, 0x106aa070],
    [0x19a4c116, 0x1e376c08, 0x2748774c, 0x34b0bcb5, 0x391c0cb3, 0x4ed8aa4a, 0x5b9cca4f, 0x682e6ff3],
    [0x748f82ee, 0x78a5636f, 0x84c87814, 0x8cc70208, 0x90befffa, 0xa4506ceb, 0xbef9a3f7, 0xc67178f2]]

  function K(t: nat): bv32
    requires t < 64
  {
    CONSTANTS[t / 8][t % 8]
  }

  function Rotr(x: bv32, n: bv6): bv32
    requires 0 < n < 32
  {
    (x >> n) | (x << (32 - n))
  }

  function Shr(x: bv32, n: bv6): bv32
    requires n < 32
  {
    x >> n
  }

  /** Section 3.2: addition modulo 2^32. */
  function Add(x: bv32, y: bv32): bv32 { x + y }

  function Ch(x: bv32, y: bv32, z: bv32): bv32 { (x & y) ^ (!x & z) }

  function Maj(x: bv32, y: bv32, z: bv32): bv32 { (x & y) ^ (x & z) ^ (y & z) }

  function Xor2(x: bv32, y: bv32): bv32 { x ^ y }

  function Xor(x: bv32, y: bv32, z: bv32): bv32 { Xor2(Xor2(x, y), z) }

  function BigSigma0(x: bv32): bv32 { Xor(Rotr(x, 2), Rotr(x, 13), Rotr(x, 22)) }

  function BigSigma1(x: bv32): bv32 { Xor(Rotr(x, 6), Rotr(x, 11), Rotr(x, 25)) }

  function SmallSigma0(x: bv32): bv32 { Xor(Rotr(x, 7), Rotr(x, 18), Shr(x, 3)) }

  function SmallSigma1(x: bv32): bv32 { Xor(Rotr(x, 17), Rotr(x, 19), Shr(x, 10)) }

  /** Section 5.2.1: four bytes as a big-endian word. */
  function Pack(b0: Byte, b1: Byte, b2: Byte, b3: Byte): bv32
  {
    ((b0 as bv32) << 24) | ((b1 as bv32) << 16) | ((b2 as bv32) << 8) | (b3 as bv32)
  }

  function BlockWord(block: seq<Byte>, t: nat): bv32
    requires |block| == 64 && t < 16
  {
    Pack(block[4 * t], block[4 * t + 1], block[4 * t + 2], block[4 * t + 3])
  }

  /** Section 6.2.2 step 1: the first t words of the message schedule. */
  function Schedule(block: seq<Byte>, t: nat): (w: seq<bv32>)
    requires |block| == 64 && t <= 64
    ensures |w| == t
  {
    if t == 0 then []
    else
      var w := Schedule(block, t - 1);
      w + [if t <= 16 then BlockWord(block, t - 1) else NextWord(w)]
  }

  function NextWord(w: seq<bv32>): bv32
    requires |w| >= 16
  {
    var t := |w|;
    Mix(w[t - 16], w[t - 15], w[t - 7], w[t - 2])
  }

  function Mix(w16: bv32, w15: bv32, w7: bv32, w2: bv32): bv32
  {
    Add(Add(Add(w16, SmallSigma0(w15)), w7), SmallSigma1(w2))
  }

  /** Every word of the schedule, as the standard's recurrence gives it. */
  lemma {:induction false} ScheduleWord(block: seq<Byte>, t: nat, i: nat)
    requires |block| == 64 && i < t <= 64
    ensures
      var w := Schedule(block, t);
      w[i] == if i < 16 then BlockWord(block, i) else Mix(w[i - 16], w[i - 15], w[i - 7], w[i - 2])
  {
    hide Mix, BlockWord;
    if i < t - 1 {
      ScheduleWord(block, t - 1, i);
    }
  }

  /** The eight working variables. */
  datatype Vars = Vars(a: bv32, b: bv32, c: bv32, d: bv32, e: bv32, f: bv32, g: bv32, h: bv32)

  /** Section 6.2.2 step 3, one value of t. */
  function Round(v: Vars, k: bv32, w: bv32): Vars
  {
    var t1 := Add(Add(Add(Add(v.h, BigSigma1(v.e)), Ch(v.e, v.f, v.g)), k), w);
    var t2 := Add(BigSigma0(v.a), Maj(v.a, v.b, v.c));
    Vars(Add(t1, t2), v.a, v.b, v.c, Add(v.d, t1), v.e, v.f, v.g)
  }

  /** The working variables after the first t rounds. */
  function Rounds(start: Vars, w: seq<bv32>, t: nat): Vars
    requires |w| == 64 && t <= 64
  {
    if t == 0 then start else Round(Rounds(start, w, t - 1), K(t - 1), w[t - 1])
  }

  function VarsOf(hash: seq<bv32>): Vars
    requires |hash| == 8
  {
    Vars(hash[0], hash[1], hash[2], hash[3], hash[4], hash[5], hash[6], hash[7])
  }

  /** Section 6.2.2 steps 2 to 4: the next intermediate hash value. */
  function Compress(hash: seq<bv32>, block: seq<Byte>): (next: seq<bv32>)
    requires |hash| == 8 && |block| == 64
    ensures |next| == 8
  {
    AddTo(hash, Rounds(VarsOf(hash), Schedule(block, 64), 64))
  }

  /** Section 6.2.2 step 4. */
  function AddTo(hash: seq<bv32>, v: Vars): (next: seq<bv32>)
    requires |hash| == 8
    ensures |next| == 8
  {
    [Add(hash[0], v.a), Add(hash[1], v.b), Add(hash[2], v.c), Add(hash[3], v.d),
     Add(hash[4], v.e), Add(hash[5], v.f), Add(hash[6], v.g), Add(hash[7], v.h)]
  }

  /** The intermediate hash value after a whole number of blocks. */
  function HashBlocks(data: seq<Byte>): (hash: seq<bv32>)
    requires |data| % 64 == 0
    ensures |hash| == 8
    decreases |data|
  {
    if data == [] then INITIAL
    else Compress(HashBlocks(data[..|data| - 64]), data[|data| - 64..])
  }

  lemma HashOfNothing()
    ensures HashBlocks([]) == INITIAL
  {
  }

  /** The k low-order base-256 digits of n, most significant first. */
  function BigEndian(n: nat, k: nat): (bytes: seq<Byte>)
    ensures |bytes| == k
  {
    if k == 0 then [] else BigEndian(n / 256, k - 1) + [n % 256]
  }

  function Zeros(k: nat): (z: seq<Byte>)
    ensures |z| == k
  {
    seq(k, _ => 0)
  }

  /** How many zero bytes section 5.1.1 puts between the 0x80 byte and the length field. */
  function ZeroCount(n: nat): (k: nat)
    ensures k < 64
  {
    (119 - n % 64) % 64
  }

  /** Section 5.1.1. The length field holds the bit count modulo 2^64; the standard needs fewer than 2^64 bits. */
  function Pad(msg: seq<Byte>): seq<Byte>
  {
    msg + [0x80] + Zeros(ZeroCount(|msg|)) + BigEndian(8 * |msg| % WRAP64, 8)
  }

  /** The big-endian bytes of the eight hash words. */
  function Serialize(hash: seq<bv32>): (bytes: seq<Byte>)
    requires |hash| == 8
    ensures |bytes| == 32
  {
    seq(32, i requires 0 <= i < 32 => WordByte(hash[i / 4], i % 4))
  }

  function WordByte(w: bv32, j: nat): Byte
    requires j < 4
  {
    match j
    case 0 => ((w >> 24) & 0xff) as bv8 as int
    case 1 => ((w >> 16) & 0xff) as bv8 as int
    case 2 => ((w >> 8) & 0xff) as bv8 as int
    case _ => (w & 0xff) as bv8 as int
  }

  /** The SHA-256 digest of a message. */
  function Sha256(msg: seq<Byte>): (digest: seq<Byte>)
    ensures |digest| == 32
  {
    PadIsWholeBlocks(msg);
    Serialize(HashBlocks(Pad(msg)))
  }

  lemma PadIsWholeBlocks(msg: seq<Byte>)
    ensures |Pad(msg)| % 64 == 0
  {
    PaddedLength(|msg|);
  }

  lemma PaddedLength(n: nat)
    ensures (n + 1 + ZeroCount(n) + 8) % 64 == 0
  {
  }

  /** The zero count is the least one that leaves room for the length field, as section 5.1.1 asks. */
  lemma ZeroCountIsLeast(n: nat, k: nat)
    ensures (n + 1 + ZeroCount(n)) % 64 == 56
    ensures (n + 1 + k) % 64 == 56 ==> ZeroCount(n) <= k
  {
    var r := n % 64;
    assert ZeroCount(n) == if r <= 55 then 55 - r else 119 - r;
    if k < ZeroCount(n) {
      assert (n + 1 + k) % 64 == (r + 1 + k) % 64;
    }
  }

  /** The value a big-endian byte string stands for. */
  function FromBigEndian(bytes: seq<Byte>): (n: nat)
  {
    if bytes == [] then 0
    else 256 * FromBigEndian(bytes[..|bytes| - 1]) + bytes[|bytes| - 1]
  }

  function Pow256(k: nat): (p: nat)
    ensures p > 0
  {
    if k == 0 then 1 else 256 * Pow256(k - 1)
  }

  /** n shifted right by k bytes. */
  function ShiftBytes(n: nat, k: nat): nat
  {
    if k == 0 then n else ShiftBytes(n / 256, k - 1)
  }

  /** Digit i of the encoding is the one a shift by the remaining bytes exposes. */
  lemma {:induction false} BigEndianAt(n: nat, k: nat, i: nat)
    requires i < k
    ensures BigEndian(n, k)[i] == ShiftBytes(n, k - 1 - i) % 256
  {
    if i < k - 1 {
      BigEndianAt(n / 256, k - 1, i);
    }
  }

  /** A length field decodes to the bit count it was made from. */
  lemma {:induction false} BigEndianRoundTrip(n: nat, k: nat)
    requires n < Pow256(k)
    ensures FromBigEndian(BigEndian(n, k)) == n
  {
    if k > 0 {
      BigEndianRoundTrip(n / 256, k - 1);
      assert BigEndian(n, k)[..k - 1] == BigEndian(n / 256, k - 1);
    }
  }

  /** Below the standard's limit the length field holds the message's bit count, whatever the message. */
  lemma LengthField(msg: seq<Byte>)
    requires 8 * |msg| < WRAP64
    ensures FromBigEndian(Pad(msg)[|Pad(msg)| - 8..]) == 8 * |msg|
  {
    hide BigEndian;
    var field := BigEndian(8 * |msg| % WRAP64, 8);
    assert Pad(msg)[|Pad(msg)| - 8..] == field;
    assert Pow256(8) == WRAP64 by { SixtyFourBits(); }
    BigEndianRoundTrip(8 * |msg|, 8);
  }

  lemma SixtyFourBits()
    ensures Pow256(8) == WRAP64
  {
    assert Pow256(4) == 0x1_0000_0000;
  }

  /** No two messages within the standard's limit are padded alike. */
  lemma PadIsInjective(a: seq<Byte>, b: seq<Byte>)
    requires 8 * |a| < WRAP64 && 8 * |b| < WRAP64
    requires Pad(a) == Pad(b)
    ensures a == b
  {
    hide BigEndian, FromBigEndian, Zeros;
    LengthField(a);
    LengthField(b);
    assert a == Pad(a)[..|a|] && b == Pad(b)[..|b|];
  }
}

/**
 The streaming hash object: whole blocks go straight to the compression function, the tail waits in a
 64-byte buffer, and the padding is fed through the same update path as the data.
 */
module Sha256Stream {
  import opened Common
  import opened Sha256Spec

  class Hasher {
    const state: array<bv32>
    const buffer: array<Byte>
    var used: nat
    var totalBits: nat
    /** Every byte absorbed since the last reset, and the whole blocks among them. */
    ghost var absorbed: seq<Byte>
    ghost var whole: seq<Byte>

    /** State and buffer represent the absorbed bytes; nothing is said about the bit count. */
    ghost predicate Absorbing()
      reads this, state, buffer
    {
      && state.Length == 8 && buffer.Length == 64
      && used < 64
      && |whole| % 64 == 0
      && absorbed == whole + buffer[..used]
      && state[..] == HashBlocks(whole)
    }

    ghost predicate Valid()
      reads this, state, buffer
    {
      Absorbing() && totalBits == 8 * |absorbed| % WRAP64
    }

    /** Exactly the contents a newly constructed object has. */
    ghost predicate Fresh()
      reads this, state, buffer
    {
      && Valid() && absorbed == [] && used == 0 && totalBits == 0
      && state[..] == INITIAL && buffer[..] == Zeros(64)
    }

    constructor ()
      ensures Fresh() && fresh(state) && fresh(buffer)
    {
      state := new bv32[8];
      buffer := new Byte[64];
      new;
      Reset();
    }

    method Reset()
      requires state.Length == 8 && buffer.Length == 64
      modifies this, state, buffer
      ensures Fresh()
    {
      hide Compress, HashBlocks;
      state[0], state[1], state[2], state[3] := 0x6a09e667, 0xbb67ae85, 0x3c6ef372, 0xa54ff53a;
      state[4], state[5], state[6], state[7] := 0x510e527f, 0x9b05688c, 0x1f83d9ab, 0x5be0cd19;
      totalBits := 0;
      used := 0;
      forall i | 0 <= i < 64 { buffer[i] := 0; }
      absorbed, whole := [], [];
      assert state[..] == INITIAL;
      assert buffer[..] == Zeros(64);
      HashOfNothing();
    }

    method ProcessBlock(block: seq<Byte>)
      requires |block| == 64 && state.Length == 8
      modifies state
      ensures state[..] == Compress(old(state[..]), block)
    {
      var w := ExpandBlock(block);
      var v := RunRounds(state[..], w);
      AddVars(v);
    }

    /** Adds the working variables into the state words. */
    method AddVars(v: Vars)
      requires state.Length == 8
      modifies state
      ensures state[..] == AddTo(old(state[..]), v)
    {
      hide Add;
      state[0], state[1], state[2], state[3], state[4], state[5], state[6], state[7] :=
        Add(state[0], v.a), Add(state[1], v.b), Add(state[2], v.c), Add(state[3], v.d),
        Add(state[4], v.e), Add(state[5], v.f), Add(state[6], v.g), Add(state[7], v.h);
    }

    /** The two schedule loops of the block step. */
    static method ExpandBlock(block: seq<Byte>) returns (words: seq<bv32>)
      requires |block| == 64
      ensures words == Schedule(block, 64)
    {
      hide Pack, Add, SmallSigma0, SmallSigma1;
      words := [];
      for i := 0 to 16
        invariant words == Schedule(block, i)
      {
        var word := Pack(block[4 * i], block[4 * i + 1], block[4 * i + 2], block[4 * i + 3]);
        assert word == BlockWord(block, i);
        words := words + [word];
      }
      for i := 16 to 64
        invariant words == Schedule(block, i)
      {
        var s0 := SmallSigma0(words[i - 15]);
        var s1 := SmallSigma1(words[i - 2]);
        var word := Add(Add(Add(words[i - 16], s0), words[i - 7]), s1);
        assert word == NextWord(words);
        words := words + [word];
      }
    }

    /** The round loop of the block step. */
    static method RunRounds(hash: seq<bv32>, w: seq<bv32>) returns (v: Vars)
      requires |hash| == 8 && |w| == 64
      ensures v == Rounds(VarsOf(hash), w, 64)
    {
      hide BigSigma0, BigSigma1, Ch, Maj, Add, K;
      var a, b, c, d := hash[0], hash[1], hash[2], hash[3];
      var e, f, g, h := hash[4], hash[5], hash[6], hash[7];
      for i := 0 to 64
        invariant Vars(a, b, c, d, e, f, g, h) == Rounds(VarsOf(hash), w, i)
      {
        var s1 := BigSigma1(e);
        var ch := Ch(e, f, g);
        var temp1 := Add(Add(Add(Add(h, s1), ch), K(i)), w[i]);
        var s0 := BigSigma0(a);
        var maj := Maj(a, b, c);
        var temp2 := Add(s0, maj);
        h := g;
        g := f;
        f := e;
        e := Add(d, temp1);
        d := c;
        c := b;
        b := a;
        a := Add(temp1, temp2);
      }
      v := Vars(a, b, c, d, e, f, g, h);
    }

    /** Absorbs a byte range; may be called repeatedly to hash a stream. */
    method Update(data: seq<Byte>)
      requires Absorbing()
      modifies this, state, buffer
      ensures Absorbing() && absorbed == old(absorbed) + data
      ensures totalBits == (old(totalBits) + 8 * |data|) % WRAP64
    {
      hide Compress;
      totalBits := (totalBits + 8 * |data|) % WRAP64;
      var rest := data;
      if used > 0 {
        rest := FillBuffer(rest);
      }
      while |rest| >= 64
        invariant Absorbing() && (used == 0 || rest == [])
        invariant absorbed + rest == old(absorbed) + data
        invariant totalBits == (old(totalBits) + 8 * |data|) % WRAP64
      {
        TakeBlock(rest[..64]);
        assert rest == rest[..64] + rest[64..];
        rest := rest[64..];
      }
      if |rest| > 0 {
        CopyIn(rest);
      }
    }

    /** Compresses one block while the buffer is empty. */
    method TakeBlock(block: seq<Byte>)
      requires Absorbing() && used == 0 && |block| == 64
      modifies this`absorbed, this`whole, state
      ensures Absorbing() && absorbed == old(absorbed) + block
    {
      hide Compress;
      ProcessBlock(block);
      HashOneMore(whole, block);
      whole := whole + block;
      absorbed := absorbed + block;
    }

    /** Appends bytes that leave the buffer short of a whole block. */
    method CopyIn(data: seq<Byte>)
      requires Absorbing() && used + |data| < 64
      modifies this`used, this`absorbed, buffer
      ensures Absorbing() && absorbed == old(absorbed) + data && used == old(used) + |data|
    {
      hide Compress;
      forall i | 0 <= i < |data| { buffer[used + i] := data[i]; }
      assert buffer[..used + |data|] == old(buffer[..used]) + data;
      used := used + |data|;
      absorbed := absorbed + data;
    }

    /** Tops up a partly filled buffer, compressing it when it becomes full. */
    method FillBuffer(data: seq<Byte>) returns (rest: seq<Byte>)
      requires Absorbing() && used > 0
      modifies this`used, this`absorbed, this`whole, state, buffer
      ensures Absorbing() && (used == 0 || rest == [])
      ensures absorbed + rest == old(absorbed) + data
    {
      hide Compress, HashBlocks;
      var need := 64 - used;
      if |data| < need {
        CopyIn(data);
        rest := [];
      } else {
        forall i | 0 <= i < need { buffer[used + i] := data[i]; }
        ghost var block := buffer[..];
        assert block == old(buffer[..used]) + data[..need];
        assert state[..] == HashBlocks(whole);
        ProcessBlock(buffer[..]);
        HashOneMore(whole, block);
        whole := whole + block;
        absorbed := whole;
        used := 0;
        rest := data[need..];
        assert data == data[..need] + rest;
      }
    }

    static lemma HashOneMore(data: seq<Byte>, block: seq<Byte>)
      requires |data| % 64 == 0 && |block| == 64
      ensures HashBlocks(data + block) == Compress(HashBlocks(data), block)
    {
      hide Compress;
      assert (data + block)[..|data + block| - 64] == data;
      assert (data + block)[|data + block| - 64..] == block;
    }

    /** Pads, writes the digest of everything absorbed into out, and leaves the object as good as new. */
    method Final(out: array<Byte>)
      requires Valid() && out.Length == 32 && out != buffer
      modifies this, state, buffer, out
      ensures out[..] == Sha256(old(absorbed))
      ensures Fresh()
    {
      hide Compress, HashBlocks, BigEndian, Serialize;
      ghost var msg := absorbed;
      var bits := totalBits;
      PadWithZeros();
      var lengthBytes := LengthBytes(bits);
      totalBits := bits;
      Update(lengthBytes);
      assert absorbed == Pad(msg);
      PadIsWholeBlocks(msg);
      assert used == 0 && whole == Pad(msg);
      WriteWords(out);
      Reset();
    }

    /** The 0x80 byte, then zero bytes until 56 bytes of a block are in the buffer. */
    method PadWithZeros()
      requires Absorbing()
      modifies this, state, buffer
      ensures Absorbing() && used == 56
      ensures absorbed == old(absorbed) + [0x80] + Zeros(ZeroCount(|old(absorbed)|))
    {
      hide Compress, HashBlocks, ZeroCount, Zeros;
      ghost var msg := absorbed;
      ZerosLeftIsZeroCount(|whole|, used);
      UpdateByte(0x80);
      ghost var zeros := 0;
      NoZeros();
      while used != 56
        invariant Absorbing()
        invariant absorbed == msg + [0x80] + Zeros(zeros)
        invariant zeros + ZerosLeft(used) == ZeroCount(|msg|)
        decreases ZerosLeft(used)
      {
        UpdateByte(0);
        OneMoreZero(zeros);
        zeros := zeros + 1;
      }
    }

    /** An update by one byte moves the buffer position one place round. */
    method UpdateByte(b: Byte)
      requires Absorbing()
      modifies this, state, buffer
      ensures Absorbing() && absorbed == old(absorbed) + [b]
      ensures used == Next(old(used))
      ensures totalBits == (old(totalBits) + 8) % WRAP64
    {
      hide Compress, HashBlocks;
      Update([b]);
      NextPosition(|old(whole)|, old(used), |whole|, used);
    }

    static function Next(used: nat): nat { if used == 63 then 0 else used + 1 }

    /** How many more bytes bring the buffer to 56: (56 - used) modulo 64. */
    static function ZerosLeft(used: nat): nat
      requires used < 64
    {
      if used <= 56 then 56 - used else 120 - used
    }

    static lemma NextPosition(whole: nat, used: nat, whole': nat, used': nat)
      requires whole % 64 == 0 && whole' % 64 == 0 && used < 64 && used' < 64
      requires whole' + used' == whole + used + 1
      ensures used' == Next(used)
    {
    }

    static lemma ZerosLeftIsZeroCount(whole: nat, used: nat)
      requires whole % 64 == 0 && used < 64
      ensures ZerosLeft(Next(used)) == ZeroCount(whole + used)
    {
    }

    static lemma NoZeros()
      ensures Zeros(0) == []
    {
    }

    static lemma OneMoreZero(k: nat)
      ensures Zeros(k + 1) == Zeros(k) + [0]
    {
    }

    /** The bit count as a 64-bit big-endian field. */
    static method LengthBytes(bits: nat) returns (bytes: seq<Byte>)
      ensures bytes == BigEndian(bits, 8)
    {
      hide BigEndian;
      bytes := [];
      for i := 0 to 8
        invariant |bytes| == i
        invariant forall j :: 0 <= j < i ==> bytes[j] == BigEndian(bits, 8)[j]
      {
        BigEndianAt(bits, 8, i);
        bytes := bytes + [ShiftBytes(bits, 7 - i) % 256];
      }
    }

    /** The state words as big-endian bytes. */
    method WriteWords(out: array<Byte>)
      requires state.Length == 8 && out.Length == 32
      modifies out
      ensures out[..] == Serialize(state[..])
    {
      hide WordByte;
      for i := 0 to 8
        invariant forall j :: 0 <= j < 4 * i ==> out[j] == Serialize(state[..])[j]
      {
        out[i * 4] := WordByte(state[i], 0);
        out[i * 4 + 1] := WordByte(state[i], 1);
        out[i * 4 + 2] := WordByte(state[i], 2);
        out[i * 4 + 3] := WordByte(state[i], 3);
      }
    }
  }

  /** One-shot digest. */
  method Digest(text: seq<Byte>) returns (digest: seq<Byte>)
    ensures digest == Sha256(text)
  {
    hide Sha256;
    var hash := new Hasher();
    hash.Update(text);
    assert hash.absorbed == text;
    var out := new Byte[32];
    hash.Final(out);
    digest := out[..];
  }

  /** Streaming any split of a message, and then reusing the object, gives the digests of the messages. */
  method DigestStreams(first: seq<seq<Byte>>, second: seq<seq<Byte>>) returns (d1: seq<Byte>, d2: seq<Byte>)
    ensures d1 == Sha256(Concat(first)) && d2 == Sha256(Concat(second))
  {
    hide Sha256;
    var hash := new Hasher();
    d1 := DigestChunks(hash, first);
    d2 := DigestChunks(hash, second);
  }

  method DigestChunks(hash: Hasher, chunks: seq<seq<Byte>>) returns (digest: seq<Byte>)
    requires hash.Fresh()
    modifies hash, hash.state, hash.buffer
    ensures hash.Fresh()
    ensures digest == Sha256(Concat(chunks))
  {
    hide Sha256, HashBlocks;
    for i := 0 to |chunks|
      invariant hash.Valid() && hash.absorbed == Concat(chunks[..i])
    {
      hash.Update(chunks[i]);
      assert chunks[..i + 1][..i] == chunks[..i];
    }
    assert chunks[..|chunks|] == chunks;
    var out := new Byte[32];
    hash.Final(out);
    digest := out[..];
  }

  /** Two lowercase digits per byte. */
  function Hex(bytes: seq<Byte>): (hex: string)
    ensures |hex| == 2 * |bytes|
  {
    if bytes == [] then ""
    else
      var last := bytes[|bytes| - 1];
      Hex(bytes[..|bytes| - 1]) + [HexDigit(last / 16), HexDigit(last % 16)]
  }

  function HexValue(c: char): int
  {
    if '0' <= c <= '9' then c as int - '0' as int else c as int - 'a' as int + 10
  }

  predicate IsHexDigit(c: char)
  {
    '0' <= c <= '9' || 'a' <= c <= 'f'
  }

  lemma HexDigitValue(n: nat)
    requires n < 16
    ensures IsHexDigit(HexDigit(n)) && HexValue(HexDigit(n)) == n
  {
    assert HexDigit(n) == if n < 10 then '0' + n as char else 'a' + (n - 10) as char;
  }

  /** Byte i is spelled by two lower-case digits, the high half first. */
  lemma {:induction false} HexAt(bytes: seq<Byte>, i: nat)
    requires i < |bytes|
    ensures
      var high, low := Hex(bytes)[2 * i], Hex(bytes)[2 * i + 1];
      && IsHexDigit(high) && IsHexDigit(low)
      && 16 * HexValue(high) + HexValue(low) == bytes[i]
  {
    hide HexDigit, HexValue;
    var n := |bytes| - 1;
    if i < n {
      HexAt(bytes[..n], i);
    } else {
      HexDigitValue(bytes[i] / 16);
      HexDigitValue(bytes[i] % 16);
    }
  }

  /** Equal hex texts come from equal digests, so comparing a pin as text compares the digests. */
  lemma {:induction false} HexIsInjective(a: seq<Byte>, b: seq<Byte>)
    requires Hex(a) == Hex(b)
    ensures a == b
  {
    hide HexDigit, HexValue;
    assert |a| == |b|;
    if a != [] {
      var n := |a| - 1;
      var x, y := a[n], b[n];
      assert Hex(a)[..2 * n] == Hex(a[..n]) && Hex(b)[..2 * n] == Hex(b[..n]);
      HexIsInjective(a[..n], b[..n]);
      assert Hex(a)[2 * n] == HexDigit(x / 16) && Hex(b)[2 * n] == HexDigit(y / 16);
      assert Hex(a)[2 * n + 1] == HexDigit(x % 16) && Hex(b)[2 * n + 1] == HexDigit(y % 16);
      HexDigitValue(x / 16);
      HexDigitValue(y / 16);
      HexDigitValue(x % 16);
      HexDigitValue(y % 16);
      assert a == a[..n] + [x] && b == b[..n] + [y];
    }
  }

  method HexDigest(text: seq<Byte>) returns (hex: string)
    ensures hex == Hex(Sha256(text)) && |hex| == 64
  {
    hide Sha256, HexDigit;
    var raw := Digest(text);
    hex := "";
    for i := 0 to |raw|
      invariant hex == Hex(raw[..i])
    {
      assert raw[..i + 1][..i] == raw[..i];
      hex := hex + [HexDigit(raw[i] / 16)];
      hex := hex + [HexDigit(raw[i] % 16)];
    }
    assert raw[..|raw|] == raw;
  }
}
