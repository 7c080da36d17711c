/** What the functions and constants of SHA-256 are, said without their definitions. */
module Sha256Facts {
  import opened Common
  import opened Sha256Spec

  // ---------- Bits ----------

  /** The word with bit i alone. */
  function Mask(i: nat): bv32
  {
    if i == 0 then 1 else Mask(i - 1) << 1
  }

  predicate None(x: bv32, m: bv32) { x & m == 0 }

  predicate All(x: bv32, m: bv32) { x & m == m }

  /** Some bit of m is set in x. */
  predicate On(x: bv32, m: bv32) { !None(x, m) }

  /** Exactly one of the two. */
  predicate Sharp(x: bv32, m: bv32) { All(x, m) != None(x, m) }

  predicate Bit(x: bv32, i: nat) { On(x, Mask(i)) }

  predicate Odd(a: bool, b: bool, c: bool) { a != (b != c) }

  predicate Twice(a: bool, b: bool, c: bool) { (a && b) || (a && c) || (b && c) }

  lemma Masks()
    ensures Mask(0) == 0x1 && Mask(1) == 0x2 && Mask(2) == 0x4 && Mask(3) == 0x8
    ensures Mask(4) == 0x10 && Mask(5) == 0x20 && Mask(6) == 0x40 && Mask(7) == 0x80
    ensures Mask(8) == 0x100 && Mask(9) == 0x200 && Mask(10) == 0x400 && Mask(11) == 0x800
    ensures Mask(12) == 0x1000 && Mask(13) == 0x2000 && Mask(14) == 0x4000 && Mask(15) == 0x8000
    ensures Mask(16) == 0x10000 && Mask(17) == 0x20000 && Mask(18) == 0x40000 && Mask(19) == 0x80000
    ensures Mask(20) == 0x100000 && Mask(21) == 0x200000 && Mask(22) == 0x400000 && Mask(23) == 0x800000
    ensures Mask(24) == 0x1000000 && Mask(25) == 0x2000000 && Mask(26) == 0x4000000 && Mask(27) == 0x8000000
    ensures Mask(28) == 0x10000000 && Mask(29) == 0x20000000 && Mask(30) == 0x40000000 && Mask(31) == 0x80000000
  {
    assert Mask(0) == 0x1 && Mask(1) == 0x2 && Mask(2) == 0x4 && Mask(3) == 0x8;
    assert Mask(4) == 0x10 && Mask(5) == 0x20 && Mask(6) == 0x40 && Mask(7) == 0x80;
    assert Mask(8) == 0x100 && Mask(9) == 0x200 && Mask(10) == 0x400 && Mask(11) == 0x800;
    assert Mask(12) == 0x1000 && Mask(13) == 0x2000 && Mask(14) == 0x4000 && Mask(15) == 0x8000;
    assert Mask(16) == 0x10000 && Mask(17) == 0x20000 && Mask(18) == 0x40000 && Mask(19) == 0x80000;
    assert Mask(20) == 0x100000 && Mask(21) == 0x200000 && Mask(22) == 0x400000 && Mask(23) == 0x800000;
    assert Mask(24) == 0x1000000 && Mask(25) == 0x2000000 && Mask(26) == 0x4000000 && Mask(27) == 0x8000000;
    assert Mask(28) == 0x10000000 && Mask(29) == 0x20000000 && Mask(30) == 0x40000000 && Mask(31) == 0x80000000;
  }

  lemma MaskAlone(x: bv32, i: nat)
    requires i < 32
    ensures Sharp(x, Mask(i)) && Mask(i) != 0
  {
    hide Mask;
    Masks();
  }

  /** One place to the left, around the end. */
  function Left(m: bv32): bv32 { (m << 1) | (m >> 31) }

  lemma LeftMask(i: nat)
    requires i < 32
    ensures Left(Mask(i)) == Mask((i + 1) % 32)
  {
    hide Mask;
    Masks();
  }

  function Up3(m: bv32): bv32 { m << 3 }

  function Up10(m: bv32): bv32 { m << 10 }

  lemma ShiftMask(i: nat)
    requires i < 32
    ensures Up3(Mask(i)) == if i + 3 < 32 then Mask(i + 3) else 0
    ensures Up10(Mask(i)) == if i + 10 < 32 then Mask(i + 10) else 0
  {
    hide Mask;
    Masks();
  }

  lemma RightIsLeft(x: bv32, m: bv32)
    ensures On(Rotr(x, 1), m) <==> On(x, Left(m))
  {
  }

  lemma RotrStep(x: bv32, n: bv6)
    requires 0 < n < 31
    ensures Rotr(x, n + 1) == Rotr(Rotr(x, n), 1)
  {
  }

  /** A count as a shift amount. */
  function Amount(k: nat): bv6
  {
    if k == 0 then 0 else Amount(k - 1) + 1
  }

  lemma Amounts()
    ensures Amount(1) == 1 && Amount(2) == 2 && Amount(3) == 3 && Amount(4) == 4 && Amount(5) == 5
    ensures Amount(6) == 6 && Amount(7) == 7 && Amount(8) == 8 && Amount(9) == 9 && Amount(10) == 10
    ensures Amount(11) == 11 && Amount(12) == 12 && Amount(13) == 13 && Amount(14) == 14 && Amount(15) == 15
    ensures Amount(16) == 16 && Amount(17) == 17 && Amount(18) == 18 && Amount(19) == 19 && Amount(20) == 20
    ensures Amount(21) == 21 && Amount(22) == 22 && Amount(23) == 23 && Amount(24) == 24 && Amount(25) == 25
  {
    assert Amount(1) == 1 && Amount(2) == 2 && Amount(3) == 3 && Amount(4) == 4 && Amount(5) == 5;
    assert Amount(6) == 6 && Amount(7) == 7 && Amount(8) == 8 && Amount(9) == 9 && Amount(10) == 10;
    assert Amount(11) == 11 && Amount(12) == 12 && Amount(13) == 13 && Amount(14) == 14 && Amount(15) == 15;
    assert Amount(16) == 16 && Amount(17) == 17 && Amount(18) == 18 && Amount(19) == 19 && Amount(20) == 20;
    assert Amount(21) == 21 && Amount(22) == 22 && Amount(23) == 23 && Amount(24) == 24 && Amount(25) == 25;
  }

  lemma AmountFits(k: nat)
    requires 0 < k < 26
    ensures 0 < Amount(k) < 31
  {
    hide Amount;
    Amounts();
  }

  lemma AmountStep(k: nat)
    requires 1 < k < 26
    ensures 0 < Amount(k - 1) < 31 && Amount(k) == Amount(k - 1) + 1
  {
    AmountFits(k - 1);
  }

  lemma RotrMore(x: bv32, k: nat)
    requires 1 < k < 26
    ensures 0 < Amount(k - 1) < 31 && 0 < Amount(k) < 31
    ensures Rotr(x, Amount(k)) == Rotr(Rotr(x, Amount(k - 1)), 1)
  {
    hide Rotr;
    AmountFits(k);
    AmountStep(k);
    hide Amount;
    RotrStep(x, Amount(k - 1));
  }

  lemma RotrOneBit(x: bv32, i: nat)
    requires i < 32
    ensures Bit(Rotr(x, 1), i) <==> Bit(x, (i + 1) % 32)
  {
    hide Rotr, Left, Mask, On;
    RightIsLeft(x, Mask(i));
    LeftMask(i);
  }

  /** Rotating right by k brings bit i + k, counted around the end, to place i. */
  lemma {:induction false} RotrBit(x: bv32, k: nat, i: nat)
    requires 0 < k < 26 && i < 32
    ensures 0 < Amount(k) < 31 && (Bit(Rotr(x, Amount(k)), i) <==> Bit(x, (i + k) % 32))
  {
    AmountFits(k);
    if k == 1 {
      assert Amount(1) == 1;
      hide Rotr, Bit, Amount;
      RotrOneBit(x, i);
    } else {
      hide Rotr, Bit, Amount;
      RotrMore(x, k);
      RotrOneBit(Rotr(x, Amount(k - 1)), i);
      RotrBit(x, k - 1, (i + 1) % 32);
    }
  }

  lemma ShiftOn3(x: bv32, m: bv32)
    ensures On(Shr(x, 3), m) <==> On(x, Up3(m))
  {
  }

  lemma ShiftOn10(x: bv32, m: bv32)
    ensures On(Shr(x, 10), m) <==> On(x, Up10(m))
  {
  }

  lemma NothingOn(x: bv32)
    ensures !On(x, 0)
  {
  }

  lemma ShrBit(x: bv32, i: nat)
    requires i < 32
    ensures Bit(Shr(x, 3), i) <==> i + 3 < 32 && Bit(x, i + 3)
    ensures Bit(Shr(x, 10), i) <==> i + 10 < 32 && Bit(x, i + 10)
  {
    hide Mask, On, Shr, Up3, Up10;
    ShiftOn3(x, Mask(i));
    ShiftOn10(x, Mask(i));
    NothingOn(x);
    ShiftMask(i);
  }

  lemma NoneNone(a: bv32, b: bv32, m: bv32)
    requires None(a, m) && None(b, m)
    ensures None(Xor2(a, b), m)
  {
  }

  lemma NoneAll(a: bv32, b: bv32, m: bv32)
    requires None(a, m) && All(b, m)
    ensures All(Xor2(a, b), m) && All(Xor2(b, a), m)
  {
  }

  lemma AllAll(a: bv32, b: bv32, m: bv32)
    requires All(a, m) && All(b, m)
    ensures None(Xor2(a, b), m)
  {
  }

  lemma NotBoth(x: bv32, m: bv32)
    requires m != 0
    ensures !(All(x, m) && None(x, m))
  {
  }

  lemma Xor2On(a: bv32, b: bv32, m: bv32)
    requires Sharp(a, m) && Sharp(b, m) && m != 0
    ensures Sharp(Xor2(a, b), m)
    ensures On(Xor2(a, b), m) <==> On(a, m) != On(b, m)
  {
    hide None, All, Xor2;
    NotBoth(Xor2(a, b), m);
    if None(a, m) {
      if None(b, m) { NoneNone(a, b, m); } else { NoneAll(a, b, m); }
    } else {
      if None(b, m) { NoneAll(b, a, m); } else { AllAll(a, b, m); }
    }
  }

  lemma XorBit(a: bv32, b: bv32, c: bv32, i: nat)
    requires i < 32
    ensures Bit(Xor(a, b, c), i) <==> Odd(Bit(a, i), Bit(b, i), Bit(c, i))
  {
    hide Mask, On, Sharp, Xor2;
    MaskAlone(a, i);
    MaskAlone(b, i);
    MaskAlone(c, i);
    Xor2On(a, b, Mask(i));
    Xor2On(Xor2(a, b), c, Mask(i));
  }

  /** Section 4.1.2, bit by bit. */
  lemma SmallSigma0Bits(x: bv32, i: nat)
    requires i < 32
    ensures Bit(SmallSigma0(x), i) <==>
      Odd(Bit(x, (i + 7) % 32), Bit(x, (i + 18) % 32), i + 3 < 32 && Bit(x, i + 3))
  {
    hide Bit, Rotr, Shr, Amount, Xor, Odd;
    Amounts();
    RotrBit(x, 7, i);
    RotrBit(x, 18, i);
    ShrBit(x, i);
    XorBit(Rotr(x, 7), Rotr(x, 18), Shr(x, 3), i);
  }

  lemma SmallSigma1Bits(x: bv32, i: nat)
    requires i < 32
    ensures Bit(SmallSigma1(x), i) <==>
      Odd(Bit(x, (i + 17) % 32), Bit(x, (i + 19) % 32), i + 10 < 32 && Bit(x, i + 10))
  {
    hide Bit, Rotr, Shr, Amount, Xor, Odd;
    Amounts();
    RotrBit(x, 17, i);
    RotrBit(x, 19, i);
    ShrBit(x, i);
    XorBit(Rotr(x, 17), Rotr(x, 19), Shr(x, 10), i);
  }

  lemma BigSigma0Bits(x: bv32, i: nat)
    requires i < 32
    ensures Bit(BigSigma0(x), i) <==>
      Odd(Bit(x, (i + 2) % 32), Bit(x, (i + 13) % 32), Bit(x, (i + 22) % 32))
  {
    hide Bit, Rotr, Shr, Amount, Xor, Odd;
    Amounts();
    RotrBit(x, 2, i);
    RotrBit(x, 13, i);
    RotrBit(x, 22, i);
    XorBit(Rotr(x, 2), Rotr(x, 13), Rotr(x, 22), i);
  }

  lemma BigSigma1Bits(x: bv32, i: nat)
    requires i < 32
    ensures Bit(BigSigma1(x), i) <==>
      Odd(Bit(x, (i + 6) % 32), Bit(x, (i + 11) % 32), Bit(x, (i + 25) % 32))
  {
    hide Bit, Rotr, Shr, Amount, Xor, Odd;
    Amounts();
    RotrBit(x, 6, i);
    RotrBit(x, 11, i);
    RotrBit(x, 25, i);
    XorBit(Rotr(x, 6), Rotr(x, 11), Rotr(x, 25), i);
  }

  lemma ChNone(x: bv32, y: bv32, z: bv32, m: bv32)
    ensures All(x, m) && None(y, m) ==> None(Ch(x, y, z), m)
  {
  }

  lemma ChAll(x: bv32, y: bv32, z: bv32, m: bv32)
    ensures All(x, m) && All(y, m) ==> All(Ch(x, y, z), m)
  {
  }

  lemma ChElseNone(x: bv32, y: bv32, z: bv32, m: bv32)
    ensures None(x, m) && None(z, m) ==> None(Ch(x, y, z), m)
  {
  }

  lemma ChElseAll(x: bv32, y: bv32, z: bv32, m: bv32)
    ensures None(x, m) && All(z, m) ==> All(Ch(x, y, z), m)
  {
  }

  lemma ChOn(x: bv32, y: bv32, z: bv32, m: bv32)
    requires Sharp(x, m) && Sharp(y, m) && Sharp(z, m) && m != 0
    ensures On(Ch(x, y, z), m) <==> if On(x, m) then On(y, m) else On(z, m)
  {
    hide Ch, None, All;
    NotBoth(Ch(x, y, z), m);
    ChNone(x, y, z, m);
    ChAll(x, y, z, m);
    ChElseNone(x, y, z, m);
    ChElseAll(x, y, z, m);
  }

  lemma ChBits(x: bv32, y: bv32, z: bv32, i: nat)
    requires i < 32
    ensures Bit(Ch(x, y, z), i) <==> if Bit(x, i) then Bit(y, i) else Bit(z, i)
  {
    hide Mask, Ch, On, Sharp;
    MaskAlone(x, i);
    MaskAlone(y, i);
    MaskAlone(z, i);
    ChOn(x, y, z, Mask(i));
  }

  lemma MajAllXY(x: bv32, y: bv32, z: bv32, m: bv32)
    ensures All(x, m) && All(y, m) ==> All(Maj(x, y, z), m)
  {
  }

  lemma MajAllXZ(x: bv32, y: bv32, z: bv32, m: bv32)
    ensures All(x, m) && All(z, m) ==> All(Maj(x, y, z), m)
  {
  }

  lemma MajAllYZ(x: bv32, y: bv32, z: bv32, m: bv32)
    ensures All(y, m) && All(z, m) ==> All(Maj(x, y, z), m)
  {
  }

  lemma MajNoneXY(x: bv32, y: bv32, z: bv32, m: bv32)
    ensures None(x, m) && None(y, m) ==> None(Maj(x, y, z), m)
  {
  }

  lemma MajNoneXZ(x: bv32, y: bv32, z: bv32, m: bv32)
    ensures None(x, m) && None(z, m) ==> None(Maj(x, y, z), m)
  {
  }

  lemma MajNoneYZ(x: bv32, y: bv32, z: bv32, m: bv32)
    ensures None(y, m) && None(z, m) ==> None(Maj(x, y, z), m)
  {
  }

  lemma MajOn(x: bv32, y: bv32, z: bv32, m: bv32)
    requires Sharp(x, m) && Sharp(y, m) && Sharp(z, m) && m != 0
    ensures On(Maj(x, y, z), m) <==> Twice(On(x, m), On(y, m), On(z, m))
  {
    hide Maj, None, All;
    NotBoth(Maj(x, y, z), m);
    MajAllXY(x, y, z, m);
    MajAllXZ(x, y, z, m);
    MajAllYZ(x, y, z, m);
    MajNoneXY(x, y, z, m);
    MajNoneXZ(x, y, z, m);
    MajNoneYZ(x, y, z, m);
  }

  lemma MajBits(x: bv32, y: bv32, z: bv32, i: nat)
    requires i < 32
    ensures Bit(Maj(x, y, z), i) <==> Twice(Bit(x, i), Bit(y, i), Bit(z, i))
  {
    hide Mask, Maj, On, Sharp;
    MaskAlone(x, i);
    MaskAlone(y, i);
    MaskAlone(z, i);
    MajOn(x, y, z, Mask(i));
  }

  // ---------- Constants ----------

  const TWO32: nat := 0x1_0000_0000
  const TWO64: nat := 0x1_0000_0000_0000_0000
  const TWO96: nat := 0x1_0000_0000_0000_0000_0000_0000

  const PRIMES: seq<seq<nat>> := [
    [2, 3, 5, 7, 11, 13, 17, 19],
    [23, 29, 31, 37, 41, 43, 47, 53],
    [59, 61, 67, 71, 73, 79, 83, 89],
    [97, 101, 103, 107, 109, 113, 127, 131],
    [137, 139, 149, 151, 157, 163, 167, 173],
    [179, 181, 191, 193, 197, 199, 211, 223],
    [227, 229, 233, 239, 241, 251, 257, 263],
    [269, 271, 277, 281, 283, 293, 307, 311]]

  function Prime(t: nat): nat
    requires t < 64
  {
    PRIMES[t / 8][t % 8]
  }

  ghost predicate IsPrime(n: nat)
  {
    n >= 2 && forall d :: 2 <= d < n ==> n % d != 0
  }

  predicate Divides(d: nat, n: nat)
    requires d > 0
  {
    n % d == 0 && n != d
  }

  /** Divisible by a smaller one of the primes up to 17. */
  predicate Sieved(n: nat)
  {
    || Divides(2, n) || Divides(3, n) || Divides(5, n) || Divides(7, n)
    || Divides(11, n) || Divides(13, n) || Divides(17, n)
  }

  lemma SmallProduct(d: nat, x: int)
    requires 0 <= d * x < d
    ensures x == 0
  {
  }

  lemma MultipleOf(n: nat, d: nat, q: nat)
    requires d > 0 && n == d * q
    ensures n % d == 0
  {
    var k := n / d;
    assert d * (q - k) == n % d;
    SmallProduct(d, q - k);
  }

  lemma FactorOfFactor(n: nat, e: nat, d: nat)
    requires e > 0 && d > 0 && n % e == 0 && e % d == 0
    ensures n % d == 0
  {
    var q, f := n / e, e / d;
    assert n == e * q && e == d * f;
    assert n == d * (f * q);
    MultipleOf(n, d, f * q);
  }

  lemma SmallFactor(n: nat, e: nat)
    requires 2 <= e < 18 && e < n && n % e == 0
    ensures Sieved(n)
  {
    var d := if e % 2 == 0 then 2 else if e % 3 == 0 then 3 else if e % 5 == 0 then 5 else e;
    FactorOfFactor(n, e, d);
    assert d in [2, 3, 5, 7, 11, 13, 17];
  }

  lemma Cofactor(n: nat, d: nat) returns (q: nat)
    requires 2 <= d < n && n % d == 0
    ensures n == d * q && 2 <= q < n && n % q == 0
  {
    q := n / d;
    assert n == d * q;
    assert q != 0 && q != 1;
    assert n == q * d;
    MultipleOf(n, q, d);
    assert 2 * q <= d * q;
  }

  /** Below 324 the seven primes up to 17 are enough to tell. */
  lemma SievedIff(n: nat)
    requires 2 <= n < 324
    ensures IsPrime(n) <==> !Sieved(n)
  {
    if !Sieved(n) {
      forall d | 2 <= d < n ensures n % d != 0 {
        if n % d == 0 {
          var q := Cofactor(n, d);
          if d < 18 {
            SmallFactor(n, d);
          } else {
            assert 18 * q <= d * q;
            SmallFactor(n, q);
          }
        }
      }
    }
  }

  /** The odd numbers from one on, that many of them. */
  predicate OddsSieved(from: nat, count: nat)
    decreases count
  {
    count == 0 || (Sieved(from) && OddsSieved(from + 2, count - 1))
  }

  lemma {:induction false} OddsSievedMeans(from: nat, count: nat, n: nat)
    requires from <= n < from + 2 * count && n == from + 2 * ((n - from) / 2)
    requires OddsSieved(from, count)
    ensures Sieved(n)
    decreases count
  {
    if n != from {
      OddsSievedMeans(from + 2, count - 1, n);
    }
  }

  /** q is the least prime above the prime p. */
  predicate NextPrime(p: nat, q: nat)
  {
    && 2 <= p < q < 324 && !Sieved(p) && !Sieved(q)
    && (q == p + 1 || (p % 2 == 1 && q % 2 == 1 && OddsSieved(p + 2, (q - p) / 2 - 1)))
  }

  /** The whole part of the cube root, for the primes listed. */
  function Whole(p: nat): (c: nat)
    ensures 2 <= p < 343 ==> c * c * c <= p < (c + 1) * (c + 1) * (c + 1)
  {
    if p < 8 then 1 else if p < 27 then 2 else if p < 64 then 3 else if p < 125 then 4 else if p < 216 then 5 else 6
  }

  /** k is the first 32 bits of the fractional part of the cube root of p. */
  predicate CubeRootBits(p: nat, k: nat)
  {
    var r := Whole(p) * TWO32 + k;
    r * r * r <= p * TWO96 < (r + 1) * (r + 1) * (r + 1)
  }

  /** k is the first 32 bits of the fractional part of the square root of p. */
  predicate SquareRootBits(p: nat, k: nat)
  {
    var r := (if p < 4 then 1 else if p < 9 then 2 else if p < 16 then 3 else 4) * TWO32 + k;
    r * r <= p * TWO64 < (r + 1) * (r + 1)
  }

  function Number(x: bv32): nat
  {
    x as nat
  }

  lemma Primes0()
    ensures
      && Prime(0) == 2 && Prime(1) == 3 && Prime(2) == 5 && Prime(3) == 7 && Prime(4) == 11 && Prime(5) == 13
      && Prime(6) == 17 && Prime(7) == 19
  {
  }

  lemma Constants0()
    ensures
      && K(0) == 0x428a2f98 && K(1) == 0x71374491 && K(2) == 0xb5c0fbcf && K(3) == 0xe9b5dba5
      && K(4) == 0x3956c25b && K(5) == 0x59f111f1 && K(6) == 0x923f82a4 && K(7) == 0xab1c5ed5
  {
  }

  lemma Roots0()
    ensures
      && CubeRootBits(2, Number(0x428a2f98)) && CubeRootBits(3, Number(0x71374491))
      && CubeRootBits(5, Number(0xb5c0fbcf)) && CubeRootBits(7, Number(0xe9b5dba5))
      && CubeRootBits(11, Number(0x3956c25b)) && CubeRootBits(13, Number(0x59f111f1))
      && CubeRootBits(17, Number(0x923f82a4)) && CubeRootBits(19, Number(0xab1c5ed5))
  {
  }

  lemma Row0()
    ensures
      && CubeRootBits(Prime(0), Number(K(0))) && CubeRootBits(Prime(1), Number(K(1)))
      && CubeRootBits(Prime(2), Number(K(2))) && CubeRootBits(Prime(3), Number(K(3)))
      && CubeRootBits(Prime(4), Number(K(4))) && CubeRootBits(Prime(5), Number(K(5)))
      && CubeRootBits(Prime(6), Number(K(6))) && CubeRootBits(Prime(7), Number(K(7)))
  {
    hide CubeRootBits, Prime, Number, K;
    Primes0();
    Constants0();
    Roots0();
  }

  lemma Primes1()
    ensures
      && Prime(8) == 23 && Prime(9) == 29 && Prime(10) == 31 && Prime(11) == 37 && Prime(12) == 41
      && Prime(13) == 43 && Prime(14) == 47 && Prime(15) == 53
  {
  }

  lemma Constants1()
    ensures
      && K(8) == 0xd807aa98 && K(9) == 0x12835b01 && K(10) == 0x243185be && K(11) == 0x550c7dc3
      && K(12) == 0x72be5d74 && K(13) == 0x80deb1fe && K(14) == 0x9bdc06a7 && K(15) == 0xc19bf174
  {
  }

  lemma Roots1()
    ensures
      && CubeRootBits(23, Number(0xd807aa98)) && CubeRootBits(29, Number(0x12835b01))
      && CubeRootBits(31, Number(0x243185be)) && CubeRootBits(37, Number(0x550c7dc3))
      && CubeRootBits(41, Number(0x72be5d74)) && CubeRootBits(43, Number(0x80deb1fe))
      && CubeRootBits(47, Number(0x9bdc06a7)) && CubeRootBits(53, Number(0xc19bf174))
  {
  }

  lemma Row1()
    ensures
      && CubeRootBits(Prime(8), Number(K(8))) && CubeRootBits(Prime(9), Number(K(9)))
      && CubeRootBits(Prime(10), Number(K(10))) && CubeRootBits(Prime(11), Number(K(11)))
      && CubeRootBits(Prime(12), Number(K(12))) && CubeRootBits(Prime(13), Number(K(13)))
      && CubeRootBits(Prime(14), Number(K(14))) && CubeRootBits(Prime(15), Number(K(15)))
  {
    hide CubeRootBits, Prime, Number, K;
    Primes1();
    Constants1();
    Roots1();
  }

  lemma Primes2()
    ensures
      && Prime(16) == 59 && Prime(17) == 61 && Prime(18) == 67 && Prime(19) == 71 && Prime(20) == 73
      && Prime(21) == 79 && Prime(22) == 83 && Prime(23) == 89
  {
  }

  lemma Constants2()
    ensures
      && K(16) == 0xe49b69c1 && K(17) == 0xefbe4786 && K(18) == 0x0fc19dc6 && K(19) == 0x240ca1cc
      && K(20) == 0x2de92c6f && K(21) == 0x4a7484aa && K(22) == 0x5cb0a9dc && K(23) == 0x76f988da
  {
  }

  lemma Roots2()
    ensures
      && CubeRootBits(59, Number(0xe49b69c1)) && CubeRootBits(61, Number(0xefbe4786))
      && CubeRootBits(67, Number(0x0fc19dc6)) && CubeRootBits(71, Number(0x240ca1cc))
      && CubeRootBits(73, Number(0x2de92c6f)) && CubeRootBits(79, Number(0x4a7484aa))
      && CubeRootBits(83, Number(0x5cb0a9dc)) && CubeRootBits(89, Number(0x76f988da))
  {
  }

  lemma Row2()
    ensures
      && CubeRootBits(Prime(16), Number(K(16))) && CubeRootBits(Prime(17), Number(K(17)))
      && CubeRootBits(Prime(18), Number(K(18))) && CubeRootBits(Prime(19), Number(K(19)))
      && CubeRootBits(Prime(20), Number(K(20))) && CubeRootBits(Prime(21), Number(K(21)))
      && CubeRootBits(Prime(22), Number(K(22))) && CubeRootBits(Prime(23), Number(K(23)))
  {
    hide CubeRootBits, Prime, Number, K;
    Primes2();
    Constants2();
    Roots2();
  }

  lemma Primes3()
    ensures
      && Prime(24) == 97 && Prime(25) == 101 && Prime(26) == 103 && Prime(27) == 107 && Prime(28) == 109
      && Prime(29) == 113 && Prime(30) == 127 && Prime(31) == 131
  {
  }

  lemma Constants3()
    ensures
      && K(24) == 0x983e5152 && K(25) == 0xa831c66d && K(26) == 0xb00327c8 && K(27) == 0xbf597fc7
      && K(28) == 0xc6e00bf3 && K(29) == 0xd5a79147 && K(30) == 0x06ca6351 && K(31) == 0x14292967
  {
  }

  lemma Roots3()
    ensures
      && CubeRootBits(97, Number(0x983e5152)) && CubeRootBits(101, Number(0xa831c66d))
      && CubeRootBits(103, Number(0xb00327c8)) && CubeRootBits(107, Number(0xbf597fc7))
      && CubeRootBits(109, Number(0xc6e00bf3)) && CubeRootBits(113, Number(0xd5a79147))
      && CubeRootBits(127, Number(0x06ca6351)) && CubeRootBits(131, Number(0x14292967))
  {
  }

  lemma Row3()
    ensures
      && CubeRootBits(Prime(24), Number(K(24))) && CubeRootBits(Prime(25), Number(K(25)))
      && CubeRootBits(Prime(26), Number(K(26))) && CubeRootBits(Prime(27), Number(K(27)))
      && CubeRootBits(Prime(28), Number(K(28))) && CubeRootBits(Prime(29), Number(K(29)))
      && CubeRootBits(Prime(30), Number(K(30))) && CubeRootBits(Prime(31), Number(K(31)))
  {
    hide CubeRootBits, Prime, Number, K;
    Primes3();
    Constants3();
    Roots3();
  }

  lemma Primes4()
    ensures
      && Prime(32) == 137 && Prime(33) == 139 && Prime(34) == 149 && Prime(35) == 151 && Prime(36) == 157
      && Prime(37) == 163 && Prime(38) == 167 && Prime(39) == 173
  {
  }

  lemma Constants4()
    ensures
      && K(32) == 0x27b70a85 && K(33) == 0x2e1b2138 && K(34) == 0x4d2c6dfc && K(35) == 0x53380d13
      && K(36) == 0x650a7354 && K(37) == 0x766a0abb && K(38) == 0x81c2c92e && K(39) == 0x92722c85
  {
  }

  lemma Roots4()
    ensures
      && CubeRootBits(137, Number(0x27b70a85)) && CubeRootBits(139, Number(0x2e1b2138))
      && CubeRootBits(149, Number(0x4d2c6dfc)) && CubeRootBits(151, Number(0x53380d13))
      && CubeRootBits(157, Number(0x650a7354)) && CubeRootBits(163, Number(0x766a0abb))
      && CubeRootBits(167, Number(0x81c2c92e)) && CubeRootBits(173, Number(0x92722c85))
  {
  }

  lemma Row4()
    ensures
      && CubeRootBits(Prime(32), Number(K(32))) && CubeRootBits(Prime(33), Number(K(33)))
      && CubeRootBits(Prime(34), Number(K(34))) && CubeRootBits(Prime(35), Number(K(35)))
      && CubeRootBits(Prime(36), Number(K(36))) && CubeRootBits(Prime(37), Number(K(37)))
      && CubeRootBits(Prime(38), Number(K(38))) && CubeRootBits(Prime(39), Number(K(39)))
  {
    hide CubeRootBits, Prime, Number, K;
    Primes4();
    Constants4();
    Roots4();
  }

  lemma Primes5()
    ensures
      && Prime(40) == 179 && Prime(41) == 181 && Prime(42) == 191 && Prime(43) == 193 && Prime(44) == 197
      && Prime(45) == 199 && Prime(46) == 211 && Prime(47) == 223
  {
  }

  lemma Constants5()
    ensures
      && K(40) == 0xa2bfe8a1 && K(41) == 0xa81a664b && K(42) == 0xc24b8b70 && K(43) == 0xc76c51a3
      && K(44) == 0xd192e819 && K(45) == 0xd6990624 && K(46) == 0xf40e3585 && K(47) == 0x106aa070
  {
  }

  lemma Roots5()
    ensures
      && CubeRootBits(179, Number(0xa2bfe8a1)) && CubeRootBits(181, Number(0xa81a664b))
      && CubeRootBits(191, Number(0xc24b8b70)) && CubeRootBits(193, Number(0xc76c51a3))
      && CubeRootBits(197, Number(0xd192e819)) && CubeRootBits(199, Number(0xd6990624))
      && CubeRootBits(211, Number(0xf40e3585)) && CubeRootBits(223, Number(0x106aa070))
  {
  }

  lemma Row5()
    ensures
      && CubeRootBits(Prime(40), Number(K(40))) && CubeRootBits(Prime(41), Number(K(41)))
      && CubeRootBits(Prime(42), Number(K(42))) && CubeRootBits(Prime(43), Number(K(43)))
      && CubeRootBits(Prime(44), Number(K(44))) && CubeRootBits(Prime(45), Number(K(45)))
      && CubeRootBits(Prime(46), Number(K(46))) && CubeRootBits(Prime(47), Number(K(47)))
  {
    hide CubeRootBits, Prime, Number, K;
    Primes5();
    Constants5();
    Roots5();
  }

  lemma Primes6()
    ensures
      && Prime(48) == 227 && Prime(49) == 229 && Prime(50) == 233 && Prime(51) == 239 && Prime(52) == 241
      && Prime(53) == 251 && Prime(54) == 257 && Prime(55) == 263
  {
  }

  lemma Constants6()
    ensures
      && K(48) == 0x19a4c116 && K(49) == 0x1e376c08 && K(50) == 0x2748774c && K(51) == 0x34b0bcb5
      && K(52) == 0x391c0cb3 && K(53) == 0x4ed8aa4a && K(54) == 0x5b9cca4f && K(55) == 0x682e6ff3
  {
  }

  lemma Roots6()
    ensures
      && CubeRootBits(227, Number(0x19a4c116)) && CubeRootBits(229, Number(0x1e376c08))
      && CubeRootBits(233, Number(0x2748774c)) && CubeRootBits(239, Number(0x34b0bcb5))
      && CubeRootBits(241, Number(0x391c0cb3)) && CubeRootBits(251, Number(0x4ed8aa4a))
      && CubeRootBits(257, Number(0x5b9cca4f)) && CubeRootBits(263, Number(0x682e6ff3))
  {
  }

  lemma Row6()
    ensures
      && CubeRootBits(Prime(48), Number(K(48))) && CubeRootBits(Prime(49), Number(K(49)))
      && CubeRootBits(Prime(50), Number(K(50))) && CubeRootBits(Prime(51), Number(K(51)))
      && CubeRootBits(Prime(52), Number(K(52))) && CubeRootBits(Prime(53), Number(K(53)))
      && CubeRootBits(Prime(54), Number(K(54))) && CubeRootBits(Prime(55), Number(K(55)))
  {
    hide CubeRootBits, Prime, Number, K;
    Primes6();
    Constants6();
    Roots6();
  }

  lemma Primes7()
    ensures
      && Prime(56) == 269 && Prime(57) == 271 && Prime(58) == 277 && Prime(59) == 281 && Prime(60) == 283
      && Prime(61) == 293 && Prime(62) == 307 && Prime(63) == 311
  {
  }

  lemma Constants7()
    ensures
      && K(56) == 0x748f82ee && K(57) == 0x78a5636f && K(58) == 0x84c87814 && K(59) == 0x8cc70208
      && K(60) == 0x90befffa && K(61) == 0xa4506ceb && K(62) == 0xbef9a3f7 && K(63) == 0xc67178f2
  {
  }

  lemma Roots7()
    ensures
      && CubeRootBits(269, Number(0x748f82ee)) && CubeRootBits(271, Number(0x78a5636f))
      && CubeRootBits(277, Number(0x84c87814)) && CubeRootBits(281, Number(0x8cc70208))
      && CubeRootBits(283, Number(0x90befffa)) && CubeRootBits(293, Number(0xa4506ceb))
      && CubeRootBits(307, Number(0xbef9a3f7)) && CubeRootBits(311, Number(0xc67178f2))
  {
  }

  lemma Row7()
    ensures
      && CubeRootBits(Prime(56), Number(K(56))) && CubeRootBits(Prime(57), Number(K(57)))
      && CubeRootBits(Prime(58), Number(K(58))) && CubeRootBits(Prime(59), Number(K(59)))
      && CubeRootBits(Prime(60), Number(K(60))) && CubeRootBits(Prime(61), Number(K(61)))
      && CubeRootBits(Prime(62), Number(K(62))) && CubeRootBits(Prime(63), Number(K(63)))
  {
    hide CubeRootBits, Prime, Number, K;
    Primes7();
    Constants7();
    Roots7();
  }

  lemma Gaps0()
    ensures NextPrime(2, 3) && NextPrime(3, 5) && NextPrime(5, 7) && NextPrime(7, 11)
  {
  }

  lemma Gaps1()
    ensures NextPrime(11, 13) && NextPrime(13, 17) && NextPrime(17, 19) && NextPrime(19, 23)
  {
  }

  lemma Gaps2()
    ensures NextPrime(23, 29) && NextPrime(29, 31) && NextPrime(31, 37) && NextPrime(37, 41)
  {
  }

  lemma Gaps3()
    ensures NextPrime(41, 43) && NextPrime(43, 47) && NextPrime(47, 53) && NextPrime(53, 59)
  {
  }

  lemma Gaps4()
    ensures NextPrime(59, 61) && NextPrime(61, 67) && NextPrime(67, 71) && NextPrime(71, 73)
  {
  }

  lemma Gaps5()
    ensures NextPrime(73, 79) && NextPrime(79, 83) && NextPrime(83, 89) && NextPrime(89, 97)
  {
  }

  lemma Gaps6()
    ensures NextPrime(97, 101) && NextPrime(101, 103) && NextPrime(103, 107) && NextPrime(107, 109)
  {
  }

  lemma Gaps7()
    ensures NextPrime(109, 113) && NextPrime(113, 127) && NextPrime(127, 131) && NextPrime(131, 137)
  {
  }

  lemma Gaps8()
    ensures NextPrime(137, 139) && NextPrime(139, 149) && NextPrime(149, 151) && NextPrime(151, 157)
  {
  }

  lemma Gaps9()
    ensures NextPrime(157, 163) && NextPrime(163, 167) && NextPrime(167, 173) && NextPrime(173, 179)
  {
  }

  lemma Gaps10()
    ensures NextPrime(179, 181) && NextPrime(181, 191) && NextPrime(191, 193) && NextPrime(193, 197)
  {
  }

  lemma Gaps11()
    ensures NextPrime(197, 199) && NextPrime(199, 211) && NextPrime(211, 223) && NextPrime(223, 227)
  {
  }

  lemma Gaps12()
    ensures NextPrime(227, 229) && NextPrime(229, 233) && NextPrime(233, 239) && NextPrime(239, 241)
  {
  }

  lemma Gaps13()
    ensures NextPrime(241, 251) && NextPrime(251, 257) && NextPrime(257, 263) && NextPrime(263, 269)
  {
  }

  lemma Gaps14()
    ensures NextPrime(269, 271) && NextPrime(271, 277) && NextPrime(277, 281) && NextPrime(281, 283)
  {
  }

  lemma Gaps15()
    ensures NextPrime(283, 293) && NextPrime(293, 307) && NextPrime(307, 311)
  {
  }

  /** Section 4.2.2: the round constants come from the cube roots of the first 64 primes. */
  lemma ConstantsAreRoots(t: nat)
    requires t < 64
    ensures CubeRootBits(Prime(t), Number(K(t)))
  {
    hide CubeRootBits, Prime, Number, K;
    if t < 8 {
      Row0();
    } else if t < 16 {
      Row1();
    } else if t < 24 {
      Row2();
    } else if t < 32 {
      Row3();
    } else if t < 40 {
      Row4();
    } else if t < 48 {
      Row5();
    } else if t < 56 {
      Row6();
    } else {
      Row7();
    }
  }

  lemma ListedInOrder(t: nat)
    requires t < 63
    ensures Prime(0) == 2 && NextPrime(Prime(t), Prime(t + 1))
  {
    hide NextPrime, Prime;
    Primes0();
    if t < 8 {
      Primes0(); Primes1(); Gaps0(); Gaps1();
    } else if t < 16 {
      Primes1(); Primes2(); Gaps2(); Gaps3();
    } else if t < 24 {
      Primes2(); Primes3(); Gaps4(); Gaps5();
    } else if t < 32 {
      Primes3(); Primes4(); Gaps6(); Gaps7();
    } else if t < 40 {
      Primes4(); Primes5(); Gaps8(); Gaps9();
    } else if t < 48 {
      Primes5(); Primes6(); Gaps10(); Gaps11();
    } else if t < 56 {
      Primes6(); Primes7(); Gaps12(); Gaps13();
    } else {
      Primes7(); Gaps14(); Gaps15();
    }
  }

  lemma EvenIsSieved(n: nat)
    requires n > 2 && n % 2 == 0
    ensures Sieved(n)
  {
  }

  lemma OddSteps(a: nat, b: nat, k: nat)
    requires a % 2 == 1 && b % 2 == 1 && a < b && k == (b - a) / 2
    ensures b - a == 2 * k
  {
  }

  lemma BetweenIsSieved(p: nat, q: nat, n: nat)
    requires NextPrime(p, q) && p < n < q
    ensures Sieved(n)
  {
    hide OddsSieved, Sieved;
    if n % 2 == 0 {
      EvenIsSieved(n);
    } else {
      OddSteps(p, q, (q - p) / 2);
      OddSteps(p, n, (n - p) / 2);
      OddsSievedMeans(p + 2, (q - p) / 2 - 1, n);
    }
  }

  lemma NextPrimeMeans(p: nat, q: nat)
    requires NextPrime(p, q)
    ensures IsPrime(p) && IsPrime(q) && forall n :: p < n < q ==> !IsPrime(n)
  {
    hide IsPrime, OddsSieved, Sieved;
    SievedIff(p);
    SievedIff(q);
    forall n | p < n < q ensures !IsPrime(n) {
      BetweenIsSieved(p, q, n);
      SievedIff(n);
    }
  }

  /** The list holds the first 64 primes in order. */
  lemma FirstPrimes(t: nat)
    requires t < 63
    ensures Prime(0) == 2 && Prime(t) < Prime(t + 1)
    ensures IsPrime(Prime(t)) && IsPrime(Prime(t + 1))
    ensures forall n :: Prime(t) < n < Prime(t + 1) ==> !IsPrime(n)
  {
    hide Prime, IsPrime, OddsSieved, Sieved;
    ListedInOrder(t);
    NextPrimeMeans(Prime(t), Prime(t + 1));
  }

  lemma Initials()
    ensures
      && INITIAL[0] == 0x6a09e667 && INITIAL[1] == 0xbb67ae85 && INITIAL[2] == 0x3c6ef372
      && INITIAL[3] == 0xa54ff53a && INITIAL[4] == 0x510e527f && INITIAL[5] == 0x9b05688c
      && INITIAL[6] == 0x1f83d9ab && INITIAL[7] == 0x5be0cd19
  {
  }

  lemma SquareRoots()
    ensures
      && SquareRootBits(2, Number(0x6a09e667)) && SquareRootBits(3, Number(0xbb67ae85))
      && SquareRootBits(5, Number(0x3c6ef372)) && SquareRootBits(7, Number(0xa54ff53a))
      && SquareRootBits(11, Number(0x510e527f)) && SquareRootBits(13, Number(0x9b05688c))
      && SquareRootBits(17, Number(0x1f83d9ab)) && SquareRootBits(19, Number(0x5be0cd19))
  {
  }

  /** Section 5.3.3: the initial value comes from the square roots of the first eight. */
  lemma InitialIsRoots(i: nat)
    requires i < 8
    ensures SquareRootBits(Prime(i), Number(INITIAL[i]))
  {
    hide SquareRootBits, Prime, Number;
    Primes0();
    Initials();
    SquareRoots();
  }
}
