/** The base64 encoder of the script utilities, and the decoder of section 4 of RFC 4648 as its reference. */
module Base64 {
  import opened Common

  const UPPER: string := "ABCDEFGHIJKLMNOPQRSTUVWXYZ"
  const LOWER: string := "abcdefghijklmnopqrstuvwxyz"
  const DIGITS: string := "0123456789"
  const ALPHABET: string := UPPER + LOWER + DIGITS + "+/"

  /** Table 1 of RFC 4648. */
  function Digit(n: nat): char
    requires n < 64
  {
    if n < 26 then 'A' + n as char
    else if n < 52 then 'a' + (n - 26) as char
    else if n < 62 then '0' + (n - 52) as char
    else if n == 62 then '+' else '/'
  }

  function Value(c: char): nat
  {
    if 'A' <= c <= 'Z' then c as int - 'A' as int
    else if 'a' <= c <= 'z' then c as int - 'a' as int + 26
    else if '0' <= c <= '9' then c as int - '0' as int + 52
    else if c == '+' then 62 else 63
  }

  lemma DigitValue(n: nat)
    requires n < 64
    ensures Value(Digit(n)) == n && Digit(n) != '='
  {
  }

  /** 24 bits as four digits, and back. */
  function Quad(triple: nat): (q: string)
    requires triple < 0x100_0000
    ensures |q| == 4
  {
    [Digit(triple / 0x4_0000), Digit(triple / 0x1000 % 64), Digit(triple / 64 % 64), Digit(triple % 64)]
  }

  function Triple(b0: Byte, b1: Byte, b2: Byte): (t: nat)
    ensures t < 0x100_0000
  {
    var x: int, y: int, z: int := b0, b1, b2;
    0x1_0000 * x + 0x100 * y + z
  }

  function FromQuad(a: nat, b: nat, c: nat, d: nat): nat
  {
    0x4_0000 * a + 0x1000 * b + 64 * c + d
  }

  function Bytes3(t: nat): seq<Byte>
  {
    [t / 0x1_0000 % 256, t / 0x100 % 256, t % 256]
  }

  /** The standard's encoding: whole groups of three, then a padded group. */
  function Encode(data: seq<Byte>): (text: string)
    ensures |text| == (|data| + 2) / 3 * 4
    decreases |data|
  {
    if data == [] then ""
    else if |data| == 1 then Quad(Triple(data[0], 0, 0))[..2] + "=="
    else if |data| == 2 then Quad(Triple(data[0], data[1], 0))[..3] + "="
    else Quad(Triple(data[0], data[1], data[2])) + Encode(data[3..])
  }

  /** The standard's decoding of groups of four digits with padding in the last. */
  function Decode(text: string): seq<Byte>
    decreases |text|
  {
    if |text| < 4 then []
    else
      var a, b := Value(text[0]), Value(text[1]);
      if text[2] == '=' then Bytes3(FromQuad(a, b, 0, 0))[..1]
      else if text[3] == '=' then Bytes3(FromQuad(a, b, Value(text[2]), 0))[..2]
      else Bytes3(FromQuad(a, b, Value(text[2]), Value(text[3]))) + Decode(text[4..])
  }

  lemma QuadValues(t: nat)
    requires t < 0x100_0000
    ensures var q := Quad(t);
            && FromQuad(Value(q[0]), Value(q[1]), Value(q[2]), Value(q[3])) == t
            && q[2] != '=' && q[3] != '='
            && Value(q[2]) == t / 64 % 64 && Value(q[3]) == t % 64
  {
    hide Digit, Value;
    DigitValue(t / 0x4_0000);
    DigitValue(t / 0x1000 % 64);
    DigitValue(t / 64 % 64);
    DigitValue(t % 64);
    var u := t / 64;
    var v := u / 64;
    assert t / 0x1000 == v && t / 0x4_0000 == v / 64;
  }

  lemma TripleBytes(b0: Byte, b1: Byte, b2: Byte)
    ensures Bytes3(Triple(b0, b1, b2)) == [b0, b1, b2]
  {
    var t, high := Triple(b0, b1, b2), 256 * b0 as int + b1 as int;
    assert t == 256 * high + b2;
    assert t / 0x100 == high && t / 0x1_0000 == high / 0x100;
  }

  /** Decoding inverts encoding on every byte string. */
  lemma {:induction false} DecodeEncode(data: seq<Byte>)
    ensures Decode(Encode(data)) == data
    decreases |data|
  {
    hide Quad, FromQuad, Bytes3, Value;
    if |data| == 1 {
      var t := Triple(data[0], 0, 0);
      QuadValues(t);
      TripleBytes(data[0], 0, 0);
      assert t / 64 % 64 == 0 && t % 64 == 0;
      assert [data[0], 0, 0][..1] == data;
    } else if |data| == 2 {
      var t := Triple(data[0], data[1], 0);
      QuadValues(t);
      TripleBytes(data[0], data[1], 0);
      assert t % 64 == 0;
      assert [data[0], data[1], 0][..2] == data;
    } else if |data| > 2 {
      var t, rest := Triple(data[0], data[1], data[2]), Encode(data[3..]);
      QuadValues(t);
      TripleBytes(data[0], data[1], data[2]);
      DecodeEncode(data[3..]);
      assert (Quad(t) + rest)[4..] == rest;
      assert data == [data[0], data[1], data[2]] + data[3..];
    }
  }

  /** Hence no two inputs share an encoding. */
  lemma EncodeIsInjective(a: seq<Byte>, b: seq<Byte>)
    requires Encode(a) == Encode(b)
    ensures a == b
  {
    DecodeEncode(a);
    DecodeEncode(b);
  }

  lemma SomeDigits()
    ensures Digit(25) == 'Z' && Digit(38) == 'm' && Digit(61) == '9' && Digit(47) == 'v' && Digit(24) == 'Y'
    ensures Digit(5) == 'F' && Digit(50) == 'y' && Digit(0) == 'A' && Digit(32) == 'g' && Digit(60) == '8'
    ensures Digit(62) == '+' && Digit(63) == '/'
  {
  }

  lemma WholeGroups()
    ensures Quad(Triple(102, 111, 111)) == "Zm9v" && Quad(Triple(98, 97, 114)) == "YmFy"
    ensures Quad(Triple(0xfb, 0xff, 0xbf)) == "+/+/"
  {
    SomeDigits();
    hide Digit;
  }

  lemma PartGroups()
    ensures Quad(Triple(102, 0, 0)) == "ZgAA" && Quad(Triple(102, 111, 0)) == "Zm8A"
  {
    SomeDigits();
    hide Digit;
  }

  /** Section 10 of RFC 4648: "", "f", "fo", "foo" and "foobar"; and a group of the last two digits. */
  lemma TestVectors()
    ensures Encode([]) == "" && Encode([102]) == "Zg==" && Encode([102, 111]) == "Zm8="
    ensures Encode([102, 111, 111]) == "Zm9v" && Encode([102, 111, 111, 98, 97, 114]) == "Zm9vYmFy"
    ensures Encode([0xfb, 0xff, 0xbf]) == "+/+/"
  {
    WholeGroups();
    PartGroups();
    hide Quad, Triple;
    var foo, bar: seq<Byte> := [102, 111, 111], [98, 97, 114];
    assert (foo + bar)[3..] == bar && foo[3..] == [] && bar[3..] == [];
    assert foo + bar == [102, 111, 111, 98, 97, 114];
    var high: seq<Byte> := [0xfb, 0xff, 0xbf];
    assert high[3..] == [];
  }

  lemma UpperLetters(n: nat)
    requires n < 26
    ensures UPPER[n] == 'A' + n as char
  {
    if n < 9 {
    } else if n < 18 {
    } else {
      assert 18 <= n < 26;
    }
  }

  lemma LowerLetters(n: nat)
    requires n < 26
    ensures LOWER[n] == 'a' + n as char
  {
    if n < 9 {
    } else if n < 18 {
    } else {
      assert 18 <= n < 26;
    }
  }

  lemma DecimalDigits(n: nat)
    requires n < 10
    ensures DIGITS[n] == '0' + n as char
  {
  }

  method LookUp(n: nat) returns (c: char)
    requires n < 64
    ensures c == Digit(n)
  {
    c := ALPHABET[n];
    if n < 26 {
      UpperLetters(n);
    } else if n < 52 {
      LowerLetters(n - 26);
    } else if n < 62 {
      DecimalDigits(n - 52);
    }
  }

  /** The four digits of a 24-bit group, each by shift, mask and table. */
  method Group(triple: nat) returns (q: string)
    requires triple < 0x100_0000
    ensures q == Quad(triple)
  {
    hide Digit;
    var c0 := LookUp(triple / 0x4_0000 % 64);
    var c1 := LookUp(triple / 0x1000 % 64);
    var c2 := LookUp(triple / 64 % 64);
    var c3 := LookUp(triple % 64);
    q := [c0, c1, c2, c3];
  }

  lemma NextGroup(input: seq<Byte>, i: nat)
    requires i + 2 < |input|
    ensures Encode(input[i..]) == Quad(Triple(input[i], input[i + 1], input[i + 2])) + Encode(input[i + 3..])
  {
    hide Quad, Triple;
    assert input[i..][3..] == input[i + 3..];
  }

  method EncodeText(input: seq<Byte>) returns (encoded: string)
    ensures encoded == Encode(input)
  {
    hide Quad, Triple;
    encoded := "";
    var i := 0;
    assert input[0..] == input;
    while i + 2 < |input|
      invariant 0 <= i <= |input|
      invariant Encode(input) == encoded + Encode(input[i..])
    {
      var group := Group(Triple(input[i], input[i + 1], input[i + 2]));
      NextGroup(input, i);
      encoded := encoded + group;
      i := i + 3;
    }
    if i + 1 == |input| {
      var group := Group(Triple(input[i], 0, 0));
      encoded := encoded + group[..2] + "==";
    } else if i + 2 == |input| {
      var group := Group(Triple(input[i], input[i + 1], 0));
      encoded := encoded + group[..3] + "=";
    }
  }
}
