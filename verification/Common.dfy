/** Types shared by the byte-level modules. */
module Common {

  /** One octet. Shifts and masks on octets are written as the division and remainder they compute. */
  type Byte = b: int | 0 <= b < 256

  datatype Option<+T> = None | Some(value: T) {

    function GetOr(default: T): T
    {
      match this
      case None => default
      case Some(v) => v
    }
  }

  type Bytes = seq<Byte>

  const NEWLINE: Byte := 10

  function Concat(chunks: seq<Bytes>): Bytes
  {
    if chunks == [] then [] else Concat(chunks[..|chunks| - 1]) + chunks[|chunks| - 1]
  }

  lemma {:induction false} ConcatFirst(chunks: seq<Bytes>)
    requires chunks != []
    ensures Concat(chunks) == chunks[0] + Concat(chunks[1..])
  {
    var n := |chunks| - 1;
    if n > 0 {
      ConcatFirst(chunks[..n]);
      assert chunks[..n][1..] == chunks[1..][..n - 1];
    }
  }

  function HexDigit(n: nat): char
    requires n < 16
  {
    "0123456789abcdef"[n]
  }
}
