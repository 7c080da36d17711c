/** JSON documents as values; parsing and printing are not part of the model. */
module JsonValues {

  /** The integers the JSON library stores: signed or unsigned 64-bit. */
  type JsonInt = n: int | -0x8000_0000_0000_0000 <= n < 0x1_0000_0000_0000_0000

  datatype Json =
    | Null
    | Bool(flag: bool)
    | Int(value: JsonInt)
    | Float(number: real)
    | String(text: string)
    | Array(items: seq<Json>)
    | Object(fields: map<string, Json>)

  /** Reading a stored integer as a signed 64-bit value wraps the upper unsigned half. */
  function AsInt64(n: JsonInt): int
  {
    if n < 0x8000_0000_0000_0000 then n else n - 0x1_0000_0000_0000_0000
  }
}
