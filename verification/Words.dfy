/** Bytes, 32-bit words and `usize` arithmetic, with the widths the Rust source gives them. */
module Words {
  type Byte = x: int | 0 <= x < 256
  type U32 = x: int | 0 <= x < 0x1_0000_0000

  const U32_MAX: int := 0xFFFF_FFFF
  const U64_MAX: int := 0xFFFF_FFFF_FFFF_FFFF

  datatype Option<+T> = None | Some(value: T)

  /** `u32::to_le_bytes`. */
  function ToLe(x: U32): (bytes: seq<Byte>)
    ensures |bytes| == 4
  {
    [x % 256, x / 256 % 256, x / 0x1_0000 % 256, x / 0x100_0000]
  }

  /** `u32::from_le_bytes`. */
  function FromLe(bytes: seq<Byte>): U32
    requires |bytes| == 4
  {
    bytes[0] + 256 * (bytes[1] as int) + 0x1_0000 * (bytes[2] as int) + 0x100_0000 * (bytes[3] as int)
  }

  /** The number four bytes spell, the least significant one first. */
  function Number(b0: Byte, b1: Byte, b2: Byte, b3: Byte): nat {
    b0 + 0x100 * (b1 as int + 0x100 * (b2 as int + 0x100 * (b3 as int)))
  }

  lemma LeastSignificantFirst(x: U32)
    ensures Number(ToLe(x)[0], ToLe(x)[1], ToLe(x)[2], ToLe(x)[3]) == x
  {
    LeRoundTrip(x);
  }

  lemma LeRoundTrip(x: U32)
    ensures FromLe(ToLe(x)) == x
  {
    var high := x / 256;
    var higher := high / 256;
    assert x / 0x1_0000 == higher && x / 0x100_0000 == higher / 256;
  }

  lemma LeBytesAreCanonical(bytes: seq<Byte>)
    requires |bytes| == 4
    ensures ToLe(FromLe(bytes)) == bytes
  {
    var x: int := FromLe(bytes);
    assert x / 256 == bytes[1] + 256 * (bytes[2] as int) + 0x1_0000 * (bytes[3] as int);
    assert x / 0x1_0000 == bytes[2] + 256 * (bytes[3] as int);
    assert x / 0x100_0000 == bytes[3];
  }

  /** `usize::saturating_mul` on a target whose `usize::MAX` is `max`. */
  function SaturatingMul(a: nat, b: nat, max: nat): nat {
    if a * b > max then max else a * b
  }

  lemma AppendAssociates<T>(a: seq<T>, b: seq<T>, c: seq<T>)
    ensures (a + b) + c == a + (b + c)
  {
  }

  function Min(a: int, b: int): int {
    if a < b then a else b
  }
}
