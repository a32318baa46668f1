/** Bytes as the protocol sees them, and the big-endian 16-bit word that every
    two-byte field of a frame is read as. */
module Bytes {

  /** One octet of a BLE notification or of a frame. */
  type byte = b: int | 0 <= b < 0x100

  /** The unsigned big-endian word made of bytes `s[i]` and `s[i + 1]`. */
  function U16(s: seq<byte>, i: nat): (w: nat)
    requires i + 1 < |s|
    ensures w < 0x1_0000
    ensures w / 0x100 == s[i] && w % 0x100 == s[i + 1]
  {
    s[i] as int * 0x100 + s[i + 1] as int
  }
}
