/** The frame checksum: CRC-16/MODBUS (reflected polynomial 0xA001, initial
    register 0xFFFF, bits taken least significant first, no final XOR), as
    described in section 6.2.2 of the Modbus over Serial Line Specification
    V1.02. The frame carries the value big-endian, unlike Modbus RTU. */
module Crc16 {
  import opened Bytes

  const Poly: bv16 := 0xA001
  const Init: bv16 := 0xFFFF

  /** One shift of the register: the bit shifted out decides whether the
      polynomial is XORed in. */
  function Shift(c: bv16): bv16 {
    if c & 1 == 1 then (c >> 1) ^ Poly else c >> 1
  }

  /** `n` shifts in a row. */
  function Shifts(c: bv16, n: nat): bv16 {
    if n == 0 then c else Shift(Shifts(c, n - 1))
  }

  /** A byte as the low eight bits of a register-sized word. */
  function Widen(b: byte): bv16 {
    b as bv16
  }

  /** Feeding one byte: XOR it into the low end of the register, then shift eight times. */
  function Feed(c: bv16, b: byte): bv16 {
    Shifts(c ^ Widen(b), 8)
  }

  /** The register after feeding every byte of `s`, in order, from `Init`. */
  function Register(s: seq<byte>): bv16 {
    if s == [] then Init else Feed(Register(s[..|s| - 1]), s[|s| - 1])
  }

  lemma RegisterPrefix(s: seq<byte>, i: nat)
    requires i < |s|
    ensures Register(s[..i + 1]) == Feed(Register(s[..i]), s[i])
  {
    assert s[..i + 1][..i] == s[..i];
  }

  /** The checksum of `s` as the unsigned integer the source compares. */
  function Crc(s: seq<byte>): nat {
    Register(s) as nat
  }

  /** The inner loop of `calc_crc`: one byte XORed in, then eight shifts. */
  method FeedByte(reg: bv16, b: byte) returns (r: bv16)
    ensures r == Feed(reg, b)
  {
    r := reg ^ Widen(b);
    ghost var fed := r;
    for k := 0 to 8
      invariant r == Shifts(fed, k)
    {
      r := if r & 1 == 1 then (r >> 1) ^ Poly else r >> 1;
    }
  }

  /** `calc_crc`: the register is an unbounded integer in the source; it never
      leaves 16 bits (a byte is XORed in, then each shift halves it and XORs a
      16-bit constant), so a `bv16` register is exact and the final `& 0xFFFF`
      is the conversion of that register to an integer. */
  method CalcCrc(data: seq<byte>) returns (crc: nat)
    ensures crc == Crc(data)
    ensures crc <= 0xFFFF
  {
    var reg: bv16 := Init;
    var i := 0;
    while i < |data|
      invariant 0 <= i <= |data|
      invariant reg == Register(data[..i])
    {
      reg := FeedByte(reg, data[i]);
      RegisterPrefix(data, i);
      i := i + 1;
    }
    assert data[..i] == data;
    crc := reg as nat;
  }

  /** The source's poll command `7A 00 05 00 00 01 0C E5 A7` carries, big-endian,
      the checksum of its bytes 1 to 5. */
  lemma PollCommandChecksum()
    ensures Crc([0x00, 0x05, 0x00, 0x00, 0x01]) == 0x0CE5
  {
    assert [0x00, 0x05, 0x00, 0x00, 0x01][..4] == [0x00, 0x05, 0x00, 0x00];
    assert [0x00, 0x05, 0x00, 0x00][..3] == [0x00, 0x05, 0x00];
    assert [0x00, 0x05, 0x00][..2] == [0x00, 0x05];
    assert [0x00, 0x05][..1] == [0x00];
    assert [0x00][..0] == [];
    assert Register([0x00]) == Feed(0xFFFF, 0x00) == 0x40BF;
    assert Feed(0x40BF, 0x05) == Shifts(0x40BA, 8);
    assert Register([0x00, 0x05]) == Feed(0x40BF, 0x05) == 0xB3C1;
    assert Register([0x00, 0x05, 0x00]) == Feed(0xB3C1, 0x00) == 0x9072;
    assert Register([0x00, 0x05, 0x00, 0x00]) == Feed(0x9072, 0x00) == 0x2510;
    assert Feed(0x2510, 0x01) == Shifts(0x2511, 8);
    assert Register([0x00, 0x05, 0x00, 0x00, 0x01]) == Feed(0x2510, 0x01) == 0x0CE5;
  }

  /** Eight shifts of the register, one at a time. */
  lemma ShiftTrace(c0: bv16, c1: bv16, c2: bv16, c3: bv16, c4: bv16, c5: bv16, c6: bv16, c7: bv16, c8: bv16)
    requires c1 == Shift(c0) && c2 == Shift(c1) && c3 == Shift(c2) && c4 == Shift(c3)
    requires c5 == Shift(c4) && c6 == Shift(c5) && c7 == Shift(c6) && c8 == Shift(c7)
    ensures Shifts(c0, 8) == c8
  {
    assert Shifts(c0, 1) == c1;
    assert Shifts(c0, 2) == c2;
    assert Shifts(c0, 3) == c3;
    assert Shifts(c0, 4) == c4;
    assert Shifts(c0, 5) == c5;
    assert Shifts(c0, 6) == c6;
    assert Shifts(c0, 7) == c7;
  }

  /** The register after `k + 1` bytes, from the register after `k` and the
      eight shifts of byte `k`, written out. */
  lemma RegisterStep(s: seq<byte>, k: nat, before: bv16, c0: bv16, c1: bv16, c2: bv16, c3: bv16,
                     c4: bv16, c5: bv16, c6: bv16, c7: bv16, c8: bv16)
    requires k < |s| && Register(s[..k]) == before && c0 == before ^ Widen(s[k])
    requires c1 == Shift(c0) && c2 == Shift(c1) && c3 == Shift(c2) && c4 == Shift(c3)
    requires c5 == Shift(c4) && c6 == Shift(c5) && c7 == Shift(c6) && c8 == Shift(c7)
    ensures Register(s[..k + 1]) == c8
  {
    RegisterPrefix(s, k);
    ShiftTrace(c0, c1, c2, c3, c4, c5, c6, c7, c8);
  }

  /** A sequence holding the ASCII digits "123456789". */
  predicate IsCheckInput(s: seq<byte>) {
    |s| == 9 && forall k :: 0 <= k < 9 ==> s[k] == 0x31 + k
  }

  /** The register over the first 3 digits. */
  lemma CheckDigitsOneToThree(s: seq<byte>)
    requires IsCheckInput(s)
    ensures Register(s[..3]) == 0x7A75
  {
    assert s[..0] == [];
    RegisterStep(s, 0, 0xFFFF, 0xFFCE, 0x7FE7, 0x9FF2, 0x4FF9, 0x87FD, 0xE3FF, 0xD1FE, 0x68FF, 0x947E);
    RegisterStep(s, 1, 0x947E, 0x944C, 0x4A26, 0x2513, 0xB288, 0x5944, 0x2CA2, 0x1651, 0xAB29, 0xF595);
    RegisterStep(s, 2, 0xF595, 0xF5A6, 0x7AD3, 0x9D68, 0x4EB4, 0x275A, 0x13AD, 0xA9D7, 0xF4EA, 0x7A75);
  }

  /** The register over the first 6 digits. */
  lemma CheckDigitsFourToSix(s: seq<byte>)
    requires IsCheckInput(s)
    requires Register(s[..3]) == 0x7A75
    ensures Register(s[..6]) == 0x32E4
  {
    RegisterStep(s, 3, 0x7A75, 0x7A41, 0x9D21, 0xEE91, 0xD749, 0xCBA5, 0xC5D3, 0xC2E8, 0x6174, 0x30BA);
    RegisterStep(s, 4, 0x30BA, 0x308F, 0xB846, 0x5C23, 0x8E10, 0x4708, 0x2384, 0x11C2, 0x08E1, 0xA471);
    RegisterStep(s, 5, 0xA471, 0xA447, 0xF222, 0x7911, 0x9C89, 0xEE45, 0xD723, 0xCB90, 0x65C8, 0x32E4);
  }

  /** The register over the first 9 digits. */
  lemma CheckDigitsSevenToNine(s: seq<byte>)
    requires IsCheckInput(s)
    requires Register(s[..6]) == 0x32E4
    ensures Register(s[..9]) == 0x4B37
  {
    RegisterStep(s, 6, 0x32E4, 0x32D3, 0xB968, 0x5CB4, 0x2E5A, 0x172D, 0xAB97, 0xF5CA, 0x7AE5, 0x9D73);
    RegisterStep(s, 7, 0x9D73, 0x9D4B, 0xEEA4, 0x7752, 0x3BA9, 0xBDD5, 0xFEEB, 0xDF74, 0x6FBA, 0x37DD);
    RegisterStep(s, 8, 0x37DD, 0x37E4, 0x1BF2, 0x0DF9, 0xA6FD, 0xF37F, 0xD9BE, 0x6CDF, 0x966E, 0x4B37);
  }

  /** The catalogue check value of CRC-16/MODBUS: the checksum of the
      ASCII digits "123456789" is 0x4B37. */
  lemma CatalogueCheckValue()
    ensures Crc([0x31, 0x32, 0x33, 0x34, 0x35, 0x36, 0x37, 0x38, 0x39]) == 0x4B37
  {
    var s: seq<byte> := [0x31, 0x32, 0x33, 0x34, 0x35, 0x36, 0x37, 0x38, 0x39];
    CheckDigitsOneToThree(s);
    CheckDigitsFourToSix(s);
    CheckDigitsSevenToNine(s);
    assert s[..9] == s;
  }
}
