// The bit operations of the one-time codes, as facts about the numbers the bits stand for.
module Bits {
  lemma NextByte(b: bv8)
    requires b != 0xff
    ensures (b + 1) as int == b as int + 1
  {}

  /** The byte that stands for a number. */
  function ByteOf(r: nat): (b: bv8)
    requires r < 256
    ensures b as int == r
  {
    if r == 0 then 0
    else
      var b := ByteOf(r - 1);
      NextByte(b);
      b + 1
  }

  lemma LowNibble(b: bv8)
    ensures (b & 0x0f) as int == b as int % 16
  {}

  lemma LowSevenBits(b: bv8)
    ensures (b & 0x7f) as int == b as int % 0x80
  {}

  lemma FourBytes(a: bv8, b: bv8, c: bv8, d: bv8)
    ensures (((a & 0x7f) as bv32 << 24) | (b as bv32 << 16) | (c as bv32 << 8) | (d as bv32)) as int
            == (a & 0x7f) as int * 0x100_0000 + b as int * 0x1_0000 + c as int * 0x100 + d as int
  {}

  /** Four bytes shifted and masked together, the top bit dropped. */
  function Assembled(a: bv8, b: bv8, c: bv8, d: bv8): (v: bv32)
    ensures v as int == (a & 0x7f) as int * 0x100_0000 + b as int * 0x1_0000 + c as int * 0x100 + d as int
  {
    FourBytes(a, b, c, d);
    ((a & 0x7f) as bv32 << 24) | (b as bv32 << 16) | (c as bv32 << 8) | (d as bv32)
  }

  lemma DropTopBit(a: nat, rest: nat)
    requires a < 0x100 && rest < 0x100_0000
    ensures (a * 0x100_0000 + rest) % 0x8000_0000 == (a % 0x80) * 0x100_0000 + rest
  {
    var q, r := a / 0x80, a % 0x80;
    assert a * 0x100_0000 + rest == q * 0x8000_0000 + (r * 0x100_0000 + rest);
  }

  lemma AssembledWord(a: bv8, b: bv8, c: bv8, d: bv8)
    ensures Assembled(a, b, c, d) as int
            == (a as int * 0x100_0000 + b as int * 0x1_0000 + c as int * 0x100 + d as int) % 0x8000_0000
  {
    hide Assembled;
    LowSevenBits(a);
    DropTopBit(a as int, b as int * 0x1_0000 + c as int * 0x100 + d as int);
  }
}
