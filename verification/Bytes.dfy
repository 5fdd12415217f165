/** Octets and big-endian words. */
module Bytes {
  newtype byte = x: int | 0 <= x < 0x100

  type Word16 = x: nat | x < 0x1_0000

  type Word32 = x: nat | x < 0x1_0000_0000

  function Be16(x: Word16): (b: seq<byte>)
    ensures |b| == 2 && FromBe16(b) == x
  {
    [(x / 0x100) as byte, (x % 0x100) as byte]
  }

  function FromBe16(b: seq<byte>): Word16
    requires |b| == 2
  {
    0x100 * (b[0] as nat) + b[1] as nat
  }

  function Be32(x: Word32): (b: seq<byte>)
    ensures |b| == 4 && FromBe32(b) == x
  {
    var b := Be16(x / 0x1_0000) + Be16(x % 0x1_0000);
    assert b[..2] == Be16(x / 0x1_0000) && b[2..] == Be16(x % 0x1_0000);
    b
  }

  function FromBe32(b: seq<byte>): Word32
    requires |b| == 4
  {
    0x1_0000 * FromBe16(b[..2]) + FromBe16(b[2..])
  }
}
