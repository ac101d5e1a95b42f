/** Bytes and word sizes the other modules share. */
module MachineWords {

  type Byte = x: int | 0 <= x < 256

  const UINT32 := 0x1_0000_0000
  const UINT64 := 0x1_0000_0000_0000_0000

  /** The number that eight bytes are, the least significant first. */
  function Number(b: seq<int>): int
    requires |b| == 8
  {
    b[0] + 0x100 * b[1] + 0x1_0000 * b[2] + 0x100_0000 * b[3] + 0x1_0000_0000 * b[4] + 0x100_0000_0000 * b[5] +
    0x1_0000_0000_0000 * b[6] + 0x100_0000_0000_0000 * b[7]
  }

  /** The number that four bytes are. */
  function Small(b: seq<int>): int
    requires |b| == 4
  {
    b[0] + 0x100 * b[1] + 0x1_0000 * b[2] + 0x100_0000 * b[3]
  }

  /** The four bytes of a 32-bit word. */
  function Le32(x: nat): (b: seq<Byte>)
    ensures |b| == 4 && (x < UINT32 ==> Small(b) == x)
  {
    var x1 := x / 256;
    var x2 := x1 / 256;
    var x3 := x2 / 256;
    assert x == x % 256 + 256 * x1 && x1 == x1 % 256 + 256 * x2 && x2 == x2 % 256 + 256 * x3;
    assert x < UINT32 ==> x3 < 256 && x3 % 256 == x3;
    [x % 256, x1 % 256, x2 % 256, x3 % 256]
  }

  /** The eight bytes of a 64-bit word. */
  function Le64(x: nat): (b: seq<Byte>)
    ensures |b| == 8 && (x < UINT64 ==> Number(b) == x)
  {
    var low, high := x % UINT32, x / UINT32;
    assert x == low + UINT32 * high;
    Le32(low) + Le32(high)
  }
}
