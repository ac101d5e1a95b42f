/** The free-block bitmap (tools/mkfs.c, balloc). */
module FsBitmap {
  import opened FsFormat
  import opened MachineWords

  const BPB := 8 * BSIZE

  function Pow2(n: nat): nat { if n == 0 then 1 else 2 * Pow2(n - 1) }

  /** Bit `k` of `x`. */
  predicate IsSet(x: nat, k: nat) { if k == 0 then x % 2 == 1 else IsSet(x / 2, k - 1) }

  /** `x | (1 << k)` on `n`-bit numbers. */
  function SetBit(x: nat, k: nat, n: nat): (y: nat)
    requires k < n && x < Pow2(n)
    ensures y < Pow2(n)
  {
    if k == 0 then x / 2 * 2 + 1 else x % 2 + 2 * SetBit(x / 2, k - 1, n - 1)
  }

  lemma {:induction false} SetBitIs(x: nat, k: nat, n: nat, j: nat)
    requires k < n && x < Pow2(n)
    ensures IsSet(SetBit(x, k, n), j) == (j == k || IsSet(x, j))
    decreases k
  {
    if k > 0 && j > 0 {
      assert SetBit(x, k, n) / 2 == SetBit(x / 2, k - 1, n - 1);
      SetBitIs(x / 2, k - 1, n - 1, j - 1);
    }
  }

  /** Bit `i` of a bitmap block. */
  predicate Marked(b: seq<Byte>, i: nat)
    requires i / 8 < |b|
  {
    IsSet(b[i / 8], i % 8)
  }

  lemma ZeroUnmarked(i: nat)
    requires i < BPB
    ensures !Marked(ZeroBlock(), i)
  {
    ZeroIsSet(i % 8);
  }

  lemma {:induction false} ZeroIsSet(k: nat)
    ensures !IsSet(0, k)
  {
    if k > 0 { ZeroIsSet(k - 1); }
  }

  /** Block `k` of the bitmap as balloc leaves it. */
  ghost predicate BlockBits(buf: seq<Byte>, k: nat, used: nat) {
    |buf| == BSIZE && forall i :: 0 <= i < BPB ==> Marked(buf, i) == (k * BPB + i < used)
  }

  /** One block of the bitmap: its bits are set just for the blocks below `used`. */
  method BitmapBlock(b: nat, used: nat) returns (buf: seq<Byte>)
    ensures |buf| == BSIZE && BlockBits(buf, b, used)
  {
    buf := ZeroBlock();
    var i := 0;
    forall j | 0 <= j < BPB ensures !Marked(buf, j) { ZeroUnmarked(j); }
    while i < BPB
      invariant 0 <= i <= BPB && |buf| == BSIZE
      invariant forall j :: 0 <= j < BPB ==> Marked(buf, j) == (j < i && b * BPB + j < used)
    {
      if b * BPB + i < used {
        ghost var was := buf;
        assert Pow2(8) == 256;
        buf := buf[i / 8 := SetBit(buf[i / 8], i % 8, 8)];
        forall j | 0 <= j < BPB ensures Marked(buf, j) == (j == i || Marked(was, j)) {
          SetBitIs(was[i / 8], i % 8, 8, j % 8);
        }
      }
      i := i + 1;
    }
  }

  /** The bitmap says block `b` is in use. */
  predicate InUse(disk: Disk, b: nat)
    requires DiskOk(disk) && b < FSSIZE
  {
    Marked(disk[BMAPSTART + b / BPB], b % BPB)
  }

  /** The whole of it, with the bits past the end of the disk. */
  ghost predicate Bits(disk: Disk, used: nat)
    requires DiskOk(disk)
  {
    forall c :: BMAPSTART <= c < BMAPSTART + NBITMAP ==> BlockBits(disk[c], c - BMAPSTART, used)
  }

  /** Then a block is marked just when it is below `used`. */
  lemma BitsMark(disk: Disk, used: nat, b: nat)
    requires DiskOk(disk) && Bits(disk, used) && b < FSSIZE
    ensures InUse(disk, b) == (b < used)
  {
    hide Marked;
    var k, i := b / BPB, b % BPB;
    assert b == k * BPB + i;
    assert BlockBits(disk[BMAPSTART + k], k, used);
  }

  /** Writes the bitmap: exactly the blocks below `used` are marked, and no other block is written. */
  method Balloc(disk: Disk, used: nat) returns (d: Disk)
    requires DiskOk(disk)
    ensures DiskOk(d) && Bits(d, used) && forall b :: 0 <= b < FSSIZE ==> InUse(d, b) == (b < used)
    ensures forall b :: 0 <= b < FSSIZE && !(BMAPSTART <= b < BMAPSTART + NBITMAP) ==> d[b] == disk[b]
  {
    hide BlockBits, InUse;
    d := disk;
    var k := 0;
    while k < NBITMAP
      invariant 0 <= k <= NBITMAP && DiskOk(d)
      invariant forall c :: BMAPSTART <= c < BMAPSTART + k ==> BlockBits(d[c], c - BMAPSTART, used)
      invariant forall b :: 0 <= b < FSSIZE && !(BMAPSTART <= b < BMAPSTART + NBITMAP) ==> d[b] == disk[b]
    {
      var buf := BitmapBlock(k, used);
      d := d[BMAPSTART + k := buf];
      k := k + 1;
    }
    forall b | 0 <= b < FSSIZE ensures InUse(d, b) == (b < used) { BitsMark(d, used, b); }
  }
}
