/** The on-disk format shared by tools/mkfs.c and kernel/fs/fs.c (include/fs.h): blocks of
    bytes, little-endian words in them, and the tree of block pointers of an inode. */
module FsFormat {
  import opened MachineWords

  type Disk = seq<seq<Byte>>

  const BSIZE := 1024
  const FSSIZE := 70000
  const NDIRECT := 11
  const NINDIRECT := 256
  const MAXFILE := 11 + 256 + 256 * 256

  const NINODES := 200
  const IPB := 16
  const NLOG := 31
  const NINODEBLOCKS := 13
  const NBITMAP := 9
  const INODESTART := 33
  const BMAPSTART := 46
  const NMETA := 55

  ghost predicate DiskOk(disk: Disk) {
    |disk| == FSSIZE && forall b :: 0 <= b < FSSIZE ==> |disk[b]| == BSIZE
  }

  function ZeroBlock(): seq<Byte> { seq(BSIZE, _ => 0) }

  function GetU32(b: seq<Byte>, off: nat): (x: nat)
    requires off + 4 <= |b|
    ensures x < UINT32
  {
    var b0: int, b1: int, b2: int, b3: int := b[off], b[off + 1], b[off + 2], b[off + 3];
    b0 + 0x100 * b1 + 0x1_0000 * b2 + 0x100_0000 * b3
  }

  function PutU32(b: seq<Byte>, off: nat, x: nat): (b': seq<Byte>)
    requires off + 4 <= |b|
    ensures |b'| == |b|
    ensures forall i :: 0 <= i < |b| && (i < off || off + 4 <= i) ==> b'[i] == b[i]
  {
    b[off := x % 256][off + 1 := x / 0x100 % 256][off + 2 := x / 0x1_0000 % 256][off + 3 := x / 0x100_0000 % 256]
  }

  lemma Digits(x: nat)
    requires x < UINT32
    ensures x % 256 + 0x100 * (x / 0x100 % 256) + 0x1_0000 * (x / 0x1_0000 % 256) +
              0x100_0000 * (x / 0x100_0000 % 256) == x
  {
    var y := x / 0x100;
    var z := y / 0x100;
    assert z == x / 0x1_0000 && z / 0x100 == x / 0x100_0000;
    assert x / 0x100_0000 < 256;
  }

  /** A word reads back as written, and other words are not disturbed. */
  lemma GetPutU32(b: seq<Byte>, off: nat, x: nat, at: nat)
    requires off + 4 <= |b| && at + 4 <= |b| && x < UINT32 && (at == off || at + 4 <= off || off + 4 <= at)
    ensures GetU32(PutU32(b, off, x), at) == if at == off then x else GetU32(b, at)
  {
    if at == off { Digits(x); }
  }

  /** Consecutive words, as the array inside a structure. */
  function PutWords(b: seq<Byte>, off: nat, ws: seq<nat>): (b': seq<Byte>)
    requires off + 4 * |ws| <= |b|
    ensures |b'| == |b|
    ensures forall i :: 0 <= i < |b| && (i < off || off + 4 * |ws| <= i) ==> b'[i] == b[i]
    decreases |ws|
  {
    if ws == [] then b else PutWords(PutU32(b, off, ws[0]), off + 4, ws[1..])
  }

  function GetWords(b: seq<Byte>, off: nat, n: nat): (ws: seq<nat>)
    requires off + 4 * n <= |b|
  {
    seq(n, i requires 0 <= i < n => GetU32(b, off + 4 * i))
  }

  /** Words read back as written. */
  lemma {:induction false} GetPutWords(b: seq<Byte>, off: nat, ws: seq<nat>)
    requires off + 4 * |ws| <= |b| && forall i :: 0 <= i < |ws| ==> ws[i] < UINT32
    ensures GetWords(PutWords(b, off, ws), off, |ws|) == ws
    decreases |ws|
  {
    if ws != [] {
      var b1 := PutU32(b, off, ws[0]);
      var b2 := PutWords(b1, off + 4, ws[1..]);
      GetPutU32(b, off, ws[0], off);
      GetPutWords(b1, off + 4, ws[1..]);
      forall i | 0 <= i < |ws| ensures GetU32(b2, off + 4 * i) == ws[i] {
        if i > 0 {
          assert GetWords(b2, off + 4, |ws| - 1)[i - 1] == ws[1..][i - 1];
        }
      }
    }
  }

  /** The places of an inode's pointer tree: a data block of the file, the indirect block,
      the double-indirect block, and the indirect blocks under it. */
  datatype Slot = Data(f: nat) | Ind | Dind | Ind2(i: nat)

  predicate SlotOk(s: Slot) { (s.Data? ==> s.f < MAXFILE) && (s.Ind2? ==> s.i < NINDIRECT) }

  /** The pointer is in the inode itself. */
  predicate Top(s: Slot) { s.Ind? || s.Dind? || (s.Data? && s.f < NDIRECT) }

  /** The slot of the block that holds the pointer. */
  function Parent(s: Slot): (p: Slot)
    requires SlotOk(s) && !Top(s)
    ensures SlotOk(p) && !p.Data?
  {
    if s.Ind2? then Dind
    else if s.f < NDIRECT + NINDIRECT then Ind
    else Ind2((s.f - NDIRECT - NINDIRECT) / NINDIRECT)
  }

  /** The pointer's index within that block, or within the inode. */
  function Idx(s: Slot): (i: nat)
    requires SlotOk(s)
    ensures if Top(s) then i < NDIRECT + 2 else i < NINDIRECT
  {
    match s
    case Ind => NDIRECT
    case Dind => NDIRECT + 1
    case Ind2(i) => i
    case Data(f) =>
      if f < NDIRECT then f
      else if f < NDIRECT + NINDIRECT then f - NDIRECT
      else (f - NDIRECT - NINDIRECT) % NINDIRECT
  }

  function Depth(s: Slot): nat { if s.Data? then 3 else if s.Ind2? then 2 else 1 }

  /** A slot is determined by where its pointer is. */
  lemma SlotByPlace(s: Slot, t: Slot)
    requires SlotOk(s) && SlotOk(t) && Idx(s) == Idx(t) && Top(s) == Top(t) && (!Top(s) ==> Parent(s) == Parent(t))
    ensures s == t
  {
  }

  /** Entry `i` of index block `b`, if there is such a block. */
  function Entry(disk: Disk, b: nat, i: nat): nat
    requires DiskOk(disk) && i < NINDIRECT
  {
    if b == 0 || b >= FSSIZE then 0 else GetU32(disk[b], 4 * i)
  }

  /** The pointer in a slot, 0 if there is none. */
  function Ptr(disk: Disk, addrs: seq<nat>, s: Slot): nat
    requires DiskOk(disk) && |addrs| == NDIRECT + 2 && SlotOk(s)
    decreases Depth(s)
  {
    if Top(s) then addrs[Idx(s)]
    else
      Entry(disk, Ptr(disk, addrs, Parent(s)), Idx(s))
  }

  /** Pointers only depend on the index blocks. */
  lemma PtrFrame(disk: Disk, disk': Disk, addrs: seq<nat>, s: Slot)
    requires DiskOk(disk) && DiskOk(disk') && |addrs| == NDIRECT + 2 && SlotOk(s)
    requires forall t :: SlotOk(t) && !t.Data? && 0 < Ptr(disk, addrs, t) < FSSIZE ==>
               disk'[Ptr(disk, addrs, t)] == disk[Ptr(disk, addrs, t)]
    ensures Ptr(disk', addrs, s) == Ptr(disk, addrs, s)
    decreases Depth(s)
  {
    if !Top(s) {
      PtrFrame(disk, disk', addrs, Parent(s));
    }
  }
}
