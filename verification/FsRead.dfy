/** How the kernel reads the image: block lookup, file reads and directory lookups
    (kernel/fs/fs.c). */
module FsRead {
  import opened FsFormat
  import opened FsTree
  import opened MachineWords

  /** What a lookup of a block comes to: there is none, it is there, its number or that of an index
      block on the way is not on the disk, or no file has that many blocks. */
  datatype Block = Absent | There(addr: nat) | OffDisk | TooFar

  function Numbered(addr: nat): Block {
    if addr == 0 then Absent else if addr < FSSIZE then There(addr) else OffDisk
  }

  /** Entry `i` of an index block. */
  function Through(disk: Disk, index: Block, i: nat): Block
    requires DiskOk(disk) && i < NINDIRECT && (index.There? ==> index.addr < FSSIZE)
  {
    if index.There? then Numbered(GetU32(disk[index.addr], 4 * i)) else index
  }

  /** Block `bn` of the file. */
  function Bmap(disk: Disk, addrs: seq<nat>, bn: nat): (b: Block)
    requires DiskOk(disk) && |addrs| == NDIRECT + 2
    ensures b.There? ==> 0 < b.addr < FSSIZE
    ensures b.TooFar? <==> bn >= MAXFILE
  {
    if bn < NDIRECT then Numbered(addrs[bn])
    else
      var bn1 := bn - NDIRECT;
      if bn1 < NINDIRECT then Through(disk, Numbered(addrs[NDIRECT]), bn1)
      else
        var bn2 := bn1 - NINDIRECT;
        if bn2 < NINDIRECT * NINDIRECT then
          Through(disk, Through(disk, Numbered(addrs[NDIRECT + 1]), bn2 / NINDIRECT), bn2 % NINDIRECT)
        else TooFar
  }

  /** The pointer in a slot, and those on the way to it, are on the disk. */
  ghost predicate OnDisk(disk: Disk, addrs: seq<nat>, s: Slot)
    requires DiskOk(disk) && |addrs| == NDIRECT + 2 && SlotOk(s)
    decreases Depth(s)
  {
    Ptr(disk, addrs, s) < FSSIZE && (!Top(s) ==> OnDisk(disk, addrs, Parent(s)))
  }

  lemma ThroughIs(disk: Disk, b: nat, i: nat)
    requires DiskOk(disk) && i < NINDIRECT
    ensures Through(disk, Numbered(b), i) == if b < FSSIZE then Numbered(Entry(disk, b, i)) else OffDisk
    ensures Through(disk, OffDisk, i) == OffDisk
  {
  }

  /** The kernel's lookup finds what is stored at the place of that block in the pointer tree. */
  lemma BmapIsPtr(disk: Disk, addrs: seq<nat>, bn: nat)
    requires DiskOk(disk) && |addrs| == NDIRECT + 2 && bn < MAXFILE
    ensures Bmap(disk, addrs, bn) ==
            if OnDisk(disk, addrs, Data(bn)) then Numbered(Ptr(disk, addrs, Data(bn))) else OffDisk
  {
    hide Entry, Through;
    var s := Data(bn);
    if Top(s) {
      assert Ptr(disk, addrs, s) == addrs[bn];
    } else {
      var p := Parent(s);
      Below(disk, addrs, s);
      if p.Ind2? {
        Below(disk, addrs, p);
        assert Ptr(disk, addrs, Dind) == addrs[NDIRECT + 1];
        assert OnDisk(disk, addrs, p) <==> Ptr(disk, addrs, p) < FSSIZE && OnDisk(disk, addrs, Dind);
        ThroughIs(disk, addrs[NDIRECT + 1], Idx(p));
      } else {
        assert Ptr(disk, addrs, Ind) == addrs[NDIRECT];
      }
      assert OnDisk(disk, addrs, s) <==> Ptr(disk, addrs, s) < FSSIZE && OnDisk(disk, addrs, p);
      ThroughIs(disk, Ptr(disk, addrs, p), Idx(s));
    }
  }

  /** A node and a disk of the right shape. */
  ghost predicate Shaped(disk: Disk, node: Node) { DiskOk(disk) && |node.addrs| == NDIRECT + 2 }

  /** An inode all of whose block numbers are on the disk. */
  ghost predicate Readable(disk: Disk, node: Node) {
    Shaped(disk, node) && node.size <= MAXFILE * BSIZE &&
    forall f :: 0 <= f < MAXFILE ==> !Bmap(disk, node.addrs, f).OffDisk?
  }

  /** Where byte `k` of the file is looked for. */
  ghost function BlockOf(disk: Disk, node: Node, k: nat): (b: Block)
    requires Shaped(disk, node)
    ensures b.There? ==> 0 < b.addr < FSSIZE
  {
    Bmap(disk, node.addrs, k / BSIZE)
  }

  /** Byte `k` of the file, if its block is there. */
  ghost predicate HasByte(disk: Disk, node: Node, k: nat)
    requires Shaped(disk, node)
  {
    BlockOf(disk, node, k).There?
  }

  ghost function ByteOf(disk: Disk, node: Node, k: nat): Byte
    requires Shaped(disk, node)
  {
    if HasByte(disk, node, k) then disk[BlockOf(disk, node, k).addr][k % BSIZE] else 0
  }

  /** What a read of `n` bytes at `off` is cut down to. */
  function Clip(size: nat, off: nat, n: nat): nat {
    if off > size || off + n >= UINT32 then 0 else if off + n > size then size - off else n
  }

  /** The file has the bytes `r` from `off` on. */
  ghost predicate Holds(disk: Disk, node: Node, off: nat, r: seq<Byte>)
    requires Shaped(disk, node)
  {
    forall k :: off <= k < off + |r| ==> HasByte(disk, node, k) && r[k - off] == ByteOf(disk, node, k)
  }

  /** How a read ends: it returns the number of bytes delivered; or -1, as the destination may not
      be written further; or the lookup panics; or a block is asked for that the disk does not have. */
  datatype End = Returned | Failed | Panicked | Lost

  /** `r` is delivered of a read of `n` bytes at `off`, and the read ends with `end`. */
  ghost predicate ReadIs(disk: Disk, node: Node, off: nat, n: nat, room: nat, end: End, r: seq<Byte>)
    requires Shaped(disk, node)
  {
    var len := Clip(node.size, off, n);
    && |r| <= len && |r| <= room && Holds(disk, node, off, r)
    && match end
       case Returned => |r| < len ==> BlockOf(disk, node, off + |r|).Absent?
       case Failed => |r| == room < len && HasByte(disk, node, off + |r|)
       case Panicked => |r| < len && BlockOf(disk, node, off + |r|).TooFar?
       case Lost => |r| < len && BlockOf(disk, node, off + |r|).OffDisk?
  }

  lemma PieceIs(disk: Disk, node: Node, at: nat, m: nat)
    requires Shaped(disk, node) && 0 < m <= BSIZE - at % BSIZE
    ensures forall k :: at <= k < at + m ==>
      BlockOf(disk, node, k) == BlockOf(disk, node, at) && k % BSIZE == at % BSIZE + k - at
  {
    hide Bmap;
    forall k | at <= k < at + m ensures k / BSIZE == at / BSIZE && k % BSIZE == at % BSIZE + k - at {
    }
  }

  lemma HoldsNothing(disk: Disk, node: Node, off: nat)
    requires Shaped(disk, node)
    ensures Holds(disk, node, off, [])
  {
  }

  /** One block's part of a read. */
  lemma HoldsMore(disk: Disk, node: Node, off: nat, r: seq<Byte>, m: nat, n: nat)
    requires Shaped(disk, node) && Holds(disk, node, off, r) && HasByte(disk, node, off + |r|)
    requires 0 < m <= BSIZE - (off + |r|) % BSIZE && n <= m
    ensures var at := off + |r|;
            Holds(disk, node, off, r + disk[BlockOf(disk, node, at).addr][at % BSIZE..at % BSIZE + n])
    ensures n < m ==> HasByte(disk, node, off + |r| + n)
  {
    hide BlockOf;
    var at := off + |r|;
    PieceIs(disk, node, at, m);
    var piece := disk[BlockOf(disk, node, at).addr][at % BSIZE..at % BSIZE + n];
    forall k | at <= k < at + n ensures HasByte(disk, node, k) && piece[k - at] == ByteOf(disk, node, k) {
      assert BlockOf(disk, node, k) == BlockOf(disk, node, at);
    }
    assert n < m ==> BlockOf(disk, node, at + n) == BlockOf(disk, node, at);
  }

  /** `room` is how many bytes the destination takes before the first it may not be written at.
      `r` is what arrives there, however the read ends. */
  method Readi(disk: Disk, node: Node, off: nat, n: nat, room: nat) returns (end: End, r: seq<Byte>)
    requires Shaped(disk, node) && off < UINT32 && n < UINT32
    ensures ReadIs(disk, node, off, n, room, end, r)
  {
    hide Bmap, Holds;
    HoldsNothing(disk, node, off);
    if off > node.size || (off + n) % UINT32 < off {
      return Returned, [];
    }
    var len := if off + n > node.size then node.size - off else n;
    r := [];
    while |r| < len
      invariant |r| <= len == Clip(node.size, off, n) && |r| <= room
      invariant Holds(disk, node, off, r)
    {
      var at := off + |r|;
      var b := Bmap(disk, node.addrs, at / BSIZE);
      match b {
        case Absent => return Returned, r;
        case TooFar => return Panicked, r;
        case OffDisk => return Lost, r;
        case There(addr) =>
          var m := if len - |r| < BSIZE - at % BSIZE then len - |r| else BSIZE - at % BSIZE;
          var arrived := if |r| + m <= room then m else room - |r|;
          HoldsMore(disk, node, off, r, m, arrived);
          r := r + disk[addr][at % BSIZE..at % BSIZE + arrived];
          if arrived < m { return Failed, r; }
      }
    }
    end := Returned;
  }

  /** A read of an inode within those bounds neither panics nor leaves the disk. */
  lemma ReadableReturns(disk: Disk, node: Node, off: nat, n: nat, room: nat, end: End, r: seq<Byte>)
    requires Readable(disk, node) && ReadIs(disk, node, off, n, room, end, r)
    ensures end.Returned? || end.Failed?
  {
    hide Bmap, Holds;
  }
}
