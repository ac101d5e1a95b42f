/** The bytes of a file as laid out in its pointer tree, and how giving it one more block and
    writing into that block change them (tools/mkfs.c, iappend). */
module FsFile {
  import opened FsFormat
  import opened FsTree
  import opened MachineWords

  /** The image with the roles of its blocks and its inodes as held in memory. */
  datatype Image = Image(disk: Disk, free: nat, owner: Owners, nodes: Nodes)

  ghost predicate ImageOk(g: Image) { Tree(g.disk, g.free, g.owner, g.nodes) }

  /** Blocks holding `size` bytes. */
  function Blocks(size: nat): nat { (size + BSIZE - 1) / BSIZE }

  /** A file of `n` blocks uses slot `s`. */
  predicate Has(n: nat, s: Slot) {
    match s
    case Data(f) => f < n
    case Ind => n > NDIRECT
    case Dind => n > NDIRECT + NINDIRECT
    case Ind2(i) => n > NDIRECT + NINDIRECT + NINDIRECT * i
  }

  /** Blocks a file of `n` data blocks takes, index blocks included. */
  function Extent(n: nat): nat {
    n + (if n > NDIRECT then 1 else 0) +
    (if n > NDIRECT + NINDIRECT then 1 + (n - NDIRECT - 1) / NINDIRECT else 0)
  }

  /** The pointer in slot `s` of inode `inum`. */
  ghost function PtrOf(g: Image, inum: nat, s: Slot): nat
    requires ImageOk(g) && inum in g.nodes && SlotOk(s)
  {
    assert Owns(g.disk, g.free, g.owner, inum, g.nodes[inum].addrs);
    Ptr(g.disk, g.nodes[inum].addrs, s)
  }

  lemma PtrRange(g: Image, inum: nat, s: Slot)
    requires ImageOk(g) && inum in g.nodes && SlotOk(s) && PtrOf(g, inum, s) != 0
    ensures DiskOk(g.disk) && NMETA <= PtrOf(g, inum, s) < g.free <= FSSIZE && PtrOf(g, inum, s) in g.owner
    ensures g.owner[PtrOf(g, inum, s)] == Role(inum, s)
  {
    hide Ptr;
    assert Owns(g.disk, g.free, g.owner, inum, g.nodes[inum].addrs);
  }

  /** Exactly the slots of a file of `n` blocks are filled. */
  ghost predicate Present(g: Image, inum: nat, n: nat)
    requires ImageOk(g) && inum in g.nodes
  {
    n <= MAXFILE && forall s :: SlotOk(s) ==> (PtrOf(g, inum, s) != 0 <==> Has(n, s))
  }

  /** Byte `k` of the file, counting from the start of its first block. */
  ghost function ByteAt(g: Image, inum: nat, k: nat): Byte
    requires ImageOk(g) && inum in g.nodes && k < MAXFILE * BSIZE
  {
    var p := PtrOf(g, inum, Data(k / BSIZE));
    if p == 0 || p >= FSSIZE then 0 else g.disk[p][k % BSIZE]
  }

  /** Byte `k` of `c` followed by zeros. */
  function Padded(c: seq<Byte>, k: nat): Byte { if k < |c| then c[k] else 0 }

  /** The file has its first `n` blocks, and they hold `c` followed by zeros. */
  ghost predicate Bytes(g: Image, inum: nat, n: nat, c: seq<Byte>)
    requires ImageOk(g) && inum in g.nodes
  {
    n <= MAXFILE && (forall f :: 0 <= f < n ==> PtrOf(g, inum, Data(f)) != 0) &&
    forall k :: 0 <= k < n * BSIZE ==> ByteAt(g, inum, k) == Padded(c, k)
  }

  /** The slot's parent is there. */
  ghost predicate Reachable(g: Image, inum: nat, s: Slot)
    requires ImageOk(g) && inum in g.nodes
  {
    SlotOk(s) && (Top(s) || PtrOf(g, inum, Parent(s)) != 0)
  }

  /** Makes sure slot `s` of the inode has a block, taking the next free one if it has none. */
  ghost function Fill(g: Image, inum: nat, s: Slot): Image
    requires ImageOk(g) && inum in g.nodes && Reachable(g, inum, s)
  {
    if PtrOf(g, inum, s) != 0 then g
    else
      assert Owns(g.disk, g.free, g.owner, inum, g.nodes[inum].addrs);
      var (d, a) := SetPtr(g.disk, g.nodes[inum].addrs, s, g.free);
      Image(d, g.free + 1, g.owner[g.free := Role(inum, s)], g.nodes[inum := g.nodes[inum].(addrs := a)])
  }

  lemma FillOk(g: Image, inum: nat, s: Slot)
    requires ImageOk(g) && inum in g.nodes && Reachable(g, inum, s) && (PtrOf(g, inum, s) == 0 ==> g.free < FSSIZE)
    ensures ImageOk(Fill(g, inum, s)) && Fill(g, inum, s).nodes.Keys == g.nodes.Keys
    ensures forall i :: i in g.nodes && i != inum ==> Fill(g, inum, s).nodes[i] == g.nodes[i]
    ensures Fill(g, inum, s).nodes[inum].(addrs := []) == g.nodes[inum].(addrs := [])
  {
    hide Ptr, SetPtr, Tree;
    if PtrOf(g, inum, s) == 0 { FillSteps(g, inum, s); AllocTree(g.disk, g.free, g.owner, g.nodes, inum, s); }
  }

  lemma FillSteps(g: Image, inum: nat, s: Slot)
    requires ImageOk(g) && inum in g.nodes && Reachable(g, inum, s) && PtrOf(g, inum, s) == 0 && g.free < FSSIZE
    ensures CanSet(g.disk, g.free, g.owner, inum, g.nodes[inum].addrs, s)
  {
    hide Ptr, SetPtr;
    assert Owns(g.disk, g.free, g.owner, inum, g.nodes[inum].addrs);
  }

  /** One pointer is set, the others of every inode stay. */
  lemma FillPtr(g: Image, inum: nat, s: Slot, i: nat, t: Slot)
    requires ImageOk(g) && inum in g.nodes && Reachable(g, inum, s) && (PtrOf(g, inum, s) == 0 ==> g.free < FSSIZE)
    requires i in g.nodes && SlotOk(t)
    ensures ImageOk(Fill(g, inum, s)) && i in Fill(g, inum, s).nodes
    ensures PtrOf(Fill(g, inum, s), i, t) == if i == inum && t == s && PtrOf(g, inum, s) == 0 then g.free
              else PtrOf(g, i, t)
  {
    hide Ptr, SetPtr, Tree;
    FillOk(g, inum, s);
    if PtrOf(g, inum, s) == 0 {
      FillSteps(g, inum, s);
      if i == inum {
        SetPtrAt(g.disk, g.free, g.owner, inum, g.nodes[inum].addrs, s, t);
      } else {
        AllocOther(g.disk, g.free, g.owner, g.nodes, inum, s, i);
      }
    }
  }

  /** The blocks that hold file data are not written. */
  lemma FillData(g: Image, inum: nat, s: Slot, b: nat)
    requires ImageOk(g) && inum in g.nodes && Reachable(g, inum, s) && (PtrOf(g, inum, s) == 0 ==> g.free < FSSIZE)
    requires b < FSSIZE && (b < NMETA || b >= g.free || (b in g.owner && g.owner[b].slot.Data?))
    ensures DiskOk(g.disk) && DiskOk(Fill(g, inum, s).disk) && Fill(g, inum, s).disk[b] == g.disk[b]
  {
    hide Ptr, SetPtr;
    if PtrOf(g, inum, s) == 0 {
      FillSteps(g, inum, s);
      if Fill(g, inum, s).disk[b] != g.disk[b] {
        SetPtrDisk(g.disk, g.free, g.owner, inum, g.nodes[inum].addrs, s, b);
      }
    }
  }

  /** Filling a slot leaves the bytes of every file alone. */
  lemma FillBytes(g: Image, inum: nat, s: Slot, i: nat, n: nat, c: seq<Byte>)
    requires ImageOk(g) && inum in g.nodes && Reachable(g, inum, s) && (PtrOf(g, inum, s) == 0 ==> g.free < FSSIZE)
    requires i in g.nodes && Bytes(g, i, n, c)
    ensures ImageOk(Fill(g, inum, s)) && i in Fill(g, inum, s).nodes && Bytes(Fill(g, inum, s), i, n, c)
  {
    hide PtrOf, Fill, ImageOk, Padded;
    FillOk(g, inum, s);
    var g' := Fill(g, inum, s);
    forall f | 0 <= f < n ensures PtrOf(g', i, Data(f)) == PtrOf(g, i, Data(f)) {
      FillPtr(g, inum, s, i, Data(f));
    }
    forall k | 0 <= k < n * BSIZE ensures ByteAt(g', i, k) == ByteAt(g, i, k) {
      assert k / BSIZE < n;
      PtrRange(g, i, Data(k / BSIZE));
      FillData(g, inum, s, PtrOf(g, i, Data(k / BSIZE)));
    }
  }

  /** A data block just taken extends the file with zeros. */
  lemma FillGrows(g: Image, inum: nat, n: nat, c: seq<Byte>)
    requires ImageOk(g) && inum in g.nodes && n < MAXFILE && Reachable(g, inum, Data(n))
    requires PtrOf(g, inum, Data(n)) == 0 && g.free < FSSIZE && Bytes(g, inum, n, c) && |c| <= n * BSIZE
    ensures ImageOk(Fill(g, inum, Data(n))) && inum in Fill(g, inum, Data(n)).nodes &&
            Bytes(Fill(g, inum, Data(n)), inum, n + 1, c)
  {
    hide PtrOf, Fill, ImageOk;
    var g' := Fill(g, inum, Data(n));
    FillBytes(g, inum, Data(n), inum, n, c);
    FillPtr(g, inum, Data(n), inum, Data(n));
    FillData(g, inum, Data(n), g.free);
    FreshZero(g);
    assert g.free > 0 by { FreshZero(g); }
    forall k | n * BSIZE <= k < (n + 1) * BSIZE ensures ByteAt(g', inum, k) == 0 {
      assert k / BSIZE == n;
    }
  }

  lemma FreshZero(g: Image)
    requires ImageOk(g) && g.free < FSSIZE
    ensures NMETA <= g.free && g.disk[g.free] == ZeroBlock()
  {
    hide Serves, Owns;
  }

  /** The image with the `f`-th data block of a file rewritten. */
  ghost function Write(g: Image, inum: nat, f: nat, data: seq<Byte>): Image
    requires ImageOk(g) && inum in g.nodes && f < MAXFILE && |data| == BSIZE && 0 < PtrOf(g, inum, Data(f)) < FSSIZE
  {
    g.(disk := g.disk[PtrOf(g, inum, Data(f)) := data])
  }

  lemma WriteOk(g: Image, inum: nat, f: nat, data: seq<Byte>)
    requires ImageOk(g) && inum in g.nodes && f < MAXFILE && |data| == BSIZE && 0 < PtrOf(g, inum, Data(f)) < FSSIZE
    ensures ImageOk(Write(g, inum, f, data))
    ensures forall i, s :: i in g.nodes && SlotOk(s) ==> PtrOf(Write(g, inum, f, data), i, s) == PtrOf(g, i, s)
  {
    hide Ptr, Tree;
    WritePre(g, inum);
    WriteTree(g.disk, g.free, g.owner, g.nodes, inum, f, data);
  }

  lemma WritePre(g: Image, inum: nat)
    requires ImageOk(g) && inum in g.nodes
    ensures Owns(g.disk, g.free, g.owner, inum, g.nodes[inum].addrs)
  {
    hide Owns;
  }

  /** A data block rewritten changes those bytes of that file, and no other file. */
  lemma WriteByte(g: Image, inum: nat, f: nat, data: seq<Byte>, i: nat, k: nat)
    requires ImageOk(g) && inum in g.nodes && f < MAXFILE && |data| == BSIZE && 0 < PtrOf(g, inum, Data(f)) < FSSIZE
    requires i in g.nodes && k < MAXFILE * BSIZE
    ensures ImageOk(Write(g, inum, f, data))
    ensures ByteAt(Write(g, inum, f, data), i, k) == if i == inum && k / BSIZE == f then data[k % BSIZE]
              else ByteAt(g, i, k)
  {
    hide PtrOf, ImageOk;
    WriteOk(g, inum, f, data);
    PtrRange(g, inum, Data(f));
    if PtrOf(g, i, Data(k / BSIZE)) != 0 { PtrRange(g, i, Data(k / BSIZE)); }
  }
}
