/** The image builder: inodes are allocated and files appended to, block by block
    (tools/mkfs.c). */
module Mkfs {
  import opened FsFormat
  import opened FsTree
  import opened FsFile
  import opened MachineWords

  /** Inode numbers within the inode blocks, and those whose place is not among the data blocks: the
      builder does not check, and goes on into the blocks of the bitmap. */
  const IMAX := NINODEBLOCKS * IPB
  const REACH := (NINODEBLOCKS + NBITMAP) * IPB

  function InodeBlock(inum: nat): nat { INODESTART + inum / IPB }

  function InodeOffset(inum: nat): (o: nat)
    ensures o + 64 <= BSIZE
  {
    64 * (inum % IPB)
  }

  /** An inode is within the inode blocks just when its number is below 208, and below the data
      blocks just when it is below 352. */
  lemma InodeFits(inum: nat)
    ensures inum < IMAX <==> InodeBlock(inum) < BMAPSTART
    ensures inum < REACH <==> InodeBlock(inum) < NMETA
  {
  }

  /** Inode `inum` as stored on disk. */
  function NodeAt(disk: Disk, inum: nat): (node: Node)
    requires DiskOk(disk) && inum < REACH
    ensures |node.addrs| == NDIRECT + 2
  {
    var w := GetWords(disk[InodeBlock(inum)], InodeOffset(inum), 16);
    Node(w[0], w[1], w[2], w[3..])
  }

  function NodeWords(node: Node): seq<nat> { [node.head0, node.head1, node.size] + node.addrs }

  predicate NodeFits(node: Node) {
    |node.addrs| == NDIRECT + 2 && forall i :: 0 <= i < |NodeWords(node)| ==> NodeWords(node)[i] < UINT32
  }

  function PutNode(disk: Disk, inum: nat, node: Node): (d: Disk)
    requires DiskOk(disk) && inum < REACH && |node.addrs| == NDIRECT + 2
    ensures DiskOk(d) && forall b :: 0 <= b < FSSIZE && b != InodeBlock(inum) ==> d[b] == disk[b]
  {
    var bn := InodeBlock(inum);
    disk[bn := PutWords(disk[bn], InodeOffset(inum), NodeWords(node))]
  }

  /** An inode reads back as written, and the others are not disturbed. */
  lemma NodeRoundTrip(disk: Disk, inum: nat, node: Node, j: nat)
    requires DiskOk(disk) && inum < REACH && j < REACH && NodeFits(node)
    ensures NodeAt(PutNode(disk, inum, node), j) == if j == inum then node else NodeAt(disk, j)
  {
    hide PutWords, GetU32;
    var d := PutNode(disk, inum, node);
    var bn := InodeBlock(inum);
    if j == inum {
      GetPutWords(disk[bn], InodeOffset(inum), NodeWords(node));
      assert GetWords(d[bn], InodeOffset(inum), 16) == NodeWords(node);
      assert NodeWords(node)[3..] == node.addrs;
    } else if InodeBlock(j) == bn {
      assert inum % IPB != j % IPB;
      SameWords(disk[bn], d[bn], InodeOffset(j), 16);
    }
  }

  lemma SameWords(b: seq<Byte>, b': seq<Byte>, off: nat, n: nat)
    requires |b'| == |b| && off + 4 * n <= |b| && forall i :: off <= i < off + 4 * n ==> b'[i] == b[i]
    ensures GetWords(b', off, n) == GetWords(b, off, n)
  {
  }

  /** Inode `i` is on disk, and its file is exactly `c`. */
  ghost predicate Stored(g: Image, i: nat, c: seq<Byte>)
    requires ImageOk(g)
  {
    i in g.nodes && i < REACH && NodeFits(g.nodes[i]) && NodeAt(g.disk, i) == g.nodes[i] && FileIs(g, i, c)
  }

  /** The in-memory inode describes a file of contents `c`. */
  ghost predicate FileIs(g: Image, i: nat, c: seq<Byte>)
    requires ImageOk(g) && i in g.nodes
  {
    g.nodes[i].size == |c| && Present(g, i, Blocks(|c|)) && Bytes(g, i, Blocks(|c|), c)
  }

  /** Files other than `inum` are what they were. */
  ghost predicate Kept(g: Image, g': Image, inum: nat) {
    ImageOk(g) && ImageOk(g') && g'.nodes.Keys == g.nodes.Keys &&
    (forall i :: i in g.nodes && i != inum ==> g'.nodes[i] == g.nodes[i]) &&
    forall i, c :: i != inum && Stored(g, i, c) ==> Stored(g', i, c)
  }

  lemma FillKeeps(g: Image, inum: nat, s: Slot)
    requires ImageOk(g) && inum in g.nodes && Reachable(g, inum, s) && (PtrOf(g, inum, s) == 0 ==> g.free < FSSIZE)
    ensures Kept(g, Fill(g, inum, s), inum)
  {
    hide PtrOf, ImageOk, Fill, Bytes, NodeAt, Reachable, NodeFits;
    var g' := Fill(g, inum, s);
    FillOk(g, inum, s);
    forall i, c | i != inum && Stored(g, i, c) ensures Stored(g', i, c) {
      forall t | SlotOk(t) ensures PtrOf(g', i, t) == PtrOf(g, i, t) {
        FillPtr(g, inum, s, i, t);
      }
      FillBytes(g, inum, s, i, Blocks(|c|), c);
      InodeFits(i);
      FillData(g, inum, s, InodeBlock(i));
      SameNode(g.disk, g'.disk, i);
    }
  }

  lemma SameNode(d: Disk, d': Disk, i: nat)
    requires DiskOk(d) && DiskOk(d') && i < REACH && d'[InodeBlock(i)] == d[InodeBlock(i)]
    ensures NodeAt(d', i) == NodeAt(d, i)
  {
  }

  lemma WriteKeeps(g: Image, inum: nat, f: nat, data: seq<Byte>)
    requires ImageOk(g) && inum in g.nodes && f < MAXFILE && |data| == BSIZE && 0 < PtrOf(g, inum, Data(f)) < FSSIZE
    ensures Kept(g, Write(g, inum, f, data), inum)
  {
    hide PtrOf, ImageOk, NodeAt, NodeFits, ByteAt;
    var g' := Write(g, inum, f, data);
    WriteOk(g, inum, f, data);
    PtrRange(g, inum, Data(f));
    forall i, c | i != inum && Stored(g, i, c) ensures Stored(g', i, c) {
      forall k | 0 <= k < Blocks(|c|) * BSIZE ensures ByteAt(g', i, k) == ByteAt(g, i, k) {
        WriteByte(g, inum, f, data, i, k);
      }
      InodeFits(i);
      SameNode(g.disk, g'.disk, i);
    }
  }

  lemma ExtentStep(n: nat)
    ensures Extent(n + 1) == Extent(n) + 1 + (if n == NDIRECT then 1 else 0) +
              (if n == NDIRECT + NINDIRECT then 1 else 0) +
              (if n >= NDIRECT + NINDIRECT && (n - NDIRECT - NINDIRECT) % NINDIRECT == 0 then 1 else 0)
  {
  }

  /** Only the slot asked for was added. */
  lemma FillPresent(g: Image, inum: nat, s: Slot, n: nat)
    requires ImageOk(g) && inum in g.nodes && Reachable(g, inum, s) && (PtrOf(g, inum, s) == 0 ==> g.free < FSSIZE)
    ensures ImageOk(Fill(g, inum, s)) && inum in Fill(g, inum, s).nodes
    ensures forall t :: SlotOk(t) ==> (PtrOf(Fill(g, inum, s), inum, t) != 0 <==> PtrOf(g, inum, t) != 0 || t == s)
    ensures Fill(g, inum, s).free == g.free + (if PtrOf(g, inum, s) == 0 then 1 else 0)
  {
    hide PtrOf, ImageOk;
    FillOk(g, inum, s);
    FreshIf(g);
    forall t | SlotOk(t) ensures PtrOf(Fill(g, inum, s), inum, t) != 0 <==> PtrOf(g, inum, t) != 0 || t == s {
      FillPtr(g, inum, s, inum, t);
    }
  }

  lemma FreshIf(g: Image)
    requires ImageOk(g)
    ensures 0 < g.free <= FSSIZE && DiskOk(g.disk)
  {
  }

  /** What finding the block for position `f` of a file with `n` blocks leads to. */
  ghost predicate Grown(g: Image, g': Image, inum: nat, n: nat, f: nat, c: seq<Byte>) {
    Kept(g, g', inum) && inum in g.nodes && f < MAXFILE && Present(g', inum, f + 1) && Bytes(g', inum, f + 1, c) &&
    g'.free == g.free + Extent(f + 1) - Extent(n) && g'.nodes[inum].(addrs := []) == g.nodes[inum].(addrs := [])
  }

  ghost predicate CanGrow(g: Image, inum: nat, n: nat, f: nat, c: seq<Byte>) {
    ImageOk(g) && inum in g.nodes && n - 1 <= f <= n && f < MAXFILE && |c| <= n * BSIZE &&
    Present(g, inum, n) && Bytes(g, inum, n, c)
  }

  /** The last step of the three: the data block itself. */
  lemma GrowData(g: Image, g1: Image, inum: nat, n: nat, f: nat, c: seq<Byte>)
    requires CanGrow(g, inum, n, f, c) && Kept(g, g1, inum) && Bytes(g1, inum, n, c)
    requires g1.nodes[inum].(addrs := []) == g.nodes[inum].(addrs := [])
    requires forall t :: SlotOk(t) ==> (PtrOf(g1, inum, t) != 0 <==> Has(n, t) || (Has(f + 1, t) && t != Data(f)))
    requires f == n ==> g1.free < FSSIZE
    requires g1.free == g.free + Extent(f + 1) - Extent(n) - (if f == n then 1 else 0)
    ensures Reachable(g1, inum, Data(f)) && Grown(g, Fill(g1, inum, Data(f)), inum, n, f, c)
  {
    hide PtrOf, ImageOk, Bytes, Stored, Extent, Fill;
    assert Reachable(g1, inum, Data(f)) by {
      if !Top(Data(f)) { assert Has(f + 1, Parent(Data(f))); }
    }
    FillPresent(g1, inum, Data(f), n);
    FillKeeps(g1, inum, Data(f));
    FillOk(g1, inum, Data(f));
    if f == n {
      FillGrows(g1, inum, n, c);
    } else {
      FillBytes(g1, inum, Data(f), inum, n, c);
    }
  }

  lemma GrowDirect(g: Image, inum: nat, n: nat, f: nat, c: seq<Byte>)
    requires CanGrow(g, inum, n, f, c) && f < NDIRECT && g.free + Extent(f + 1) - Extent(n) <= FSSIZE
    ensures Reachable(g, inum, Data(f)) && Grown(g, Fill(g, inum, Data(f)), inum, n, f, c)
  {
    hide PtrOf, ImageOk, Bytes, Stored, Fill;
    GrowData(g, g, inum, n, f, c);
  }

  lemma GrowIndirect(g: Image, g1: Image, inum: nat, n: nat, f: nat, c: seq<Byte>)
    requires CanGrow(g, inum, n, f, c) && NDIRECT <= f < NDIRECT + NINDIRECT
    requires g.free + Extent(f + 1) - Extent(n) <= FSSIZE && Reachable(g, inum, Ind) && g1 == Fill(g, inum, Ind)
    ensures ImageOk(g1) && inum in g1.nodes
    ensures Reachable(g1, inum, Data(f)) && Grown(g, Fill(g1, inum, Data(f)), inum, n, f, c)
  {
    hide PtrOf, ImageOk, Bytes, Stored, Fill;
    ExtentStep(n);
    FillPresent(g, inum, Ind, n);
    FillKeeps(g, inum, Ind);
    FillOk(g, inum, Ind);
    FillBytes(g, inum, Ind, inum, n, c);
    GrowData(g, g1, inum, n, f, c);
  }

  lemma GrowDouble(g: Image, g1: Image, g2: Image, inum: nat, n: nat, f: nat, c: seq<Byte>)
    requires CanGrow(g, inum, n, f, c) && NDIRECT + NINDIRECT <= f
    requires g.free + Extent(f + 1) - Extent(n) <= FSSIZE
    requires Reachable(g, inum, Dind) && g1 == Fill(g, inum, Dind) && ImageOk(g1) && inum in g1.nodes
    requires Reachable(g1, inum, Parent(Data(f))) && g2 == Fill(g1, inum, Parent(Data(f)))
    ensures ImageOk(g2) && inum in g2.nodes
    ensures Reachable(g2, inum, Data(f)) && Grown(g, Fill(g2, inum, Data(f)), inum, n, f, c)
  {
    hide PtrOf, ImageOk, Bytes, Stored, Fill, Extent;
    ExtentStep(n);
    var i := (f - NDIRECT - NINDIRECT) / NINDIRECT;
    assert Parent(Data(f)) == Ind2(i);
    FillPresent(g, inum, Dind, n);
    FillKeeps(g, inum, Dind);
    FillOk(g, inum, Dind);
    FillBytes(g, inum, Dind, inum, n, c);
    FillPresent(g1, inum, Ind2(i), n);
    FillKeeps(g1, inum, Ind2(i));
    FillOk(g1, inum, Ind2(i));
    FillBytes(g1, inum, Ind2(i), inum, n, c);
    GrowData(g, g2, inum, n, f, c);
  }

  /** The bytes of `data` with `p` copied over them from `at` on. */
  function CopyOver(data: seq<Byte>, at: nat, p: seq<Byte>): (r: seq<Byte>)
    requires at + |p| <= |data|
    ensures |r| == |data|
  {
    data[..at] + p + data[at + |p|..]
  }

  /** Writing the next piece of a file into its last block appends it. */
  lemma WriteAppends(g: Image, inum: nat, c: seq<Byte>, p: seq<Byte>, data: seq<Byte>)
    requires ImageOk(g) && inum in g.nodes && |c| / BSIZE < MAXFILE
    requires var f := |c| / BSIZE;
             0 < |p| <= (f + 1) * BSIZE - |c| && Present(g, inum, f + 1) && Bytes(g, inum, f + 1, c) &&
             0 < PtrOf(g, inum, Data(f)) < FSSIZE && data == g.disk[PtrOf(g, inum, Data(f))] && |data| == BSIZE
    ensures var g' := Write(g, inum, |c| / BSIZE, CopyOver(data, |c| % BSIZE, p));
            Kept(g, g', inum) && Present(g', inum, |c| / BSIZE + 1) && Bytes(g', inum, |c| / BSIZE + 1, c + p)
  {
    hide PtrOf, ImageOk, Stored;
    var f := |c| / BSIZE;
    var new1 := CopyOver(data, |c| % BSIZE, p);
    var g' := Write(g, inum, f, new1);
    WriteKeeps(g, inum, f, new1);
    WriteOk(g, inum, f, new1);
    forall k | 0 <= k < (f + 1) * BSIZE ensures ByteAt(g', inum, k) == Padded(c + p, k) {
      WriteByte(g, inum, f, new1, inum, k);
      assert ByteAt(g, inum, k) == Padded(c, k);
    }
  }

  const FSMAGIC := 0x10203040

  function EmptyNode(ty: nat, major: nat, minor: nat): Node {
    Node(ty + 0x1_0000 * major, minor + 0x1_0000 * 1, 0, seq(NDIRECT + 2, _ => 0))
  }

  /** The type, the device numbers and the one link of an inode, from its first two words. */
  predicate IsHead(n: Node, ty: nat, major: nat, minor: nat) {
    && n.head0 % 0x1_0000 == ty && n.head0 / 0x1_0000 == major
    && n.head1 % 0x1_0000 == minor && n.head1 / 0x1_0000 == 1
  }

  lemma NewHead(ty: nat, major: nat, minor: nat)
    requires ty < 0x1_0000 && major < 0x1_0000 && minor < 0x1_0000
    ensures var n := EmptyNode(ty, major, minor);
            && IsHead(n, ty, major, minor) && n.size == 0 && NodeFits(n)
            && forall i :: 0 <= i < |n.addrs| ==> n.addrs[i] == 0
  {
  }

  lemma NoPtrs(disk: Disk, addrs: seq<nat>, s: Slot)
    requires DiskOk(disk) && |addrs| == NDIRECT + 2 && SlotOk(s) && forall i :: 0 <= i < |addrs| ==> addrs[i] == 0
    ensures Ptr(disk, addrs, s) == 0
    decreases Depth(s)
  {
    if !Top(s) { NoPtrs(disk, addrs, Parent(s)); }
  }

  /** An inode without pointers can be added to the image. */
  lemma JoinNode(g: Image, inum: nat, node: Node)
    requires ImageOk(g) && inum !in g.nodes
    requires |node.addrs| == NDIRECT + 2 && forall i :: 0 <= i < |node.addrs| ==> node.addrs[i] == 0
    ensures var g1 := g.(nodes := g.nodes[inum := node]);
            ImageOk(g1) && Extends(g1, inum, []) &&
            forall i, s :: i in g.nodes && SlotOk(s) ==> PtrOf(g1, i, s) == PtrOf(g, i, s)
  {
    hide Ptr;
    var g1 := g.(nodes := g.nodes[inum := node]);
    forall s | SlotOk(s) ensures Ptr(g.disk, node.addrs, s) == 0 { NoPtrs(g.disk, node.addrs, s); }
    forall b | NMETA <= b < g.free ensures Serves(g1.disk, g1.owner, g1.nodes, b) {
      assert Serves(g.disk, g.owner, g.nodes, b);
    }
  }

  lemma JoinKeeps(g: Image, inum: nat, node: Node, i: nat, c: seq<Byte>)
    requires ImageOk(g) && inum !in g.nodes && Stored(g, i, c)
    requires |node.addrs| == NDIRECT + 2 && forall i :: 0 <= i < |node.addrs| ==> node.addrs[i] == 0
    ensures var g1 := g.(nodes := g.nodes[inum := node]); ImageOk(g1) && Stored(g1, i, c)
  {
    hide ImageOk, PtrOf, NodeAt;
    var g1 := g.(nodes := g.nodes[inum := node]);
    JoinNode(g, inum, node);
    FreshIf(g);
    MetaExtends(g, g1, i, c);
  }

  lemma NewNode(g: Image, inum: nat, node: Node, files: map<nat, seq<Byte>>)
    requires Good(g, files) && inum !in g.nodes && inum < REACH && NodeFits(node) && node.size == 0
    requires forall i :: 0 <= i < |node.addrs| ==> node.addrs[i] == 0
    ensures DiskOk(g.disk) &&
            Good(g.(disk := PutNode(g.disk, inum, node), nodes := g.nodes[inum := node]), files[inum := []])
  {
    hide ImageOk, PtrOf, NodeAt, PutNode, Extends, NodeFits, Stored;
    var g1 := g.(nodes := g.nodes[inum := node]);
    FreshIf(g);
    FitsLength(node);
    JoinNode(g, inum, node);
    assert g1.nodes[inum].(size := 0) == node;
    FlushKeeps(g1, inum, 0);
    FlushStores(g1, inum, []);
    forall i | i in files ensures Stored(g1, i, files[i]) {
      JoinKeeps(g, inum, node, i, files[i]);
    }
    var g' := Flushed(g1, inum, 0);
    assert g' == g.(disk := PutNode(g.disk, inum, node), nodes := g.nodes[inum := node]);
  }

  lemma FitsLength(node: Node)
    requires NodeFits(node)
    ensures |node.addrs| == NDIRECT + 2
  {
  }

  /** With blocks from `free` on unused, a file of `a` bytes can be extended to `z` bytes. */
  predicate Room(free: nat, a: nat, z: nat) {
    Blocks(z) <= MAXFILE && free + Extent(Blocks(z)) - Extent(Blocks(a)) <= FSSIZE
  }

  lemma LastFits(g: Image, inum: nat, c: seq<Byte>)
    requires ImageOk(g) && inum in g.nodes && Extends(g, inum, c)
    ensures Blocks(|c|) <= MAXFILE && g.free <= FSSIZE
  {
    FreshIf(g);
  }

  /** The in-memory pointers of the inode hold `c`. */
  ghost predicate Extends(g: Image, i: nat, c: seq<Byte>)
    requires ImageOk(g) && i in g.nodes
  {
    Present(g, i, Blocks(|c|)) && Bytes(g, i, Blocks(|c|), c)
  }

  predicate SameHead(a: Node, b: Node) { a.head0 == b.head0 && a.head1 == b.head1 }

  lemma KeptTrans(g: Image, g1: Image, g2: Image, inum: nat)
    requires Kept(g, g1, inum) && Kept(g1, g2, inum)
    ensures Kept(g, g2, inum)
  {
    hide ImageOk, Stored;
  }

  lemma PieceBlocks(a: nat, p: nat)
    requires 0 < p <= (a / BSIZE + 1) * BSIZE - a
    ensures Blocks(a + p) == a / BSIZE + 1 && Blocks(a) - 1 <= a / BSIZE <= Blocks(a) && a <= Blocks(a) * BSIZE
  {
  }

  lemma LastBlock(g: Image, inum: nat, f: nat)
    requires ImageOk(g) && inum in g.nodes && f < MAXFILE && Present(g, inum, f + 1)
    ensures 0 < PtrOf(g, inum, Data(f)) < FSSIZE && DiskOk(g.disk)
  {
    hide PtrOf, ImageOk;
    PtrRange(g, inum, Data(f));
  }

  /** Longer files need at least as many blocks. */
  lemma MoreBlocks(a: nat, b: nat, z: nat)
    requires a <= b <= z
    ensures Blocks(b) <= Blocks(z) && Extent(Blocks(b)) <= Extent(Blocks(z))
    ensures b < z ==> b / BSIZE < Blocks(z)
  {
  }

  lemma StoredFacts(g: Image, i: nat, c: seq<Byte>)
    requires ImageOk(g) && Stored(g, i, c)
    ensures i in g.nodes && i < REACH && DiskOk(g.disk) && NodeAt(g.disk, i) == g.nodes[i] && g.nodes[i].size == |c|
    ensures Extends(g, i, c) && Blocks(|c|) <= MAXFILE && g.free <= FSSIZE && Kept(g, g, i) && NodeFits(g.nodes[i])
  {
    FreshIf(g);
  }

  /** A change to metadata blocks alone moves no pointer and no byte of any file. */
  lemma MetaOk(g: Image, g': Image)
    requires ImageOk(g) && DiskOk(g'.disk) && g'.free == g.free && g'.owner == g.owner && g'.nodes.Keys == g.nodes.Keys
    requires forall b :: NMETA <= b < FSSIZE ==> g'.disk[b] == g.disk[b]
    requires forall i :: i in g.nodes ==> g'.nodes[i].addrs == g.nodes[i].addrs
    ensures ImageOk(g')
    ensures forall i, s :: i in g.nodes && SlotOk(s) ==> PtrOf(g', i, s) == PtrOf(g, i, s)
  {
    hide Ptr, ZeroBlock;
    forall i | i in g.nodes
      ensures Owns(g'.disk, g.free, g.owner, i, g.nodes[i].addrs)
      ensures forall s :: SlotOk(s) ==> Ptr(g'.disk, g.nodes[i].addrs, s) == Ptr(g.disk, g.nodes[i].addrs, s)
    {
      OwnsFrame(g.disk, g'.disk, g.free, g.free, g.owner, g.owner, i, g.nodes[i].addrs);
    }
    forall b | NMETA <= b < g.free ensures Serves(g'.disk, g.owner, g'.nodes, b) {
      assert Serves(g.disk, g.owner, g.nodes, b);
    }
  }

  lemma MetaExtends(g: Image, g': Image, i: nat, c: seq<Byte>)
    requires ImageOk(g) && ImageOk(g') && i in g.nodes && i in g'.nodes && Extends(g, i, c)
    requires forall s :: SlotOk(s) ==> PtrOf(g', i, s) == PtrOf(g, i, s)
    requires forall b :: NMETA <= b < FSSIZE ==> DiskOk(g'.disk) && DiskOk(g.disk) && g'.disk[b] == g.disk[b]
    ensures Extends(g', i, c)
  {
    hide PtrOf, ImageOk;
    var n := Blocks(|c|);
    forall k | 0 <= k < n * BSIZE ensures ByteAt(g', i, k) == ByteAt(g, i, k) {
      if PtrOf(g, i, Data(k / BSIZE)) != 0 { PtrRange(g, i, Data(k / BSIZE)); }
    }
  }

  /** The image with the in-memory inode, now of size `size`, written to its place. */
  ghost function Flushed(g: Image, inum: nat, size: nat): Image
    requires ImageOk(g) && inum in g.nodes && inum < REACH && |g.nodes[inum].addrs| == NDIRECT + 2
  {
    var node := g.nodes[inum].(size := size);
    g.(disk := PutNode(g.disk, inum, node), nodes := g.nodes[inum := node])
  }

  lemma FlushOk(g: Image, inum: nat, size: nat)
    requires ImageOk(g) && inum in g.nodes && inum < REACH && |g.nodes[inum].addrs| == NDIRECT + 2
    ensures ImageOk(Flushed(g, inum, size)) &&
            forall b :: NMETA <= b < FSSIZE ==> Flushed(g, inum, size).disk[b] == g.disk[b]
    ensures forall i, s :: i in g.nodes && SlotOk(s) ==> PtrOf(Flushed(g, inum, size), i, s) == PtrOf(g, i, s)
  {
    hide PtrOf, Ptr, PutNode;
    InodeFits(inum);
    MetaOk(g, Flushed(g, inum, size));
  }

  lemma FlushKeeps(g: Image, inum: nat, size: nat)
    requires ImageOk(g) && inum in g.nodes && inum < REACH && NodeFits(g.nodes[inum].(size := size))
    ensures Kept(g, Flushed(g, inum, size), inum)
  {
    hide ImageOk, PtrOf, NodeAt, PutNode, Present, Bytes;
    var g' := Flushed(g, inum, size);
    FlushOk(g, inum, size);
    FreshIf(g);
    FreshIf(g');
    forall i, c | i != inum && Stored(g, i, c) ensures Stored(g', i, c) {
      NodeRoundTrip(g.disk, inum, g.nodes[inum].(size := size), i);
      MetaExtends(g, g', i, c);
    }
  }

  lemma FlushStores(g: Image, inum: nat, c: seq<Byte>)
    requires ImageOk(g) && inum in g.nodes && inum < REACH && NodeFits(g.nodes[inum].(size := |c|)) &&
             Extends(g, inum, c)
    ensures ImageOk(Flushed(g, inum, |c|)) && Stored(Flushed(g, inum, |c|), inum, c)
  {
    hide ImageOk, PtrOf, NodeAt, PutNode, Present, Bytes;
    var g' := Flushed(g, inum, |c|);
    FlushOk(g, inum, |c|);
    FreshIf(g);
    FreshIf(g');
    NodeRoundTrip(g.disk, inum, g.nodes[inum].(size := |c|), inum);
    MetaExtends(g, g', inum, c);
  }

  /** The words of the in-memory inode fit their fields. */
  lemma WordsFit(g: Image, inum: nat, size: nat)
    requires ImageOk(g) && inum in g.nodes && size <= MAXFILE * BSIZE
    requires g.nodes[inum].head0 < UINT32 && g.nodes[inum].head1 < UINT32
    ensures NodeFits(g.nodes[inum].(size := size))
  {
    hide PtrOf, ImageOk;
    forall i | 0 <= i < NDIRECT + 2 ensures |g.nodes[inum].addrs| == NDIRECT + 2 && g.nodes[inum].addrs[i] < UINT32 {
      var s := if i < NDIRECT then Data(i) else if i == NDIRECT then Ind else Dind;
      PtrOfTop(g, inum, s);
      if PtrOf(g, inum, s) != 0 { PtrRange(g, inum, s); }
    }
    assert |g.nodes[inum].addrs| == NDIRECT + 2 by { PtrOfTop(g, inum, Ind); }
    var node := g.nodes[inum].(size := size);
    forall i | 0 <= i < |NodeWords(node)| ensures NodeWords(node)[i] < UINT32 {
      if i >= 3 { assert NodeWords(node)[i] == node.addrs[i - 3]; }
    }
  }

  /** Writing the inode back makes what is in memory what is on disk. */
  lemma WriteBack(g0: Image, g: Image, inum: nat, c: seq<Byte>)
    requires Kept(g0, g, inum) && inum in g.nodes && Extends(g, inum, c) && inum < REACH
    requires NodeFits(g0.nodes[inum]) && g.nodes[inum].(addrs := []) == g0.nodes[inum].(addrs := [])
    ensures DiskOk(g.disk) && |g.nodes[inum].addrs| == NDIRECT + 2
    ensures var g' := Flushed(g, inum, |c|);
            Kept(g0, g', inum) && Stored(g', inum, c)
  {
    hide ImageOk, Stored, Flushed, Extends;
    FreshIf(g);
    SizeFits(g, inum, c);
    assert NodeWords(g0.nodes[inum])[0] < UINT32 && NodeWords(g0.nodes[inum])[1] < UINT32;
    WordsFit(g, inum, |c|);
    FlushKeeps(g, inum, |c|);
    FlushStores(g, inum, c);
    KeptTrans(g0, g, Flushed(g, inum, |c|), inum);
  }

  lemma SizeFits(g: Image, inum: nat, c: seq<Byte>)
    requires ImageOk(g) && inum in g.nodes && Extends(g, inum, c)
    ensures |c| <= MAXFILE * BSIZE
  {
    hide ImageOk, PtrOf;
  }

  /** The image holds exactly these files. */
  ghost predicate Good(g: Image, files: map<nat, seq<Byte>>) {
    ImageOk(g) && g.nodes.Keys == files.Keys && forall i :: i in files ==> Stored(g, i, files[i])
  }

  lemma GoodStep(g: Image, g': Image, files: map<nat, seq<Byte>>, inum: nat, c: seq<Byte>)
    requires Good(g, files) && Kept(g, g', inum) && inum in files && Stored(g', inum, c)
    ensures Good(g', files[inum := c])
  {
    hide ImageOk, Stored;
  }

  /** Filling an entry of an index block leaves the inode itself alone. */
  lemma EntryKeepsAddrs(g: Image, inum: nat, s: Slot)
    requires ImageOk(g) && inum in g.nodes && Reachable(g, inum, s) && !Top(s)
    ensures inum in Fill(g, inum, s).nodes && Fill(g, inum, s).nodes[inum].addrs == g.nodes[inum].addrs
  {
  }

  lemma PtrOfTop(g: Image, inum: nat, s: Slot)
    requires ImageOk(g) && inum in g.nodes && SlotOk(s) && Top(s)
    ensures |g.nodes[inum].addrs| == NDIRECT + 2 && PtrOf(g, inum, s) == g.nodes[inum].addrs[Idx(s)]
  {
    assert Owns(g.disk, g.free, g.owner, inum, g.nodes[inum].addrs);
  }

  lemma PtrOfBelow(g: Image, inum: nat, s: Slot)
    requires ImageOk(g) && inum in g.nodes && SlotOk(s) && !Top(s) && PtrOf(g, inum, Parent(s)) != 0
    ensures var b := PtrOf(g, inum, Parent(s));
            DiskOk(g.disk) && 0 < b < FSSIZE && PtrOf(g, inum, s) == GetU32(g.disk[b], 4 * Idx(s))
  {
    PtrRange(g, inum, Parent(s));
    Below(g.disk, g.nodes[inum].addrs, s);
  }

  class Builder {
    var disk: Disk
    var freeblock: nat
    var freeinode: nat
    ghost var owner: Owners
    ghost var nodes: Nodes
    ghost var files: map<nat, seq<Byte>>

    ghost function St(): Image
      reads this
    {
      Image(disk, freeblock, owner, nodes)
    }

    /** `if (addrs[i] == 0) addrs[i] = allocblock()`: the pointers in the inode itself. */
    method FillTop(inum: nat, addrs: seq<nat>, i: nat, ghost s: Slot) returns (ok: bool, addrs': seq<nat>)
      requires ImageOk(St()) && inum in nodes && addrs == nodes[inum].addrs && SlotOk(s) && Top(s) && Idx(s) == i
      modifies this
      ensures freeinode == old(freeinode) && files == old(files) &&
              ok == (PtrOf(old(St()), inum, s) != 0 || old(freeblock) < FSSIZE)
      ensures ok ==> St() == Fill(old(St()), inum, s) && inum in nodes && addrs' == nodes[inum].addrs
      ensures !ok ==> St() == old(St())
    {
      hide Tree;
      PtrOfTop(St(), inum, s);
      ok, addrs' := true, addrs;
      if addrs[i] == 0 {
        if freeblock >= FSSIZE {
          return false, addrs;
        }
        addrs' := addrs[i := freeblock];
        owner := owner[freeblock := Role(inum, s)];
        nodes := nodes[inum := nodes[inum].(addrs := addrs')];
        freeblock := freeblock + 1;
      }
    }

    /** The same for a pointer in index block `b`, which is read and written back. */
    method FillEntry(inum: nat, b: nat, i: nat, ghost s: Slot) returns (ok: bool, x: nat)
      requires ImageOk(St()) && inum in nodes && SlotOk(s) && !Top(s) && Idx(s) == i &&
               b == PtrOf(St(), inum, Parent(s)) != 0
      modifies this
      ensures freeinode == old(freeinode) && files == old(files) &&
              ok == (PtrOf(old(St()), inum, s) != 0 || old(freeblock) < FSSIZE)
      ensures ok ==>
                St() == Fill(old(St()), inum, s) &&
                x == if PtrOf(old(St()), inum, s) != 0 then PtrOf(old(St()), inum, s) else old(freeblock)
      ensures !ok ==> St() == old(St())
    {
      hide Tree, GetU32, PutU32;
      PtrOfBelow(St(), inum, s);
      ok := true;
      x := GetU32(disk[b], 4 * i);
      if x == 0 {
        if freeblock >= FSSIZE {
          return false, 0;
        }
        x := freeblock;
        disk := disk[b := PutU32(disk[b], 4 * i, x)];
        owner := owner[freeblock := Role(inum, s)];
        freeblock := freeblock + 1;
        assert nodes[inum := nodes[inum].(addrs := nodes[inum].addrs)] == nodes;
      }
    }

    /** The block that holds byte `f * BSIZE` of the file, allocated with the index blocks on the
        way to it if the file ends there. */
    method BlockFor(inum: nat, addrs: seq<nat>, f: nat, ghost n: nat, ghost c: seq<Byte>)
      returns (ok: bool, addrs': seq<nat>, x: nat)
      requires CanGrow(St(), inum, n, f, c) && addrs == nodes[inum].addrs
      modifies this
      ensures freeinode == old(freeinode) && files == old(files) &&
              ok == (old(freeblock) + Extent(f + 1) - Extent(n) <= FSSIZE)
      ensures ok ==>
                Grown(old(St()), St(), inum, n, f, c) && addrs' == nodes[inum].addrs && x == PtrOf(St(), inum, Data(f))
    {
      hide PtrOf, ImageOk, Bytes, Stored, Fill, Extent, GetU32;
      addrs', x := addrs, 0;
      ExtentStep(n);
      FreshIf(St());
      if f < NDIRECT {
        ok, addrs' := FillTop(inum, addrs, f, Data(f));
        if ok {
          GrowDirect(old(St()), inum, n, f, c);
          PtrOfTop(St(), inum, Data(f));
          x := addrs'[f];
        }
      } else if f < NDIRECT + NINDIRECT {
        ok, addrs', x := BlockIndirect(inum, addrs, f, n, c);
      } else {
        ok, addrs', x := BlockDouble(inum, addrs, f, n, c);
      }
    }

    method BlockIndirect(inum: nat, addrs: seq<nat>, f: nat, ghost n: nat, ghost c: seq<Byte>)
      returns (ok: bool, addrs': seq<nat>, x: nat)
      requires CanGrow(St(), inum, n, f, c) && addrs == nodes[inum].addrs && NDIRECT <= f < NDIRECT + NINDIRECT
      modifies this
      ensures freeinode == old(freeinode) && files == old(files) &&
              ok == (old(freeblock) + Extent(f + 1) - Extent(n) <= FSSIZE)
      ensures ok ==>
                Grown(old(St()), St(), inum, n, f, c) && addrs' == nodes[inum].addrs && x == PtrOf(St(), inum, Data(f))
    {
      hide PtrOf, ImageOk, Bytes, Kept, Fill, Extent;
      addrs', x := addrs, 0;
      ExtentStep(n);
      FreshIf(St());
      ok, addrs' := FillTop(inum, addrs, NDIRECT, Ind);
      if !ok { return; }
      ghost var g1 := St();
      FillPresent(old(St()), inum, Ind, n);
      FillPtr(old(St()), inum, Ind, inum, Data(f));
      PtrOfTop(g1, inum, Ind);
      ok, x := FillEntry(inum, addrs'[NDIRECT], f - NDIRECT, Data(f));
      if !ok { return; }
      GrowIndirect(old(St()), g1, inum, n, f, c);
      FillPtr(g1, inum, Data(f), inum, Data(f));
      EntryKeepsAddrs(g1, inum, Data(f));
    }

    method BlockDouble(inum: nat, addrs: seq<nat>, f: nat, ghost n: nat, ghost c: seq<Byte>)
      returns (ok: bool, addrs': seq<nat>, x: nat)
      requires CanGrow(St(), inum, n, f, c) && addrs == nodes[inum].addrs && NDIRECT + NINDIRECT <= f
      modifies this
      ensures freeinode == old(freeinode) && files == old(files) &&
              ok == (old(freeblock) + Extent(f + 1) - Extent(n) <= FSSIZE)
      ensures ok ==>
                Grown(old(St()), St(), inum, n, f, c) && addrs' == nodes[inum].addrs && x == PtrOf(St(), inum, Data(f))
    {
      hide PtrOf, ImageOk, Bytes, Kept, Fill, Extent;
      addrs', x := addrs, 0;
      ExtentStep(n);
      FreshIf(St());
      var i1 := (f - NDIRECT - NINDIRECT) / NINDIRECT;
      var i2 := (f - NDIRECT - NINDIRECT) % NINDIRECT;
      ok, addrs' := FillTop(inum, addrs, NDIRECT + 1, Dind);
      if !ok { return; }
      ghost var g1 := St();
      FillPresent(old(St()), inum, Dind, n);
      PtrOfTop(g1, inum, Dind);
      var b;
      ok, b := FillEntry(inum, addrs'[NDIRECT + 1], i1, Ind2(i1));
      if !ok { return; }
      ghost var g2 := St();
      FillPresent(g1, inum, Ind2(i1), n);
      FillPtr(g1, inum, Ind2(i1), inum, Ind2(i1));
      EntryKeepsAddrs(g1, inum, Ind2(i1));
      ok, x := FillEntry(inum, b, i2, Data(f));
      if !ok { return; }
      GrowDouble(old(St()), g1, g2, inum, n, f, c);
      FillPtr(g2, inum, Data(f), inum, Data(f));
      EntryKeepsAddrs(g2, inum, Data(f));
    }

    ghost predicate Valid()
      reads this
    {
      Good(St(), files) && 1 <= freeinode <= REACH && forall i :: i in nodes <==> 1 <= i < freeinode
    }

    /** One turn of the loop of `iappend`: the rest of the last block, or a new one. */
    method AppendPiece(inum: nat, addrs: seq<nat>, off: nat, p: seq<Byte>, ghost c: seq<Byte>)
      returns (ok: bool, addrs': seq<nat>)
      requires ImageOk(St()) && inum in nodes && addrs == nodes[inum].addrs && off == |c| && Extends(St(), inum, c)
      requires off / BSIZE < MAXFILE && 0 < |p| <= (off / BSIZE + 1) * BSIZE - off
      modifies this
      ensures freeinode == old(freeinode) && files == old(files)
      ensures ok == (old(freeblock) + Extent(Blocks(|c + p|)) - Extent(Blocks(|c|)) <= FSSIZE)
      ensures ok ==>
                Kept(old(St()), St(), inum) && inum in nodes && addrs' == nodes[inum].addrs &&
                Extends(St(), inum, c + p)
      ensures ok ==> freeblock == old(freeblock) + Extent(Blocks(|c + p|)) - Extent(Blocks(|c|))
      ensures ok ==> nodes[inum].(addrs := []) == old(nodes[inum].(addrs := []))
    {
      hide PtrOf, ImageOk, Bytes, Stored, Extent, Present;
      var f := off / BSIZE;
      var x;
      PieceBlocks(|c|, |p|);
      ok, addrs', x := BlockFor(inum, addrs, f, Blocks(|c|), c);
      if !ok { return; }
      ghost var g1 := St();
      LastBlock(g1, inum, f);
      var data := disk[x];
      WriteAppends(g1, inum, c, p, data);
      disk := disk[x := CopyOver(data, off % BSIZE, p)];
      assert St() == Write(g1, inum, f, CopyOver(data, |c| % BSIZE, p));
    }

    /** The loop of `iappend`, on the inode in memory. */
    method AppendLoop(inum: nat, addrs0: seq<nat>, off0: nat, p: seq<Byte>, ghost c0: seq<Byte>)
      returns (ok: bool, addrs: seq<nat>, off: nat)
      requires ImageOk(St()) && inum in nodes && addrs0 == nodes[inum].addrs && off0 == |c0| && Extends(St(), inum, c0)
      modifies this
      ensures freeinode == old(freeinode) && files == old(files) && ok == Room(old(freeblock), |c0|, |c0 + p|)
      ensures ok ==> Kept(old(St()), St(), inum) && inum in nodes && addrs == nodes[inum].addrs && off == |c0 + p|
      ensures ok ==> Extends(St(), inum, c0 + p) && nodes[inum].(addrs := []) == old(nodes[inum].(addrs := []))
      ensures ok ==> freeblock == old(freeblock) + Extent(Blocks(|c0 + p|)) - Extent(Blocks(|c0|))
    {
      hide ImageOk, Extends, Extent, Blocks, Stored;
      addrs, off := addrs0, off0;
      var rest := p;
      ghost var c := c0;
      FreshIf(St());
      while |rest| > 0
        invariant Kept(old(St()), St(), inum) && inum in nodes && addrs == nodes[inum].addrs
        invariant off == |c| && c + rest == c0 + p && |c0| <= |c|
        invariant freeinode == old(freeinode) && files == old(files) && Extends(St(), inum, c)
        invariant freeblock == old(freeblock) + Extent(Blocks(|c|)) - Extent(Blocks(|c0|)) && freeblock <= FSSIZE
        invariant nodes[inum].(addrs := []) == old(nodes[inum].(addrs := []))
      {
        var f := off / BSIZE;
        MoreBlocks(|c0|, |c|, |c0 + p|);
        if f >= MAXFILE { return false, addrs, off; }
        var n1 := if |rest| < (f + 1) * BSIZE - off then |rest| else (f + 1) * BSIZE - off;
        var piece := rest[..n1];
        MoreBlocks(|c0|, |c + piece|, |c0 + p|);
        ghost var g1 := St();
        ok, addrs := AppendPiece(inum, addrs, off, piece, c);
        if !ok { return; }
        KeptTrans(old(St()), g1, St(), inum);
        FreshIf(St());
        assert c + piece + rest[n1..] == c + rest;
        c := c + piece;
        off, rest := off + n1, rest[n1..];
      }
      ok := true;
      assert c == c0 + p;
      LastFits(St(), inum, c);
    }

    /** Appends `p` to a file: it succeeds just when there are blocks for it, and then the file is
        its old contents followed by `p` and no other file is changed. */
    method Iappend(inum: nat, p: seq<Byte>) returns (ok: bool)
      requires Valid() && inum in nodes
      modifies this
      ensures freeinode == old(freeinode)
      ensures ok == Room(old(freeblock), |old(files[inum])|, |old(files[inum]) + p|)
      ensures ok ==> Valid() && files == old(files)[inum := old(files[inum]) + p]
      ensures ok ==> freeblock == old(freeblock) + Extent(Blocks(|files[inum]|)) - Extent(Blocks(|old(files[inum])|))
      ensures ok ==> forall i :: i in nodes ==> SameHead(nodes[i], old(nodes)[i])
    {
      hide ImageOk, NodeAt, PutNode, Extends, Extent, Blocks, Stored, NodeFits, Room;
      ghost var c := files[inum];
      StoredFacts(St(), inum, c);
      var din := NodeAt(disk, inum);
      var addrs, off;
      ok, addrs, off := AppendLoop(inum, din.addrs, din.size, p, c);
      if ok {
        WriteBack(old(St()), St(), inum, c + p);
        GoodStep(old(St()), Flushed(St(), inum, |c + p|), old(files), inum, c + p);
        disk := PutNode(disk, inum, Node(din.head0, din.head1, off, addrs));
        nodes := nodes[inum := nodes[inum].(size := off)];
        files := files[inum := c + p];
      }
    }

    /** A zeroed disk with the superblock. */
    constructor ()
      ensures Valid() && files == map[] && freeblock == NMETA && freeinode == 1
      ensures GetWords(disk[1], 0, 8) == [FSMAGIC, FSSIZE, FSSIZE - NMETA, NINODES, NLOG, 2, INODESTART, BMAPSTART]
    {
      hide PutWords, GetWords;
      var sb := [FSMAGIC, FSSIZE, FSSIZE - NMETA, NINODES, NLOG, 2, INODESTART, BMAPSTART];
      disk := seq(FSSIZE, i => if i == 1 then PutWords(ZeroBlock(), 0, sb) else ZeroBlock());
      freeblock, freeinode := NMETA, 1;
      owner, nodes, files := map[], map[], map[];
      GetPutWords(ZeroBlock(), 0, sb);
    }

    /** A new empty inode. */
    method Ialloc(ty: nat, major: nat, minor: nat) returns (inum: nat)
      requires Valid() && freeinode < REACH && ty < 0x1_0000 && major < 0x1_0000 && minor < 0x1_0000
      modifies this
      ensures Valid() && freeblock == old(freeblock)
      ensures inum == old(freeinode) && freeinode == inum + 1 && files == old(files)[inum := []]
      ensures inum in nodes && nodes == old(nodes)[inum := nodes[inum]] && IsHead(nodes[inum], ty, major, minor)
      ensures nodes[inum].size == 0 && forall a :: a in nodes[inum].addrs ==> a == 0
    {
      hide ImageOk, PutNode, Stored, Flushed, EmptyNode, IsHead;
      inum := freeinode;
      var node := EmptyNode(ty, major, minor);
      NewHead(ty, major, minor);
      NewNode(St(), inum, node, files);
      freeinode := freeinode + 1;
      disk := PutNode(disk, inum, node);
      nodes := nodes[inum := node];
      files := files[inum := []];
    }
  }
}
