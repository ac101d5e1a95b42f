/** A whole image: what mkfs writes is what the kernel then finds (tools/mkfs.c, main). */
module FsBuild {
  import opened FsFormat
  import opened FsTree
  import opened FsFile
  import opened FsBitmap
  import opened FsRead
  import opened FsDir
  import opened Mkfs
  import opened MachineWords

  const ROOTINO := 1
  const T_FILE := 2
  const T_DEVICE := 3
  const CONSOLE := 1

  /** A file given on the command line, by the name it gets in the image. */
  datatype Input = Input(name: seq<Byte>, data: seq<Byte>)

  /** A C string copied into a zeroed name field. */
  function NameField(name: seq<Byte>): (f: seq<Byte>)
    requires |name| <= DIRSIZ
    ensures |f| == DIRSIZ
  {
    name + seq(DIRSIZ - |name|, _ => 0)
  }

  const DOT: seq<Byte> := [46]
  const CONSOLENAME: seq<Byte> := [99, 111, 110, 115, 111, 108, 101]

  predicate NamesOk(inputs: seq<Input>) {
    forall i :: 0 <= i < |inputs| ==> |inputs[i].name| <= DIRSIZ && 0 !in inputs[i].name
  }

  /** The root directory: itself, the console, and the files in order. */
  function Entries(inputs: seq<Input>): (es: seq<Dirent>)
    requires NamesOk(inputs)
    ensures |es| == 2 + |inputs|
  {
    [Dirent(ROOTINO, NameField(DOT)), Dirent(2, NameField(CONSOLENAME))] +
    seq(|inputs|, i requires 0 <= i < |inputs| => Dirent(3 + i, NameField(inputs[i].name)))
  }

  /** The kernel finds exactly `c` in inode `inum`. */
  ghost predicate FileOn(disk: Disk, inum: nat, c: seq<Byte>)
    requires DiskOk(disk) && inum < REACH
  {
    var node := NodeAt(disk, inum);
    Readable(disk, node) && node.size == |c| &&
    forall k :: 0 <= k < |c| ==> HasByte(disk, node, k) && ByteOf(disk, node, k) == c[k]
  }

  /** Every read of such a file delivers exactly that slice of it, as far as there is room. */
  lemma ReadExact(disk: Disk, inum: nat, c: seq<Byte>, off: nat, n: nat, room: nat, end: End, r: seq<Byte>)
    requires DiskOk(disk) && inum < REACH && FileOn(disk, inum, c) && off < UINT32 && n < UINT32
    requires Shaped(disk, NodeAt(disk, inum)) && ReadIs(disk, NodeAt(disk, inum), off, n, room, end, r)
    ensures end == (if Clip(|c|, off, n) <= room then Returned else Failed)
    ensures off <= |c| && off + n < UINT32 ==>
              r == c[off..off + if Clip(|c|, off, n) <= room then Clip(|c|, off, n) else room]
    ensures off > |c| || off + n >= UINT32 ==> r == []
  {
    hide NodeAt, ByteOf, Bmap, BlockOf;
    var node := NodeAt(disk, inum);
    assert |r| < Clip(|c|, off, n) ==> HasByte(disk, node, off + |r|);
    ReadableReturns(disk, node, off, n, room, end, r);
    if off <= |c| && off + n < UINT32 {
      forall k | 0 <= k < |r| ensures r[k] == c[off + k] {
        assert HasByte(disk, node, off + k);
        assert r[off + k - off] == ByteOf(disk, node, off + k);
      }
    }
  }

  lemma {:induction false} AllOnDisk(g: Image, i: nat, s: Slot)
    requires ImageOk(g) && i in g.nodes && SlotOk(s) && DiskOk(g.disk) && |g.nodes[i].addrs| == NDIRECT + 2
    ensures OnDisk(g.disk, g.nodes[i].addrs, s) && PtrOf(g, i, s) < FSSIZE
    decreases Depth(s)
  {
    hide Ptr, ImageOk;
    if PtrOf(g, i, s) != 0 { PtrRange(g, i, s); }
    if !Top(s) {
      SlotDeeper(s);
      AllOnDisk(g, i, Parent(s));
    }
  }

  /** Pointers of the image as the kernel sees them. */
  lemma BmapOf(g: Image, i: nat, node: Node, f: nat)
    requires ImageOk(g) && i in g.nodes && f < MAXFILE && node.addrs == g.nodes[i].addrs
    ensures DiskOk(g.disk) && |node.addrs| == NDIRECT + 2 &&
            Bmap(g.disk, node.addrs, f) == Numbered(PtrOf(g, i, Data(f))) && PtrOf(g, i, Data(f)) < FSSIZE
  {
    hide Bmap, Ptr, ImageOk;
    WritePre(g, i);
    FreshIf(g);
    AllOnDisk(g, i, Data(f));
    BmapIsPtr(g.disk, node.addrs, f);
  }

  lemma StoredReads(g: Image, i: nat, c: seq<Byte>)
    requires ImageOk(g) && Stored(g, i, c)
    ensures DiskOk(g.disk) && FileOn(g.disk, i, c)
  {
    hide ImageOk, PtrOf, Bmap, NodeAt;
    FreshIf(g);
    var node := g.nodes[i];
    forall f | 0 <= f < MAXFILE ensures Bmap(g.disk, node.addrs, f) == Numbered(PtrOf(g, i, Data(f))) &&
                                        PtrOf(g, i, Data(f)) < FSSIZE {
      BmapOf(g, i, node, f);
    }
    forall k | 0 <= k < |c| ensures HasByte(g.disk, node, k) && ByteOf(g.disk, node, k) == c[k] {
      assert k / BSIZE < Blocks(|c|);
      assert Has(Blocks(|c|), Data(k / BSIZE));
      assert ByteAt(g, i, k) == Padded(c, k);
    }
  }

  /** A directory inode of any larger size shows its entries, then zeros, then missing blocks. */
  lemma DirShows(g: Image, i: nat, es: seq<Dirent>)
    requires ImageOk(g) && i in g.nodes && AllOk(es) && Extends(g, i, Encode(es))
    requires DESIZE * |es| <= g.nodes[i].size <= MAXFILE * BSIZE && g.nodes[i].size % DESIZE == 0
    ensures ShowsDir(g.disk, g.nodes[i], es, Blocks(DESIZE * |es|))
  {
    hide ImageOk, PtrOf, Bmap, Encode;
    FreshIf(g);
    var node, n := g.nodes[i], Blocks(DESIZE * |es|);
    assert |node.addrs| == NDIRECT + 2 by { BmapOf(g, i, node, 0); }
    forall f | 0 <= f < MAXFILE
      ensures Bmap(g.disk, node.addrs, f) == Numbered(PtrOf(g, i, Data(f))) && PtrOf(g, i, Data(f)) < FSSIZE
      ensures PtrOf(g, i, Data(f)) != 0 <==> f < n
    {
      BmapOf(g, i, node, f);
      assert Has(n, Data(f)) <==> f < n;
    }
    forall k | 0 <= k < n * BSIZE && k < node.size ensures ByteOf(g.disk, node, k) == Padded(Encode(es), k) {
      assert k / BSIZE < n;
      assert ByteAt(g, i, k) == Padded(Encode(es), k);
    }
  }

  /** Rewriting the bitmap blocks leaves alone every file whose inode is not there. */
  lemma BitmapKeeps(g: Image, d: Disk)
    requires ImageOk(g) && DiskOk(d)
    requires forall b ::
               0 <= b < FSSIZE && !(BMAPSTART <= b < BMAPSTART + NBITMAP) ==> b < |g.disk| && d[b] == g.disk[b]
    ensures ImageOk(g.(disk := d))
    ensures forall i: nat, c :: i < IMAX && Stored(g, i, c) ==> Stored(g.(disk := d), i, c)
    ensures forall i, c :: i in g.nodes && Extends(g, i, c) ==> Extends(g.(disk := d), i, c)
    ensures forall i :: 0 <= i < IMAX ==> DiskOk(g.disk) && NodeAt(d, i) == NodeAt(g.disk, i)
  {
    hide ImageOk, PtrOf, NodeAt, NodeFits, Bytes, Present;
    var g' := g.(disk := d);
    FreshIf(g);
    MetaOk(g, g');
    forall i, c | i in g.nodes && Extends(g, i, c) ensures Extends(g', i, c) {
      MetaExtends(g, g', i, c);
    }
    forall i | 0 <= i < IMAX ensures NodeAt(d, i) == NodeAt(g.disk, i) {
      InodeFits(i);
      SameNode(g.disk, d, i);
    }
    forall i: nat, c | i < IMAX && Stored(g, i, c) ensures Stored(g', i, c) {
      assert Extends(g, i, c);
      assert NodeAt(d, i) == NodeAt(g.disk, i);
    }
  }

  /** The size the root directory gets at the end. */
  function RoundUp(size: nat): nat { (size / BSIZE + 1) * BSIZE }

  /** With the root's size rounded up and the bitmap written, the files are all there and the
      root directory shows its entries. */
  lemma Finished(g: Image, files: map<nat, seq<Byte>>, es: seq<Dirent>, d: Disk)
    requires Good(g, files) && ROOTINO in files && AllOk(es) && files[ROOTINO] == Encode(es) &&
             DESIZE * |es| < 100 * BSIZE
    requires DiskOk(d) && |g.nodes[ROOTINO].addrs| == NDIRECT + 2
    requires var g1 := Flushed(g, ROOTINO, RoundUp(DESIZE * |es|));
             forall b ::
               0 <= b < FSSIZE && !(BMAPSTART <= b < BMAPSTART + NBITMAP) ==> b < |g1.disk| && d[b] == g1.disk[b]
    ensures forall i :: i in files && i != ROOTINO && i < IMAX ==> FileOn(d, i, files[i])
    ensures var node := g.nodes[ROOTINO].(size := RoundUp(DESIZE * |es|));
            NodeAt(d, ROOTINO) == node && ShowsDir(d, node, es, Blocks(DESIZE * |es|)) &&
            Tree(d, g.free, g.owner, g.nodes[ROOTINO := node])
    ensures forall i :: i in g.nodes && i != ROOTINO && i < IMAX ==> NodeAt(d, i) == g.nodes[i]
  {
    hide ImageOk, PtrOf, NodeAt, Bytes, Present, PutNode, Encode, ShowsDir, FileOn, NodeFits;
    var size := RoundUp(DESIZE * |es|);
    var g1 := Flushed(g, ROOTINO, size);
    StoredFacts(g, ROOTINO, Encode(es));
    Heads(g.nodes[ROOTINO]);
    WordsFit(g, ROOTINO, size);
    FlushOk(g, ROOTINO, size);
    FlushKeeps(g, ROOTINO, size);
    FreshIf(g);
    FreshIf(g1);
    NodeRoundTrip(g.disk, ROOTINO, g.nodes[ROOTINO].(size := size), ROOTINO);
    MetaExtends(g, g1, ROOTINO, Encode(es));
    BitmapKeeps(g1, d);
    DirShows(g1.(disk := d), ROOTINO, es);
    assert ImageOk(g1.(disk := d));
    ImageIsTree(g1.(disk := d));
    forall i | i in files && i != ROOTINO && i < IMAX ensures FileOn(d, i, files[i]) && NodeAt(d, i) == g.nodes[i] {
      assert Stored(g, i, files[i]);
      StoredReads(g1.(disk := d), i, files[i]);
    }
  }

  lemma ImageIsTree(g: Image)
    requires ImageOk(g)
    ensures Tree(g.disk, g.free, g.owner, g.nodes)
  {
    hide Tree;
  }

  lemma Heads(node: Node)
    requires NodeFits(node)
    ensures node.head0 < UINT32 && node.head1 < UINT32
  {
    assert NodeWords(node)[0] == node.head0 && NodeWords(node)[1] == node.head1;
  }

  /** Blocks the contents of the files take. */
  function DataExtent(inputs: seq<Input>): nat {
    if inputs == [] then 0 else DataExtent(inputs[..|inputs| - 1]) + Extent(Blocks(|inputs[|inputs| - 1].data|))
  }

  /** The first free block of an image of these files. */
  function Cost(inputs: seq<Input>): nat { NMETA + Extent(Blocks(DESIZE * (2 + |inputs|))) + DataExtent(inputs) }

  /** The files are not too long and there are blocks for all of them. */
  ghost predicate Fits(inputs: seq<Input>) {
    Cost(inputs) <= FSSIZE && forall i :: 0 <= i < |inputs| ==> Blocks(|inputs[i].data|) <= MAXFILE
  }

  lemma DataExtentAdd(inputs: seq<Input>, file: Input)
    ensures DataExtent(inputs + [file]) == DataExtent(inputs) + Extent(Blocks(|file.data|))
  {
    assert (inputs + [file])[..|inputs|] == inputs;
  }

  lemma FitsAdd(inputs: seq<Input>, file: Input)
    requires Fits(inputs)
    ensures var n := |inputs|;
            Cost(inputs + [file]) ==
              Cost(inputs) + Extent(Blocks(DESIZE * (2 + n + 1))) - Extent(Blocks(DESIZE * (2 + n)))
              + Extent(Blocks(|file.data|))
    ensures Fits(inputs + [file]) <==> Cost(inputs + [file]) <= FSSIZE && Blocks(|file.data|) <= MAXFILE
  {
    hide Extent, DataExtent, Blocks;
    DataExtentAdd(inputs, file);
    assert (inputs + [file])[|inputs|] == file;
  }

  lemma {:induction false} FitsPrefix(inputs: seq<Input>, n: nat)
    requires Fits(inputs) && n <= |inputs|
    ensures Fits(inputs[..n])
    decreases |inputs|
  {
    if n < |inputs| {
      var m := |inputs| - 1;
      MoreBlocks(DESIZE * (2 + m), DESIZE * (2 + m), DESIZE * (2 + |inputs|));
      FitsPrefix(inputs[..m], n);
      assert inputs[..m][..n] == inputs[..n];
    } else {
      assert inputs[..n] == inputs;
    }
  }

  lemma Keys(m: Builder)
    requires m.Valid()
    ensures m.nodes.Keys == m.files.Keys && forall i :: i in m.nodes <==> 1 <= i < m.freeinode
  {
  }

  lemma HeadsSame(nodes: Nodes)
    ensures forall i :: i in nodes ==> SameHead(nodes[i], nodes[i])
  {
  }

  lemma HeadsTrans(a: Nodes, b: Nodes, c: Nodes)
    requires a.Keys == b.Keys == c.Keys
    requires (forall i :: i in b ==> SameHead(b[i], a[i])) && forall i :: i in c ==> SameHead(c[i], b[i])
    ensures forall i :: i in c ==> SameHead(c[i], a[i])
  {
  }

  /** Appends a file read in block-sized pieces. */
  method AppendFile(m: Builder, inum: nat, data: seq<Byte>) returns (ok: bool)
    requires m.Valid() && inum in m.nodes && m.freeblock <= FSSIZE && Blocks(|m.files[inum]|) <= MAXFILE
    modifies m
    ensures ok == Room(old(m.freeblock), |old(m.files[inum])|, |old(m.files[inum])| + |data|)
    ensures ok ==>
              m.Valid() && m.files == old(m.files)[inum := old(m.files[inum]) + data] && m.freeinode == old(m.freeinode)
    ensures ok ==>
              m.freeblock ==
                old(m.freeblock) + Extent(Blocks(|old(m.files[inum])| + |data|)) - Extent(Blocks(|old(m.files[inum])|))
    ensures ok ==> forall i :: i in m.nodes ==> SameHead(m.nodes[i], old(m.nodes)[i])
  {
    hide Stored, ImageOk, Extent, Blocks, Good, SameHead;
    Keys(m);
    HeadsSame(m.nodes);
    var rest := data;
    ghost var c0, c := m.files[inum], m.files[inum];
    ghost var z := |c0| + |data|;
    while |rest| > 0
      invariant m.Valid() && m.freeinode == old(m.freeinode) && inum in m.nodes
      invariant c + rest == c0 + data && |c| <= z && |c0| <= |c| && m.files == old(m.files)[inum := c]
      invariant m.freeblock == old(m.freeblock) + Extent(Blocks(|c|)) - Extent(Blocks(|c0|)) <= FSSIZE &&
                Blocks(|c|) <= MAXFILE
      invariant forall i :: i in m.nodes ==> SameHead(m.nodes[i], old(m.nodes)[i])
      decreases |rest|
    {
      var cc := if |rest| < BSIZE then |rest| else BSIZE;
      var piece := rest[..cc];
      assert |c + rest| == z && |c + piece| <= z;
      MoreBlocks(|c0|, |c + piece|, z);
      ghost var nodes1 := m.nodes;
      Keys(m);
      ok := m.Iappend(inum, piece);
      if !ok { return; }
      Keys(m);
      HeadsTrans(old(m.nodes), nodes1, m.nodes);
      assert c + piece + rest[cc..] == c + rest;
      c := c + piece;
      rest := rest[cc..];
    }
    assert c == c0 + data;
    ok := true;
  }

  /** One call of the builder: a new inode, or bytes appended to one. */
  datatype Step = New(ty: nat, major: nat, minor: nat) | Append(inum: nat, data: seq<Byte>)

  /** The number of inodes made. */
  function Inodes(steps: seq<Step>): nat {
    if steps == [] then 0 else Inodes(steps[..|steps| - 1]) + if steps[|steps| - 1].New? then 1 else 0
  }

  /** Fields are of their C types, inodes are made before they are appended to, and there is a place for
      each. */
  predicate StepsOk(steps: seq<Step>) {
    steps == [] ||
    (StepsOk(steps[..|steps| - 1]) && Inodes(steps) < REACH &&
     match steps[|steps| - 1]
     case New(ty, major, minor) => ty < 0x1_0000 && major < 0x1_0000 && minor < 0x1_0000
     case Append(inum, _) => 1 <= inum <= Inodes(steps))
  }

  /** All that was appended to an inode, one after the other. */
  function Appended(steps: seq<Step>, inum: nat): seq<Byte> {
    if steps == [] then []
    else
      var last := steps[|steps| - 1];
      Appended(steps[..|steps| - 1], inum) + if last.Append? && last.inum == inum then last.data else []
  }

  /** Blocks that the contents of inodes 1 to `n` take. */
  function TotalExtent(steps: seq<Step>, n: nat): nat {
    if n == 0 then 0 else TotalExtent(steps, n - 1) + Extent(Blocks(|Appended(steps, n)|))
  }

  /** There are blocks for all that was appended, and no file is too long. */
  ghost predicate StepsFit(steps: seq<Step>) {
    NMETA + TotalExtent(steps, Inodes(steps)) <= FSSIZE &&
    forall i :: 1 <= i <= Inodes(steps) ==> Blocks(|Appended(steps, i)|) <= MAXFILE
  }

  /** The call that made inode `i`. */
  function NewOf(steps: seq<Step>, i: nat): (st: Step)
    requires 1 <= i <= Inodes(steps)
    ensures st.New? && st in steps
  {
    var last := steps[|steps| - 1];
    if last.New? && i == Inodes(steps) then last else NewOf(steps[..|steps| - 1], i)
  }

  /** An inode is of the type and numbers it was made with, and has one link. */
  ghost predicate MadeAs(n: Node, st: Step) { st.New? && IsHead(n, st.ty, st.major, st.minor) }

  /** Each inode is as it was made. */
  ghost predicate AsMade(nodes: Nodes, steps: seq<Step>) {
    forall i :: i in nodes ==> 1 <= i <= Inodes(steps) && MadeAs(nodes[i], NewOf(steps, i))
  }

  lemma AsMadeNext(nodes: Nodes, steps: seq<Step>, st: Step, nodes': Nodes)
    requires AsMade(nodes, steps)
    requires if st.New? then
               var i := Inodes(steps) + 1; i in nodes' && nodes' == nodes[i := nodes'[i]] && MadeAs(nodes'[i], st)
             else nodes'.Keys == nodes.Keys && forall i :: i in nodes' ==> SameHead(nodes'[i], nodes[i])
    ensures AsMade(nodes', steps + [st])
  {
    var steps' := steps + [st];
    assert steps'[..|steps|] == steps;
    forall i | i in nodes' ensures 1 <= i <= Inodes(steps') && MadeAs(nodes'[i], NewOf(steps', i)) {
      if i in nodes { assert MadeAs(nodes[i], NewOf(steps, i)); }
    }
  }

  /** The builder after these calls. */
  ghost predicate Reflects(m: Builder, steps: seq<Step>)
    reads m
  {
    && m.Valid() && m.freeinode == Inodes(steps) + 1 && m.freeblock == NMETA + TotalExtent(steps, Inodes(steps))
    && (forall i :: i in m.files ==> m.files[i] == Appended(steps, i)) && AsMade(m.nodes, steps)
  }

  /** The kernel finds in each inode what was appended to it, and the type it was made with. */
  ghost predicate AllThere(disk: Disk, steps: seq<Step>) {
    DiskOk(disk) && Inodes(steps) < REACH &&
    forall i :: 1 <= i <= Inodes(steps) ==>
      FileOn(disk, i, Appended(steps, i)) && MadeAs(NodeAt(disk, i), NewOf(steps, i))
  }

  /** The next call, as it changes what is appended. */
  lemma StepGrows(steps: seq<Step>, st: Step, i: nat)
    ensures Appended(steps + [st], i) == Appended(steps, i) + (if st.Append? && st.inum == i then st.data else [])
    ensures Inodes(steps + [st]) == Inodes(steps) + if st.New? then 1 else 0
  {
    assert (steps + [st])[..|steps|] == steps;
  }

  lemma {:induction false} TotalGrows(steps: seq<Step>, st: Step, n: nat)
    ensures var was := Appended(steps, if st.Append? then st.inum else 0);
            TotalExtent(steps + [st], n) == TotalExtent(steps, n) +
              if st.Append? && 1 <= st.inum <= n then Extent(Blocks(|was + st.data|)) - Extent(Blocks(|was|)) else 0
    decreases n
  {
    hide Extent, Blocks, Appended;
    if n > 0 {
      StepGrows(steps, st, n);
      TotalGrows(steps, st, n - 1);
    }
  }

  /** The first inode past those made has nothing appended. */
  lemma {:induction false} NothingYet(steps: seq<Step>, i: nat)
    requires StepsOk(steps) && i > Inodes(steps)
    ensures Appended(steps, i) == []
    decreases |steps|
  {
    if steps != [] { NothingYet(steps[..|steps| - 1], i); }
  }

  lemma TotalNext(steps: seq<Step>, n: nat)
    requires n > 0
    ensures TotalExtent(steps, n) == TotalExtent(steps, n - 1) + Extent(Blocks(|Appended(steps, n)|))
  {
  }

  /** One call. */
  method DoStep(m: Builder, ghost steps: seq<Step>, st: Step) returns (ok: bool)
    requires StepsOk(steps) && StepsOk(steps + [st]) && StepsFit(steps) && Reflects(m, steps)
    modifies m
    ensures ok == StepsFit(steps + [st])
    ensures ok ==> Reflects(m, steps + [st])
  {
    hide Stored, ImageOk, Extent, Blocks, Appended, TotalExtent, Good, AsMade, SameHead, IsHead;
    ghost var n, nodes := Inodes(steps), m.nodes;
    assert (steps + [st])[..|steps|] == steps && (steps + [st])[|steps|] == st;
    forall i: nat ensures
        Appended(steps + [st], i) == Appended(steps, i) + (if st.Append? && st.inum == i then st.data else [])
    {
      StepGrows(steps, st, i);
    }
    StepGrows(steps, st, 0);
    TotalGrows(steps, st, n);
    Keys(m);
    match st {
      case New(ty, major, minor) =>
        NothingYet(steps, n + 1);
        NoBlocks();
        TotalNext(steps + [st], n + 1);
        var inum := m.Ialloc(ty, major, minor);
        ok := true;
      case Append(inum, data) =>
        ok := AppendFile(m, inum, data);
    }
    if ok {
      Keys(m);
      AsMadeNext(nodes, steps, st, m.nodes);
    }
  }

  lemma NoSteps(m: Builder)
    requires m.Valid() && m.files == map[] && m.freeblock == NMETA && m.freeinode == 1
    ensures StepsOk([]) && StepsFit([]) && Reflects(m, [])
  {
  }

  lemma {:induction false} PrefixOk(steps: seq<Step>, k: nat)
    requires StepsOk(steps) && k <= |steps|
    ensures StepsOk(steps[..k])
    decreases |steps|
  {
    if k < |steps| {
      PrefixOk(steps[..|steps| - 1], k);
      assert steps[..|steps| - 1][..k] == steps[..k];
    } else {
      assert steps[..k] == steps;
    }
  }

  lemma AllReadable(m: Builder, steps: seq<Step>)
    requires Reflects(m, steps)
    ensures m.Valid() && AllThere(m.disk, steps)
  {
    hide FileOn, ImageOk, Stored, Appended, Inodes, TotalExtent, MadeAs, NewOf, NodeAt;
    Keys(m);
    FreshIf(m.St());
    forall i | 1 <= i <= Inodes(steps)
      ensures FileOn(m.disk, i, Appended(steps, i)) && MadeAs(NodeAt(m.disk, i), NewOf(steps, i))
    {
      assert i in m.files && Stored(m.St(), i, m.files[i]);
      StoredFacts(m.St(), i, m.files[i]);
      StoredReads(m.St(), i, m.files[i]);
    }
  }

  /** Files made and appended to in any order: it goes through just when there is room after every
      call, and then the kernel finds in each inode all that was appended to it. */
  method BuildAny(steps: seq<Step>) returns (ok: bool, m: Builder)
    requires StepsOk(steps)
    ensures ok <==> forall k :: 0 <= k <= |steps| ==> StepsFit(steps[..k])
    ensures ok ==> m.Valid() && AllThere(m.disk, steps)
  {
    hide StepsOk, StepsFit, Reflects, AllThere;
    m := new Builder();
    NoSteps(m);
    var k := 0;
    assert steps[..0] == [];
    while k < |steps|
      invariant 0 <= k <= |steps| && fresh(m) && StepsOk(steps[..k]) && Reflects(m, steps[..k])
      invariant forall j :: 0 <= j <= k ==> StepsFit(steps[..j])
    {
      PrefixOk(steps, k + 1);
      assert steps[..k + 1] == steps[..k] + [steps[k]];
      ok := DoStep(m, steps[..k], steps[k]);
      if !ok { return; }
      k := k + 1;
    }
    assert steps[..k] == steps;
    AllReadable(m, steps);
    ok := true;
  }

  /** The first word of an inode, with its type: a directory, then the console, then files. */
  function HeadOf(i: nat): nat {
    if i == ROOTINO then T_DIR else if i == 2 then T_DEVICE + 0x1_0000 * CONSOLE else T_FILE
  }

  /** Each inode has its type and one link. */
  ghost predicate Typed(nodes: Nodes) {
    forall i :: i in nodes ==> nodes[i].head0 == HeadOf(i) && nodes[i].head1 == 0x1_0000
  }

  lemma TypedSame(a: Nodes, b: Nodes)
    requires Typed(a) && a.Keys == b.Keys && forall i :: i in b ==> SameHead(b[i], a[i])
    ensures Typed(b)
  {
  }

  lemma TypedNew(a: Nodes, inum: nat, node: Node)
    requires Typed(a) && inum >= 3 && IsHead(node, T_FILE, 0, 0)
    ensures Typed(a[inum := node])
  {
  }

  /** The builder after the console and the first files. */
  ghost predicate Filled(m: Builder, inputs: seq<Input>)
    reads m
    requires NamesOk(inputs)
  {
    m.Valid() && m.freeinode == 3 + |inputs| && AllOk(Entries(inputs)) && m.files[ROOTINO] == Encode(Entries(inputs)) &&
    m.files[2] == [] && (forall i :: 0 <= i < |inputs| ==> m.files[3 + i] == inputs[i].data) &&
    Typed(m.nodes) && m.freeblock == Cost(inputs) && Fits(inputs)
  }

  /** Adds a directory entry. */
  method Link(m: Builder, e: Dirent, ghost es: seq<Dirent>) returns (ok: bool)
    requires m.Valid() && ROOTINO in m.nodes && AllOk(es) && DirentOk(e) && m.files[ROOTINO] == Encode(es) &&
             |es| < REACH
    modifies m
    ensures ok == (old(m.freeblock) + Extent(Blocks(DESIZE * (|es| + 1))) - Extent(Blocks(DESIZE * |es|)) <= FSSIZE)
    ensures ok ==>
              m.Valid() && m.freeinode == old(m.freeinode) && AllOk(es + [e]) &&
              m.files == old(m.files)[ROOTINO := Encode(es + [e])]
    ensures ok ==> m.freeblock == old(m.freeblock) + Extent(Blocks(DESIZE * (|es| + 1))) - Extent(Blocks(DESIZE * |es|))
    ensures ok ==> forall i :: i in m.nodes ==> SameHead(m.nodes[i], old(m.nodes)[i])
  {
    hide Stored, ImageOk, Extent;
    ok := m.Iappend(ROOTINO, EncodeDirent(e));
    assert (es + [e])[..|es|] == es;
  }

  /** An image with just the root directory in it. */
  method StartRoot() returns (m: Builder, ghost dot: Dirent)
    ensures fresh(m) && m.Valid() && m.freeinode == 2 && dot == Dirent(ROOTINO, NameField(DOT)) && AllOk([dot])
    ensures m.files == map[ROOTINO := Encode([dot])] && Typed(m.nodes) && m.freeblock == NMETA + 1
  {
    hide Stored, ImageOk, Encode, NameField, Good;
    m := new Builder();
    var root := m.Ialloc(T_DIR, 0, 0);
    EncodeNone();
    Keys(m);
    var entry := Dirent(root, NameField(DOT));
    var ok := Link(m, entry, []);
    assert [] + [entry] == [entry];
    dot := entry;
  }

  /** The root directory and the console; there is always room for these. */
  method Start() returns (m: Builder)
    ensures fresh(m) && Filled(m, [])
  {
    hide Stored, ImageOk, Encode, NameField, Good;
    ghost var dot;
    m, dot := StartRoot();
    Keys(m);
    var inum := m.Ialloc(T_DEVICE, CONSOLE, 0);
    Keys(m);
    var console := Dirent(inum, NameField(CONSOLENAME));
    var ok := Link(m, console, [dot]);
    assert [dot] + [console] == Entries([]);
  }

  lemma EncodeNone()
    ensures Encode([]) == []
  {
  }

  /** An inode for one more file, and its entry in the root directory. */
  method AddEntry(m: Builder, ghost inputs: seq<Input>, file: Input) returns (ok: bool, inum: nat)
    requires NamesOk(inputs + [file]) && |file.name| <= DIRSIZ && NamesOk(inputs) && Filled(m, inputs)
    requires 3 + |inputs| < REACH
    modifies m
    ensures ok == (old(m.freeblock) + Extent(Blocks(DESIZE * (2 + |inputs| + 1)))
                   - Extent(Blocks(DESIZE * (2 + |inputs|))) <= FSSIZE)
    ensures ok ==> inum == 3 + |inputs| && m.freeinode == inum + 1 && AllOk(Entries(inputs + [file])) && Typed(m.nodes)
    ensures ok ==> m.files == old(m.files)[inum := []][ROOTINO := Encode(Entries(inputs + [file]))] && m.Valid()
    ensures ok ==> m.freeblock == old(m.freeblock) + Extent(Blocks(DESIZE * (2 + |inputs| + 1)))
                                  - Extent(Blocks(DESIZE * (2 + |inputs|)))
  {
    hide Stored, ImageOk, Encode, NameField, Extent, Blocks, Cost, Fits, Entries, Typed, SameHead, IsHead;
    inum := m.Ialloc(T_FILE, 0, 0);
    ghost var nodes1 := m.nodes;
    TypedNew(old(m.nodes), inum, m.nodes[inum]);
    Keys(m);
    ok := Link(m, Dirent(inum, NameField(file.name)), Entries(inputs));
    if !ok { return; }
    Keys(m);
    TypedSame(nodes1, m.nodes);
    EntriesGrow(inputs, file);
  }

  /** One more file: its entry in the root directory and its contents. */
  method AddFile(m: Builder, ghost inputs: seq<Input>, file: Input) returns (ok: bool)
    requires NamesOk(inputs + [file]) && |file.name| <= DIRSIZ && NamesOk(inputs) && Filled(m, inputs)
    requires 3 + |inputs| < REACH
    modifies m
    ensures ok == Fits(inputs + [file])
    ensures ok ==> Filled(m, inputs + [file])
  {
    hide Stored, ImageOk, Encode, NameField, Extent, Blocks, Cost, Fits, Entries, Typed, SameHead, IsHead;
    FitsAdd(inputs, file);
    NoBlocks();
    var inum;
    ok, inum := AddEntry(m, inputs, file);
    if !ok { return; }
    Keys(m);
    ghost var nodes1 := m.nodes;
    ok := AppendFile(m, inum, file.data);
    if !ok { return; }
    Keys(m);
    TypedSame(nodes1, m.nodes);
    assert [] + file.data == file.data;
    assert (inputs + [file])[|inputs|] == file;
  }

  lemma NoBlocks()
    ensures Blocks(0) == 0 && Extent(0) == 0
  {
  }

  lemma EntriesGrow(inputs: seq<Input>, file: Input)
    requires NamesOk(inputs) && NamesOk(inputs + [file]) && |file.name| <= DIRSIZ
    ensures Entries(inputs) + [Dirent(3 + |inputs|, NameField(file.name))] == Entries(inputs + [file])
  {
    hide NameField;
  }

  /** The most files whose inodes are in the inode blocks, and the most for which the builder does not
      write over data blocks. */
  const MAXFILES := IMAX - 3
  const REACHFILES := REACH - 3

  /** The root directory as the kernel sees it. */
  ghost predicate ShowsRoot(disk: Disk, es: seq<Dirent>)
    requires DiskOk(disk)
  {
    var node := NodeAt(disk, ROOTINO);
    node.head0 % 0x1_0000 == T_DIR && node.size == RoundUp(DESIZE * |es|) &&
    ShowsDir(disk, node, es, Blocks(DESIZE * |es|))
  }

  /** The finished image: the files whose inodes are in the inode blocks, the root directory, the
      bitmap, and which blocks are whose. */
  ghost predicate Made(disk: Disk, inputs: seq<Input>, used: nat, owner: Owners, nodes: Nodes)
    requires NamesOk(inputs)
  {
    DiskOk(disk) && |inputs| + 3 <= REACH && ShowsRoot(disk, Entries(inputs)) &&
    (forall i :: 0 <= i < |inputs| && i < MAXFILES ==> FileOn(disk, 3 + i, inputs[i].data)) &&
    (forall i :: 1 <= i < 3 + |inputs| && i < IMAX ==>
       NodeAt(disk, i).head0 == HeadOf(i) && NodeAt(disk, i).head1 == 0x1_0000) &&
    Bits(disk, used) && (forall b :: 0 <= b < FSSIZE ==> (InUse(disk, b) <==> b < used)) &&
    Tree(disk, used, owner, nodes) && (forall i :: i in nodes <==> 1 <= i < 3 + |inputs|) &&
    forall i :: i in nodes && i < IMAX ==> nodes[i] == NodeAt(disk, i)
  }

  /** How making an image ends: done, given up, or with a file whose inode would go over the root
      directory's entries, where the model stops. */
  datatype Ending = Done | Refused | Overrun

  ghost predicate Overruns(inputs: seq<Input>) {
    |inputs| > REACHFILES && NamesOk(inputs[..REACHFILES + 1]) && Fits(inputs[..REACHFILES])
  }

  /** The files one after the other. */
  method AddAll(inputs: seq<Input>) returns (end: Ending, m: Builder)
    requires forall i :: 0 <= i < |inputs| ==> 0 !in inputs[i].name
    ensures fresh(m) && (end.Done? <==> |inputs| <= REACHFILES && NamesOk(inputs) && Fits(inputs))
    ensures end.Overrun? <==> Overruns(inputs)
    ensures end.Done? ==> Filled(m, inputs)
  {
    hide Filled, Fits;
    m := Start();
    var i := 0;
    while i < |inputs|
      invariant 0 <= i <= |inputs| && i <= REACHFILES && NamesOk(inputs[..i]) && Filled(m, inputs[..i]) && fresh(m)
    {
      if |inputs[i].name| > DIRSIZ {
        assert |inputs| > REACHFILES ==> inputs[..REACHFILES + 1][i] == inputs[i];
        return Refused, m;
      }
      assert inputs[..i + 1] == inputs[..i] + [inputs[i]];
      if 3 + i == REACH {
        FilledFits(m, inputs[..i]);
        return Overrun, m;
      }
      var ok := AddFile(m, inputs[..i], inputs[i]);
      if !ok {
        NotFits(inputs, i + 1);
        return Refused, m;
      }
      i := i + 1;
    }
    assert inputs[..i] == inputs;
    FilledFits(m, inputs);
    end := Done;
  }

  lemma NotFits(inputs: seq<Input>, n: nat)
    requires n <= |inputs| && n <= REACHFILES && !Fits(inputs[..n])
    ensures !Fits(inputs) && !Overruns(inputs)
  {
    hide Fits;
    assert |inputs| > REACHFILES ==> inputs[..REACHFILES][..n] == inputs[..n];
    if Fits(inputs) { FitsPrefix(inputs, n); }
    if |inputs| > REACHFILES && Fits(inputs[..REACHFILES]) { FitsPrefix(inputs[..REACHFILES], n); }
  }

  lemma FilledFits(m: Builder, inputs: seq<Input>)
    requires NamesOk(inputs) && Filled(m, inputs)
    ensures Fits(inputs)
  {
  }

  /** The end: the root's size is rounded up and the bitmap written. */
  method Seal(m: Builder, ghost inputs: seq<Input>)
    returns (disk: Disk, used: nat, ghost owner: Owners, ghost nodes: Nodes)
    requires |inputs| + 3 <= REACH && NamesOk(inputs) && Filled(m, inputs)
    ensures used == Cost(inputs) && Made(disk, inputs, used, owner, nodes)
  {
    hide Stored, ImageOk, Encode, Entries, FileOn, ShowsDir, NodeAt, PutNode, Tree, InUse, Bits, Fits, Cost;
    StoredFacts(m.St(), ROOTINO, m.files[ROOTINO]);
    var din := NodeAt(m.disk, ROOTINO);
    var d1 := PutNode(m.disk, ROOTINO, din.(size := RoundUp(din.size)));
    assert d1 == Flushed(m.St(), ROOTINO, RoundUp(DESIZE * |Entries(inputs)|)).disk;
    disk := Balloc(d1, m.freeblock);
    used, owner := m.freeblock, m.owner;
    nodes := m.nodes[ROOTINO := din.(size := RoundUp(din.size))];
    Finished(m.St(), m.files, Entries(inputs), disk);
    forall k | 0 <= k < |inputs| && k < MAXFILES ensures FileOn(disk, 3 + k, inputs[k].data) {
      assert 3 + k in m.files;
    }
  }

  /** Makes an image of the given files, if there are not too many, their names are short enough
      and there is room; `used` is its first free block. */
  method MakeImage(inputs: seq<Input>)
    returns (end: Ending, disk: Disk, used: nat, ghost owner: Owners, ghost nodes: Nodes)
    requires forall i :: 0 <= i < |inputs| ==> 0 !in inputs[i].name
    ensures end.Done? <==> |inputs| <= REACHFILES && NamesOk(inputs) && Fits(inputs)
    ensures end.Overrun? <==> Overruns(inputs)
    ensures end.Done? ==> used == Cost(inputs) && Made(disk, inputs, used, owner, nodes)
  {
    hide Filled, Fits, Made, Cost, Overruns;
    disk, used, owner, nodes := [], 0, map[], map[];
    var m;
    end, m := AddAll(inputs);
    if end.Done? { disk, used, owner, nodes := Seal(m, inputs); }
  }

  /** A block outside the metadata is marked in use just when some inode's pointer tree has it. */
  lemma BitmapExact(disk: Disk, inputs: seq<Input>, used: nat, owner: Owners, nodes: Nodes, b: nat)
    requires NamesOk(inputs) && |inputs| <= MAXFILES && Made(disk, inputs, used, owner, nodes) && NMETA <= b < FSSIZE
    ensures InUse(disk, b) <==>
              exists i, s :: 1 <= i < 3 + |inputs| && SlotOk(s) && Ptr(disk, NodeAt(disk, i).addrs, s) == b
  {
    hide Ptr, InUse, Bits, NodeAt, ShowsRoot, FileOn;
    if b < used {
      assert Serves(disk, owner, nodes, b);
      assert nodes[owner[b].inum] == NodeAt(disk, owner[b].inum);
    }
    forall i, s | 1 <= i < 3 + |inputs| && SlotOk(s) && Ptr(disk, NodeAt(disk, i).addrs, s) == b ensures b < used {
      assert i in nodes;
      assert Owns(disk, used, owner, i, nodes[i].addrs);
    }
  }

  lemma {:induction false} CharsPadded(name: seq<Byte>, n: nat)
    requires 0 !in name
    ensures Chars(name + seq(n, _ => 0)) == name
    decreases |name|
  {
    var z: seq<Byte> := seq(n, _ => 0);
    if name == [] {
      assert name + z == z;
    } else {
      CharsPadded(name[1..], n);
      assert (name + z)[1..] == name[1..] + z;
    }
  }

  /** Name fields compare equal just when the names are equal. */
  lemma SameField(a: seq<Byte>, b: seq<Byte>)
    requires |a| <= DIRSIZ && |b| <= DIRSIZ && 0 !in a && 0 !in b
    ensures Namecmp(NameField(a), NameField(b), 0) <==> a == b
  {
    NamecmpIsSame(NameField(a), NameField(b), 0);
    assert NameField(a)[0..] == NameField(a) && NameField(b)[0..] == NameField(b);
    CharsPadded(a, DIRSIZ - |a|);
    CharsPadded(b, DIRSIZ - |b|);
  }

  /** The inode number the image has for a name. */
  ghost predicate Names(inputs: seq<Input>, name: seq<Byte>, inum: nat) {
    (name == DOT && inum == ROOTINO) || (name == CONSOLENAME && inum == 2) ||
    (3 <= inum < 3 + |inputs| && name == inputs[inum - 3].name)
  }

  lemma MatchIsName(inputs: seq<Input>, name: seq<Byte>, i: nat)
    requires NamesOk(inputs) && |name| <= DIRSIZ && 0 !in name && i < 2 + |inputs|
    ensures Matches(Entries(inputs)[i], NameField(name)) <==> Names(inputs, name, i + 1)
    ensures Entries(inputs)[i].inum == i + 1
  {
    hide Namecmp, NameField;
    SameField(name, DOT);
    SameField(name, CONSOLENAME);
    if i >= 2 { SameField(name, inputs[i - 2].name); }
  }

  /** A lookup in the root directory finds the first file of that name. It panics instead of
      reporting a missing name just when the entries fill their last block. */
  lemma RootLookup(inputs: seq<Input>, disk: Disk, name: seq<Byte>, r: Look)
    requires NamesOk(inputs) && |name| <= DIRSIZ && 0 !in name && DiskOk(disk) && ShowsRoot(disk, Entries(inputs))
    requires LookIs(Entries(inputs), NameField(name),
                    NodeAt(disk, ROOTINO).size <= Blocks(DESIZE * (2 + |inputs|)) * BSIZE, r)
    ensures r.Found? <==> exists i: nat :: Names(inputs, name, i)
    ensures r.Found? ==> Names(inputs, name, r.inum) && forall j: nat :: Names(inputs, name, j) ==> r.inum <= j
    ensures r == Panic <==> (forall i: nat :: !Names(inputs, name, i)) && (2 + |inputs|) % 64 == 0
  {
    hide Namecmp, NameField, Matches, Entries, ShowsDir, NodeAt, Names;
    var es := Entries(inputs);
    forall i | 0 <= i < |es| ensures Matches(es[i], NameField(name)) <==> Names(inputs, name, i + 1)
      ensures es[i].inum == i + 1
    {
      MatchIsName(inputs, name, i);
    }
    forall j: nat | Names(inputs, name, j) ensures 1 <= j <= |es| && Matches(es[j - 1], NameField(name)) {
      NameRange(inputs, name, j);
    }
    Rounding(DESIZE * |es|);
  }

  /** 62 empty files with one-letter names. */
  function Letters(): seq<Input> { seq(62, i requires 0 <= i < 62 => Input([65 + i], [])) }

  lemma {:induction false} EmptyExtent(inputs: seq<Input>)
    requires forall i :: 0 <= i < |inputs| ==> inputs[i].data == []
    ensures DataExtent(inputs) == 0
    decreases |inputs|
  {
    NoBlocks();
    if inputs != [] { EmptyExtent(inputs[..|inputs| - 1]); }
  }

  lemma LettersFit()
    ensures NamesOk(Letters()) && Fits(Letters()) && |Letters()| == 62
  {
    var inputs := Letters();
    EmptyExtent(inputs);
    hide DataExtent, Letters;
    assert Fits(inputs);
  }

  /** A real case: an image of 62 files is made, and looking up a name it does not have panics. */
  method MissingPanics() returns (r: Look)
    ensures NamesOk(Letters()) && Fits(Letters()) && r == Panic
  {
    hide Entries, ShowsDir, NodeAt, Tree, InUse, Bits, Fits, Cost, FileOn, LookIs, Names;
    LettersFit();
    var inputs := Letters();
    var end, disk, used;
    ghost var owner, nodes;
    end, disk, used, owner, nodes := MakeImage(inputs);
    r := Dirlookup(disk, NodeAt(disk, ROOTINO), NameField([33]), Entries(inputs), Blocks(DESIZE * 64));
    NotALetter();
    RootLookup(inputs, disk, [33], r);
  }

  lemma NotALetter()
    ensures forall i: nat :: !Names(Letters(), [33], i)
  {
  }

  /** An inode past the inode blocks has been written over by the bitmap: bits are set from the first
      on, which is never the type of a file. */
  lemma PastInodeBlocks(disk: Disk, used: nat, inum: nat)
    requires DiskOk(disk) && Bits(disk, used) && IMAX <= inum < REACH
    ensures NodeAt(disk, inum).head0 % 0x1_0000 != T_FILE
  {
    var k, off := (inum - IMAX) / IPB, InodeOffset(inum);
    var b := disk[BMAPSTART + k];
    assert InodeBlock(inum) == BMAPSTART + k;
    assert BlockBits(b, k, used);
    assert Marked(b, 8 * off) == (k * BPB + 8 * off < used);
    LowByte(b, off);
  }

  /** A word whose low half is 2 has bit 1 of its first byte set and bit 0 not. */
  lemma LowByte(b: seq<Byte>, off: nat)
    requires off + 64 <= |b|
    ensures GetWords(b, off, 16)[0] % 0x1_0000 == 2 ==> !Marked(b, 8 * off) && Marked(b, 8 * off + 1)
  {
    var w := GetU32(b, off);
    assert GetWords(b, off, 16)[0] == w;
    if w % 0x1_0000 == 2 {
      var b0: int, b1: int := b[off], b[off + 1];
      assert w % 0x1_0000 == b0 + 0x100 * b1;
      assert b[off] == 2;
      assert (8 * off) / 8 == off && (8 * off + 1) / 8 == off && (8 * off) % 8 == 0 && (8 * off + 1) % 8 == 1;
      assert !IsSet(2, 0) && IsSet(2, 1);
    }
  }

  /** The kernel finds a file with the bytes given. */
  ghost predicate Survives(disk: Disk, inputs: seq<Input>, i: nat)
    requires DiskOk(disk) && i < |inputs| && 3 + i < REACH
  {
    NodeAt(disk, 3 + i).head0 % 0x1_0000 == T_FILE && FileOn(disk, 3 + i, inputs[i].data)
  }

  /** Of the files of an image the first 205, and no others, survive. */
  lemma FirstSurvive(disk: Disk, inputs: seq<Input>, used: nat, owner: Owners, nodes: Nodes, i: nat)
    requires NamesOk(inputs) && Made(disk, inputs, used, owner, nodes) && i < |inputs|
    ensures Survives(disk, inputs, i) <==> i < MAXFILES
  {
    hide NodeAt, FileOn, ShowsRoot, Tree, InUse, Bits;
    if i >= MAXFILES { PastInodeBlocks(disk, used, 3 + i); }
  }

  /** Any number of empty files of one name. */
  function Copies(n: nat): seq<Input> { seq(n, _ => Input([97], [])) }

  lemma CopiesFit(n: nat)
    requires n <= REACHFILES
    ensures NamesOk(Copies(n)) && Fits(Copies(n))
  {
    var inputs := Copies(n);
    EmptyExtent(inputs);
    MoreBlocks(0, DESIZE * (2 + n), DESIZE * 351);
    NoBlocks();
    assert Extent(Blocks(DESIZE * 351)) == 6;
    hide DataExtent, Copies, Extent;
    assert Fits(inputs);
  }

  /** A real case: an image of 206 files is made, and the last of them is lost. */
  method LastFileLost() returns (disk: Disk)
    ensures NamesOk(Copies(206)) && Fits(Copies(206)) && DiskOk(disk) && !Survives(disk, Copies(206), 205)
  {
    hide NodeAt, Tree, InUse, Fits, Cost, FileOn, ShowsRoot, Survives, Bits;
    CopiesFit(206);
    var inputs := Copies(206);
    var end, used;
    ghost var owner, nodes;
    end, disk, used, owner, nodes := MakeImage(inputs);
    FirstSurvive(disk, inputs, used, owner, nodes, 205);
  }

  /** A list of files on which the builder writes over the root directory. */
  lemma OverrunHappens()
    ensures Overruns(Copies(350))
  {
    CopiesFit(349);
    assert Copies(350)[..REACHFILES] == Copies(349);
  }

  lemma NameRange(inputs: seq<Input>, name: seq<Byte>, j: nat)
    requires Names(inputs, name, j)
    ensures 1 <= j < 3 + |inputs|
  {
  }

  /** The rounded size stays within the allocated blocks just when the last block is not full. */
  lemma Rounding(size: nat)
    ensures RoundUp(size) <= Blocks(size) * BSIZE <==> size % BSIZE != 0
  {
  }
}
