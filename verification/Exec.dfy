/** Building a fresh user image in a new page table: the loading and argument-passing
    parts of kexec and all of loadseg (kernel/proc/exec.c). */
module Exec {
  import opened Sv39
  import opened PageTable
  import opened Space
  import opened Vm
  import opened CopyUser
  import opened AddressSpace
  import opened MachineWords

  /** MAXFILE * BSIZE: no file is longer. */
  const MAXFILE_BYTES := (11 + 256 + 256 * 256) * 1024
  const USERSTACK := 1

  /** An ELF program header, `readable` telling whether readi could fetch it. */
  datatype Segment = Segment(readable: bool, load: bool, vaddr: nat, memsz: nat, filesz: nat, off: nat, flags: nat)

  function Flags2perm(flags: nat): (perm: nat)
    ensures IsXperm(perm)
    ensures (PteWrite(perm) <==> flags / 2 % 2 == 1) && (perm / PTE_X % 2 == 1 <==> flags % 2 == 1)
  {
    (if flags % 2 == 1 then PTE_X else 0) + (if flags / 2 % 2 == 1 then PTE_W else 0)
  }

  /** How many bytes readi delivers from a file of `size` bytes. */
  function ReadLen(size: nat, off: nat, n: nat): (r: nat)
    ensures r <= n && (r > 0 ==> off + r <= size)
  {
    if off > size || off + n >= UINT32 then 0
    else if off + n > size then size - off else n
  }

  ghost predicate AllUser(c: Memory) { forall v :: v in c ==> PteUser(c[v].flags) }

  /** The part of the file a segment can be filled from. */
  function Available(file: seq<Byte>, off: nat, sz: nat): (r: seq<Byte>)
    ensures |r| <= sz && (r != [] ==> off + |r| <= |file|)
  {
    if off > |file| then [] else if off + sz > |file| then file[off..] else file[off..off + sz]
  }

  /** readi into the start of a user page, addressed by frame. */
  method ReadIntoPage(m: Machine, ghost t: Shape, ghost c: Memory, root: nat, ghost va: nat, f: nat, bytes: seq<Byte>)
    returns (ghost c': Memory)
    requires m.Ok() && At(m.mem, t, root, m.Free()) && Presents(m.mem, t, c)
    requires va % PGSIZE == 0 && va / PGSIZE in t.view && va / PGSIZE < UTOP && f == PteFrame(t.view[va / PGSIZE])
    requires |bytes| <= PGSIZE
    modifies m
    ensures m.Ok() && m.free == old(m.free) && At(m.mem, t, root, m.Free()) && Presents(m.mem, t, c')
    ensures Keeps(old(m.mem), m.mem, UserFrames(t.view))
    ensures Sized(c) && va / PGSIZE in c
    ensures c' == c[va / PGSIZE := UserPage(c[va / PGSIZE].flags, Splice(c[va / PGSIZE].bytes, 0, bytes))]
  {
    hide Wf, LeavesOk, UserFrames, PagesOf, PteFlags, PteFrame;
    ghost var v := va / PGSIZE;
    ContentsSized(m.mem, t);
    LeafFacts(m.mem, t, v);
    assert f !in m.Free();
    m.mem := m.mem[f := Data(bytes + m.mem[f].b[|bytes|..])];
    assert Splice(c[v].bytes, 0, bytes) == bytes + c[v].bytes[|bytes|..];
    StoreOk(old(m.mem), t, c, v, Splice(c[v].bytes, 0, bytes));
    c' := c[v := UserPage(c[v].flags, Splice(c[v].bytes, 0, bytes))];
  }

  /** Page positions stay aligned, and file positions within the file do not wrap. */
  lemma Steady(va: nat, offset: nat, i: nat, avail: nat, len: nat)
    requires va % PGSIZE == 0 && i % PGSIZE == 0 && offset < UINT32 && i <= avail && len <= MAXFILE_BYTES &&
             (avail > 0 ==> offset + avail <= len)
    ensures (va + i) % PGSIZE == 0 && (offset + i) % UINT32 == offset + i
  {
    assert va + i == PGSIZE * (va / PGSIZE + i / PGSIZE);
  }

  /** One iteration of loadseg. `c0` is the memory before the first. */
  method LoadPage(m: Machine, ghost t: Shape, ghost c0: Memory, ghost c: Memory, root: nat, va: nat, file: seq<Byte>,
                  offset: nat, sz: nat, i: nat)
    returns (got: nat, want: nat, ghost c': Memory)
    requires m.Ok() && At(m.mem, t, root, m.Free()) && Presents(m.mem, t, c) && KernelTop(t)
    requires va % PGSIZE == 0 && i % PGSIZE == 0 && i < sz < UINT32 && offset < UINT32 && |file| <= MAXFILE_BYTES
    requires forall x: nat :: va <= x < va + sz ==> ReadableAt(c0, x)
    requires i <= |Available(file, offset, sz)| && Written(c0, c, va, Available(file, offset, sz)[..i])
    modifies m
    ensures m.Ok() && m.free == old(m.free) && At(m.mem, t, root, m.Free()) && Presents(m.mem, t, c')
    ensures Keeps(old(m.mem), m.mem, UserFrames(t.view))
    ensures want == (if sz - i < PGSIZE then sz - i else PGSIZE) && got <= want
    ensures got == want <==> offset + i + want <= |file|
    ensures i + got <= |Available(file, offset, sz)| && Written(c0, c', va, Available(file, offset, sz)[..i + got])
  {
    hide Wf, LeavesOk, UserFrames, PagesOf, PteFlags, PteFrame, PteUser, SpaceOk, Written, ReadableAt, Machine.Ok;
    ghost var src := Available(file, offset, sz);
    SameReadable(c0, c, va, src[..i]);
    assert ReadableAt(c0, va + i);
    var f := Walkaddr(m, t, c, root, va + i);
    want := if sz - i < PGSIZE then sz - i else PGSIZE;
    var off := (offset + i) % UINT32;
    Steady(va, offset, i, |src|, |file|);
    got := ReadLen(|file|, off, want);
    var bytes := if got == 0 then [] else file[off..off + got];
    FileChunk(file, offset, sz, i, got);
    c' := ReadIntoPage(m, t, c, root, va + i, f, bytes);
    WrittenPage(c0, c, va, src, i, bytes);
  }

  /** loadseg: fill mapped pages from the file. The loop's counter and file offset are
      32-bit; they do not wrap because no file is that long. */
  method Loadseg(m: Machine, ghost t: Shape, ghost c: Memory, root: nat, va: nat, file: seq<Byte>, offset: nat, sz: nat)
    returns (ok: bool, ghost c': Memory, ghost n: nat)
    requires m.Ok() && At(m.mem, t, root, m.Free()) && Presents(m.mem, t, c) && KernelTop(t)
    requires va % PGSIZE == 0 && offset < UINT32 && sz < UINT32 && |file| <= MAXFILE_BYTES
    requires forall x: nat :: va <= x < va + sz ==> ReadableAt(c, x)
    modifies m
    ensures m.Ok() && m.free == old(m.free) && At(m.mem, t, root, m.Free()) && Presents(m.mem, t, c')
    ensures Keeps(old(m.mem), m.mem, UserFrames(t.view))
    ensures n <= |Available(file, offset, sz)| && Written(c, c', va, Available(file, offset, sz)[..n])
    ensures ok <==> sz == 0 || offset + sz <= |file|
    ensures ok ==> n == sz
  {
    hide Wf, LeavesOk, UserFrames, PagesOf, SpaceOk, Written, ReadableAt, Machine.Ok, Available, At;
    var i := 0;
    WrittenNothing(m.mem, t, c, va);
    c', n := c, 0;
    ghost var src := Available(file, offset, sz);
    while i < sz
      invariant i % PGSIZE == 0 && (i == 0 || offset + n <= |file|)
      invariant n == (if i < sz then i else sz) && n <= |src|
      invariant m.Ok() && m.free == old(m.free) && At(m.mem, t, root, m.Free()) && Presents(m.mem, t, c')
      invariant Keeps(old(m.mem), m.mem, UserFrames(t.view))
      invariant Written(c, c', va, src[..n])
      decreases sz + PGSIZE - i
    {
      var got, want;
      ghost var mem1 := m.mem;
      got, want, c' := LoadPage(m, t, c, c', root, va, file, offset, sz, i);
      KeepsTrans(old(m.mem), mem1, m.mem, UserFrames(t.view), UserFrames(t.view));
      n := i + got;
      if got != want { return false, c', n; }
      i := i + PGSIZE;
    }
    ok := true;
  }

  lemma FileChunk(file: seq<Byte>, offset: nat, sz: nat, i: nat, got: nat)
    requires i + got <= sz && i <= |Available(file, offset, sz)| && (got > 0 ==> offset + i + got <= |file|)
    ensures i + got <= |Available(file, offset, sz)|
    ensures Available(file, offset, sz)[i..i + got] == if got == 0 then [] else file[offset + i..offset + i + got]
  {
    if got > 0 {
      var a, b := Available(file, offset, sz)[i..i + got], file[offset + i..offset + i + got];
      forall j | 0 <= j < |a| ensures a[j] == b[j] {}
    }
  }

  lemma SameReadable(c: Memory, c': Memory, a: nat, src: seq<Byte>)
    requires Written(c, c', a, src)
    ensures forall x: nat :: ReadableAt(c', x) <==> ReadableAt(c, x)
    ensures AllUser(c) ==> AllUser(c')
  {
    forall x: nat ensures ReadableAt(c', x) <==> ReadableAt(c, x) {
      assert x / PGSIZE in c <==> x / PGSIZE in c';
    }
  }

  /** A user image of `sz` bytes, as proc_freepagetable expects it. */
  ghost predicate Image(mem: Mem, t: Shape, root: nat, free: set<nat>, sz: nat, tf: nat, tramp: nat) {
    At(mem, t, root, free) && UserIs(t, Pages(sz)) && Top(t, tf, tramp)
  }

  /** An image under construction: all its pages are user-accessible. */
  ghost predicate Building(mem: Mem, t: Shape, root: nat, free: set<nat>, sz: nat, tf: nat, tramp: nat) {
    Image(mem, t, root, free, sz, tf, tramp) && AllUser(Contents(mem, t))
  }

  lemma GrownBuilding(mem: Mem, t: Shape, root: nat, free: set<nat>, sz: nat, tf: nat, tramp: nat,
                      mem': Mem, t': Shape, free': set<nat>, sz': nat, n: nat, xperm: nat)
    requires Building(mem, t, root, free, sz, tf, tramp) && Conserves(mem, t, free, mem', t', free') && SameTop(t, t')
    requires UserIs(t', Pages(sz')) && IsXperm(xperm)
    requires Contents(mem', t') == Fill(Contents(mem, t), Pages(sz), n, ZeroPage(xperm))
    ensures Building(mem', t', root, free', sz', tf, tramp)
  {
    hide Wf, LeavesOk, UserFrames, PagesOf, Top, Pages, UserIs, SameTop, Fill;
    TopKept(t, t', tf, tramp);
    FillUser(Contents(mem, t), Pages(sz), n, xperm);
  }

  lemma FillUser(c: Memory, v: nat, n: nat, xperm: nat)
    requires AllUser(c) && IsXperm(xperm)
    ensures AllUser(Fill(c, v, n, ZeroPage(xperm)))
  {
    assert PteUser(ZeroPage(xperm).flags);
    if n > 0 {
      FillUser(c, v, n - 1, xperm);
    }
  }

  /** Writing bytes through the table moves no frame. */
  lemma StoreConserves(mem: Mem, t: Shape, root: nat, free: set<nat>, mem': Mem)
    requires At(mem, t, root, free) && At(mem', t, root, free) && Keeps(mem, mem', UserFrames(t.view))
    ensures Conserves(mem, t, free, mem', t, free)
  {
    hide SpaceOk, UserFrames;
  }

  lemma BelowSize(mem: Mem, t: Shape, sz: nat, va: nat, len: nat)
    requires SpaceOk(mem, t) && UserIs(t, Pages(sz)) && AllUser(Contents(mem, t)) && va + len <= sz
    ensures forall x: nat :: va <= x < va + len ==> ReadableAt(Contents(mem, t), x)
  {
    hide Wf, LeavesOk, UserFrames, PagesOf;
    ContentsKeys(mem, t);
    forall x: nat | va <= x < va + len ensures ReadableAt(Contents(mem, t), x) {
      assert x / PGSIZE < Pages(sz);
    }
  }

  lemma NoWrap(a: nat, b: nat)
    requires a < UINT64 && b < UINT64 && (a + b) % UINT64 >= a
    ensures a + b < UINT64
  {
  }

  /** The size of memory after a header is loaded. */
  function SegEnd(s: Segment, sz: nat): nat { if s.load && s.vaddr + s.memsz > sz then s.vaddr + s.memsz else sz }

  /** A header that kexec accepts, memory permitting. */
  predicate SegSound(s: Segment, sz: nat, file: seq<Byte>) {
    s.readable &&
    (s.load ==>
      s.filesz <= s.memsz && s.vaddr + s.memsz < UINT64 && s.vaddr % PGSIZE == 0 && SegEnd(s, sz) > 0 &&
      (s.filesz % UINT32 == 0 || s.off % UINT32 + s.filesz % UINT32 <= |file|))
  }

  /** The size after the first `n` headers. */
  function SizeOf(phs: seq<Segment>, n: nat): nat
    requires n <= |phs|
  {
    if n == 0 then 0 else SegEnd(phs[n - 1], SizeOf(phs, n - 1))
  }

  ghost predicate ProgramSound(phs: seq<Segment>, file: seq<Byte>) {
    forall i :: 0 <= i < |phs| ==> SegSound(phs[i], SizeOf(phs, i), file)
  }

  /** What a program header asks for: memory up to its end, zero but for the bytes of the file. */
  ghost predicate SegLoaded(c: Memory, sz: nat, s: Segment, file: seq<Byte>, c': Memory, sz': nat) {
    if !s.load then c' == c && sz' == sz
    else
      && s.filesz <= s.memsz && s.vaddr % PGSIZE == 0 && s.vaddr + s.memsz < UINT64
      && sz' == (if s.vaddr + s.memsz < sz then sz else s.vaddr + s.memsz) && Pages(sz) <= Pages(sz')
      && |Available(file, s.off % UINT32, s.filesz % UINT32)| == s.filesz % UINT32
      && Written(Fill(c, Pages(sz), Pages(sz') - Pages(sz), ZeroPage(Flags2perm(s.flags))), c', s.vaddr,
                 Available(file, s.off % UINT32, s.filesz % UINT32))
  }

  /** The first `n` headers of a program, one after the other, make up memory `c` of size `sz`. */
  ghost predicate LoadedBy(phs: seq<Segment>, n: nat, file: seq<Byte>, c: Memory, sz: nat)
    requires n <= |phs|
  {
    if n == 0 then c == map[] && sz == 0
    else
      exists c0, sz0 {:trigger SegLoaded(c0, sz0, phs[n - 1], file, c, sz)} ::
        LoadedBy(phs, n - 1, file, c0, sz0) && SegLoaded(c0, sz0, phs[n - 1], file, c, sz)
  }

  /** The first `n` pages are the same. */
  ghost predicate SameBelow(c: Memory, c': Memory, n: nat) {
    forall v: nat :: v < n ==> (v in c <==> v in c') && (v in c && v in c' ==> c'[v] == c[v])
  }

  /** Memory starts with the whole program. */
  ghost predicate HasProgram(c: Memory, phs: seq<Segment>, file: seq<Byte>) {
    exists c0, sz :: LoadedBy(phs, |phs|, file, c0, sz) && SameBelow(c0, c, Pages(sz))
  }

  lemma WrittenAbove(c: Memory, c': Memory, a: nat, src: seq<Byte>, n: nat)
    requires Written(c, c', a, src) && n * PGSIZE <= a
    ensures SameBelow(c, c', n)
  {
    forall v: nat | v < n && v in c ensures v in c' && c'[v] == c[v] {
      forall k | 0 <= k < PGSIZE ensures c'[v].bytes[k] == c[v].bytes[k] {
        var x := v * PGSIZE + k;
        assert x / PGSIZE == v && x % PGSIZE == k;
        assert ByteAt(c', x) == ByteAt(c, x);
      }
      assert c'[v].bytes == c[v].bytes;
    }
  }

  lemma {:induction false} FillAbove(c: Memory, v: nat, k: nat, page: UserPage)
    ensures SameBelow(c, Fill(c, v, k, page), v)
    decreases k
  {
    if k > 0 { FillAbove(c, v, k - 1, page); }
  }

  lemma ChangedAt(c: Memory, v: nat, page: UserPage)
    ensures SameBelow(c, c[v := page], v)
  {
  }

  lemma SameBelowRefl(c: Memory, n: nat)
    ensures SameBelow(c, c, n)
  {
  }

  lemma SameBelowTrans(a: Memory, b: Memory, c: Memory, n: nat, m: nat)
    requires SameBelow(a, b, n) && SameBelow(b, c, m) && n <= m
    ensures SameBelow(a, c, n)
  {
  }

  /** The pages and nodes to grow from size `sz` to `sz'`, and no more, were taken. */
  ghost predicate TookTo(t: Shape, n: nat, t': Shape, n': nat, sz: nat, sz': nat) {
    Pages(sz) <= Pages(sz') && Took(t, n, t', n', Range(Pages(sz), Pages(sz') - Pages(sz)), Pages(sz') - Pages(sz))
  }

  /** `n` free pages are not enough to grow from size `sz` to `sz'`. */
  ghost predicate ShortOf(t: Shape, n: nat, sz: nat, sz': nat) {
    Pages(sz) <= Pages(sz') && Short(t, n, Range(Pages(sz), Pages(sz') - Pages(sz)), Pages(sz') - Pages(sz))
  }

  /** One program header of kexec's loop. Whatever happens the image stays well formed, so
      that it can be torn down. */
  method LoadSegment(m: Machine, ghost t: Shape, root: nat, sz: nat, file: seq<Byte>, s: Segment, ghost tf: nat,
                     ghost tramp: nat)
    returns (ok: bool, sz': nat, ghost t': Shape)
    requires m.Ok() && Building(m.mem, t, root, m.Free(), sz, tf, tramp)
    requires |file| <= MAXFILE_BYTES && s.vaddr < UINT64 && s.memsz < UINT64
    modifies m
    ensures m.Ok() && Building(m.mem, t', root, m.Free(), sz', tf, tramp)
    ensures SpaceOk(old(m.mem), t) && Conserves(old(m.mem), t, old(m.Free()), m.mem, t', m.Free())
    ensures ok ==> SpaceOk(m.mem, t') && SegLoaded(old(Contents(m.mem, t)), sz, s, file, Contents(m.mem, t'), sz')
    ensures ok ==> SegSound(s, sz, file) && sz' == SegEnd(s, sz) && TookTo(t, |old(m.free)|, t', |m.free|, sz, sz')
    ensures !ok ==> !SegSound(s, sz, file) || ShortOf(t, |old(m.free)|, sz, SegEnd(s, sz))
  {
    hide Wf, LeavesOk, UserFrames, PagesOf, SpaceOk, Top, Pages, UserIs, SameTop, Fill, AllUser, Machine.Ok,
         ReadableAt, Written, ZeroPage, Available, Took, Short, Range;
    ConservesRefl(m.mem, t, m.Free());
    TookNothing(t, |m.free|);
    RangeNext(Pages(sz), 0);
    ok, sz', t' := false, sz, t;
    if !s.readable { return; }
    if !s.load { return true, sz, t; }
    if s.memsz < s.filesz || (s.vaddr + s.memsz) % UINT64 < s.vaddr || s.vaddr % PGSIZE != 0 { return; }
    var perm, end := Flags2perm(s.flags), s.vaddr + s.memsz;
    var sz1;
    ghost var grown;
    sz1, t', grown := m.Uvmalloc(t, root, sz, end, perm);
    assert grown ==> end <= sz1;
    FillNone(old(Contents(m.mem, t)), Pages(sz), ZeroPage(perm));
    sz' := if sz1 == 0 then sz else sz1;
    GrownBuilding(old(m.mem), t, root, old(m.Free()), sz, tf, tramp, m.mem, t', m.Free(), sz',
                  if grown then Pages(sz1) - Pages(sz) else 0, perm);
    if sz1 == 0 { return; }
    ghost var mem1, free1, c1 := m.mem, m.Free(), Contents(m.mem, t');
    BelowSize(m.mem, t', sz1, s.vaddr, s.filesz % UINT32);
    TopIsKernel(t', tf, tramp);
    ghost var c2, n;
    ok, c2, n := Loadseg(m, t', c1, root, s.vaddr, file, s.off % UINT32, s.filesz % UINT32);
    ghost var src := Available(file, s.off % UINT32, s.filesz % UINT32);
    if ok {
      assert src[..n] == src && |src| == s.filesz % UINT32;
      NoWrap(s.vaddr, s.memsz);
    }
    StoreConserves(mem1, t', root, free1, m.mem);
    SameReadable(c1, c2, s.vaddr, Available(file, s.off % UINT32, s.filesz % UINT32)[..n]);
    ConservesTrans(old(m.mem), t, old(m.Free()), mem1, t', free1, m.mem, t', m.Free());
  }

  /** The stack set-up of kexec: a guard page that user code cannot touch and above it one
      page it can write. */
  method MakeStack(m: Machine, ghost t: Shape, root: nat, sz: nat, ghost tf: nat, ghost tramp: nat)
    returns (ok: bool, sz': nat, ghost t': Shape)
    requires m.Ok() && Building(m.mem, t, root, m.Free(), sz, tf, tramp)
    modifies m
    ensures m.Ok() && Image(m.mem, t', root, m.Free(), sz', tf, tramp)
    ensures SpaceOk(old(m.mem), t) && Conserves(old(m.mem), t, old(m.Free()), m.mem, t', m.Free())
    ensures ok ==> sz' == (Pages(sz) + 2) * PGSIZE && SpaceOk(m.mem, t')
    ensures ok ==> forall x: nat :: sz' - PGSIZE <= x < sz' ==> WritableAt(Contents(m.mem, t'), x)
    ensures ok ==> forall x: nat :: sz' - 2 * PGSIZE <= x < sz' - PGSIZE ==> !ReadableAt(Contents(m.mem, t'), x)
    ensures ok ==> SameBelow(old(Contents(m.mem, t)), Contents(m.mem, t'), Pages(sz))
    ensures if ok then TookTo(t, |old(m.free)|, t', |m.free|, sz, sz')
            else ShortOf(t, |old(m.free)|, sz, (Pages(sz) + 2) * PGSIZE)
  {
    hide SameBelow, Wf, LeavesOk, UserFrames, PagesOf, SpaceOk, Top, Pages, UserIs, SameTop, Fill, AllUser, Machine.Ok,
         ReadableAt, ZeroPage,
         PageRoundUp, WritableAt, ClearUser, Took, Short, Range;
    ConservesRefl(m.mem, t, m.Free());
    PagesBounds(sz);
    var base := PageRoundUp(sz);
    var sz1;
    ghost var grown;
    sz1, t', grown := m.Uvmalloc(t, root, base, base + (USERSTACK + 1) * PGSIZE, PTE_W);
    FillNone(old(Contents(m.mem, t)), Pages(base), ZeroPage(PTE_W));
    sz' := if sz1 == 0 then base else sz1;
    GrownBuilding(old(m.mem), t, root, old(m.Free()), base, tf, tramp, m.mem, t', m.Free(), sz',
                  if grown then Pages(sz1) - Pages(base) else 0, PTE_W);
    PagesExact(Pages(sz));
    PagesExact(Pages(sz) + 2);
    if sz1 == 0 { return false, sz', t'; }
    ghost var mem1, t1, free1, c1 := m.mem, t', m.Free(), Contents(m.mem, t');
    PagesBounds(sz1);
    assert Pages(base) == Pages(sz) && Pages(sz1) == Pages(sz) + 2;
    StackPages(m.mem, t1, old(Contents(m.mem, t)), Pages(sz));
    assert (sz1 - (USERSTACK + 1) * PGSIZE) / PGSIZE == Pages(sz);
    t' := Uvmclear(m, t1, c1, root, sz1 - (USERSTACK + 1) * PGSIZE);
    TookSame(t, |old(m.free)|, t1, t', |m.free|, Range(Pages(sz), 2), 2);
    ClearedStack(c1, Pages(sz));
    FillAbove(old(Contents(m.mem, t)), Pages(base), Pages(sz1) - Pages(base), ZeroPage(PTE_W));
    ChangedAt(c1, Pages(sz), UserPage(ClearUser(c1[Pages(sz)].flags), c1[Pages(sz)].bytes));
    SameBelowTrans(old(Contents(m.mem, t)), c1, Contents(m.mem, t'), Pages(sz), Pages(sz));
    ClearedImage(mem1, t1, root, free1, sz1, tf, tramp, m.mem, t', m.Free(), Pages(sz), ClearUser(t1.view[Pages(sz)]));
    ConservesTrans(old(m.mem), t, old(m.Free()), mem1, t1, free1, m.mem, t', m.Free());
    ok := true;
  }

  lemma PagesExact(k: nat)
    ensures Pages(k * PGSIZE) == k
  {
  }

  lemma StackPages(mem: Mem, t: Shape, c: Memory, v: nat)
    requires SpaceOk(mem, t) && Contents(mem, t) == Fill(c, v, 2, ZeroPage(PTE_W))
    ensures v in t.view && v < UTOP
    ensures v in Contents(mem, t) && Contents(mem, t)[v] == ZeroPage(PTE_W)
    ensures v + 1 in Contents(mem, t) && Contents(mem, t)[v + 1] == ZeroPage(PTE_W)
  {
    hide Wf, LeavesOk, UserFrames, PagesOf, ZeroPage;
    ContentsKeys(mem, t);
    FillStep(c, v, 1, ZeroPage(PTE_W));
    FillStep(c, v, 0, ZeroPage(PTE_W));
  }

  /** Rights around the guard page at page `v`. */
  lemma ClearedStack(c: Memory, v: nat)
    requires v in c && v + 1 in c && c[v] == c[v + 1] == ZeroPage(PTE_W)
    ensures var c' := c[v := UserPage(ClearUser(c[v].flags), c[v].bytes)];
            && (forall x: nat :: (v + 1) * PGSIZE <= x < (v + 2) * PGSIZE ==> WritableAt(c', x))
            && (forall x: nat :: v * PGSIZE <= x < (v + 1) * PGSIZE ==> !ReadableAt(c', x))
  {
    var c' := c[v := UserPage(ClearUser(c[v].flags), c[v].bytes)];
    forall x: nat | (v + 1) * PGSIZE <= x < (v + 2) * PGSIZE ensures WritableAt(c', x) {
      assert x / PGSIZE == v + 1;
    }
    ClearUserKeeps(c[v].flags);
    forall x: nat | v * PGSIZE <= x < (v + 1) * PGSIZE ensures !ReadableAt(c', x) {
      assert x / PGSIZE == v;
    }
  }

  lemma ClearedImage(mem: Mem, t: Shape, root: nat, free: set<nat>, sz: nat, tf: nat, tramp: nat,
                     mem': Mem, t': Shape, free': set<nat>, v: nat, pte: nat)
    requires Image(mem, t, root, free, sz, tf, tramp) && Conserves(mem, t, free, mem', t', free')
    requires v in t.view && v < UTOP && t'.view == t.view[v := pte]
    ensures Image(mem', t', root, free', sz, tf, tramp)
  {
    hide SpaceOk, Owned;
  }

  function Words(ps: seq<nat>): (b: seq<Byte>)
    ensures |b| == 8 * |ps|
  {
    if ps == [] then [] else Words(ps[..|ps| - 1]) + Le64(ps[|ps| - 1])
  }

  function Word(b: seq<Byte>, i: nat): (w: seq<Byte>)
    requires 8 * i + 8 <= |b|
    ensures |w| == 8
  {
    b[8 * i..8 * i + 8]
  }

  lemma {:induction false} WordsAt(ps: seq<nat>, i: nat)
    requires i < |ps| && ps[i] < UINT64
    ensures Number(Word(Words(ps), i)) == ps[i]
    decreases |ps|
  {
    hide Number, Le64;
    var rest, last := ps[..|ps| - 1], ps[|ps| - 1];
    assert Words(ps) == Words(rest) + Le64(last);
    if i == |ps| - 1 {
      assert Word(Words(ps), i) == Le64(last);
    } else {
      WordsAt(rest, i);
      assert Word(Words(ps), i) == Word(Words(rest), i);
    }
  }

  /** User code reads the number `x` at address `a`. */
  ghost predicate WordAt(c: Memory, a: nat, x: nat) {
    exists b: seq<Byte> :: ReadFrom(c, a, b) && |b| == 8 && Number(b) == x
  }

  /** The array of pointers at `sp`, with its NULL. */
  ghost predicate ArgvAt(c: Memory, sp: nat, ptrs: seq<nat>) {
    && (forall i :: 0 <= i < |ptrs| ==> WordAt(c, sp + 8 * i, ptrs[i]))
    && WordAt(c, sp + 8 * |ptrs|, 0)
  }

  lemma ReadPart(c: Memory, a: nat, bytes: seq<Byte>, i: nat, j: nat)
    requires ReadFrom(c, a, bytes) && i <= j <= |bytes|
    ensures ReadFrom(c, a + i, bytes[i..j])
  {
    hide ByteAt;
    var part := bytes[i..j];
    forall x: nat | a + i <= x < a + i + |part| ensures ReadableAt(c, x) && part[x - (a + i)] == bytes[x - a] {
      assert ReadableAt(c, x) && bytes[x - a] == ByteAt(c, x);
    }
  }

  lemma IsWord(c: Memory, a: nat, words: seq<Byte>, i: nat)
    requires ReadFrom(c, a, words) && 8 * i + 8 <= |words| && Number(Word(words, i)) >= 0
    ensures WordAt(c, a + 8 * i, Number(Word(words, i)))
  {
    hide ReadFrom, Number;
    ReadPart(c, a, words, 8 * i, 8 * i + 8);
  }

  lemma ReadWord(c: Memory, sp: nat, ps: seq<nat>, i: nat)
    requires ReadFrom(c, sp, Words(ps)) && i < |ps| && ps[i] < UINT64
    ensures WordAt(c, sp + 8 * i, ps[i])
  {
    hide Words, Number, ReadFrom, WordAt, Word;
    WordsAt(ps, i);
    IsWord(c, sp, Words(ps), i);
  }

  lemma ArgvIs(c: Memory, sp: nat, ptrs: seq<nat>, ps: seq<nat>)
    requires ReadFrom(c, sp, Words(ps)) && forall i :: 0 <= i < |ptrs| ==> ptrs[i] < UINT64
    requires |ps| == |ptrs| + 1 && ps[|ptrs|] == 0 && forall i :: 0 <= i < |ptrs| ==> ps[i] == ptrs[i]
    ensures ArgvAt(c, sp, ptrs)
  {
    hide ReadFrom, WordAt, Words;
    ReadWord(c, sp, ps, |ptrs|);
    forall i | 0 <= i < |ptrs| ensures WordAt(c, sp + 8 * i, ptrs[i]) {
      ReadWord(c, sp, ps, i);
    }
  }

  /** Every argument string is in memory where its pointer says, at or above `low`. */
  ghost predicate ArgsAt(c: Memory, ptrs: seq<nat>, args: seq<seq<Byte>>, low: nat) {
    |ptrs| <= |args| && forall i :: 0 <= i < |ptrs| ==> low <= ptrs[i] && ReadFrom(c, ptrs[i], args[i] + [0])
  }

  lemma ReadKept(c: Memory, c': Memory, a: nat, src: seq<Byte>, b: nat, bytes: seq<Byte>)
    requires Written(c, c', a, src) && ReadFrom(c, b, bytes) && a + |src| <= b
    ensures ReadFrom(c', b, bytes)
  {
    hide PteUser;
    forall x: nat | b <= x < b + |bytes| ensures ReadableAt(c', x) && bytes[x - b] == ByteAt(c', x) {
      assert ReadableAt(c, x) && x / PGSIZE in c';
    }
  }

  lemma ArgsKept(c: Memory, c': Memory, a: nat, src: seq<Byte>, ptrs: seq<nat>, args: seq<seq<Byte>>, low: nat,
                 low': nat)
    requires Written(c, c', a, src) && ArgsAt(c, ptrs, args, low) && a + |src| <= low && low' <= low
    ensures ArgsAt(c', ptrs, args, low')
  {
    hide Written, ReadFrom;
    forall i | 0 <= i < |ptrs| ensures ReadFrom(c', ptrs[i], args[i] + [0]) {
      ReadKept(c, c', a, src, ptrs[i], args[i] + [0]);
    }
  }

  lemma ArgPushed(c: Memory, c': Memory, sp: nat, ptrs: seq<nat>, args: seq<seq<Byte>>, low: nat)
    requires |ptrs| < |args| && ArgsAt(c, ptrs, args, low) && sp + |args[|ptrs|]| + 1 <= low
    requires Written(c, c', sp, args[|ptrs|] + [0])
    requires forall x: nat :: sp <= x < sp + |args[|ptrs|]| + 1 ==> WritableAt(c, x)
    ensures ArgsAt(c', ptrs + [sp], args, sp)
  {
    hide Written, ReadFrom, WritableAt;
    ArgsKept(c, c', sp, args[|ptrs|] + [0], ptrs, args, low, sp);
    CopyRoundTrip(c, c', sp, args[|ptrs|] + [0]);
  }

  lemma IsReadable(c: Memory, x: nat)
    requires WritableAt(c, x)
    ensures ReadableAt(c, x)
  {
  }

  /** User addresses fit a 64-bit word. */
  lemma AddressFits(mem: Mem, t: Shape, c: Memory, x: nat)
    requires Presents(mem, t, c) && ReadableAt(c, x)
    ensures x + 1 < UINT64
  {
    hide SpaceOk, PteUser;
    ContentsKeys(mem, t);
    assert x / PGSIZE < UTOP;
  }

  /** Space for `n` bytes below `sp`, 16-byte aligned. */
  function Push(sp: nat, n: nat): (r: int)
    ensures r <= sp - n && r % 16 == 0 && sp - n < r + 16
  {
    sp - n - (sp - n) % 16
  }

  /** The stack pointer after the first `k` arguments. */
  function Lowest(sz: nat, args: seq<seq<Byte>>, k: nat): int
    requires k <= |args|
  {
    if k == 0 then sz
    else
      var sp := Lowest(sz, args, k - 1);
      if sp < 0 then sp else Push(sp, |args[k - 1]| + 1)
  }

  /** The arguments and the array of pointers to them fit the stack page. */
  ghost predicate ArgsFit(sz: nat, args: seq<seq<Byte>>) {
    && (forall k :: 0 <= k <= |args| ==> Lowest(sz, args, k) >= sz - PGSIZE)
    && (Lowest(sz, args, |args|) >= 0 ==> Push(Lowest(sz, args, |args|), 8 * (|args| + 1)) >= sz - PGSIZE)
  }

  /** The argv array, below the strings. */
  method PushArray(m: Machine, ghost t: Shape, ghost c: Memory, root: nat, sp: nat, base: nat, ghost sz: nat,
                   ptrs: seq<nat>, ghost args: seq<seq<Byte>>)
    returns (ok: bool, sp': nat, ghost c': Memory)
    requires m.Ok() && At(m.mem, t, root, m.Free()) && Presents(m.mem, t, c) && KernelTop(t)
    requires base <= sp <= sz < UINT64 && forall x: nat :: base <= x < sz ==> WritableAt(c, x)
    requires ArgsAt(c, ptrs, args, sp) && forall i :: 0 <= i < |ptrs| ==> ptrs[i] < sz
    modifies m
    ensures m.Ok() && m.free == old(m.free) && At(m.mem, t, root, m.Free()) && Presents(m.mem, t, c')
    ensures Keeps(old(m.mem), m.mem, UserFrames(t.view))
    ensures ok <==> Push(sp, 8 * (|ptrs| + 1)) >= base
    ensures ok ==> sp' == Push(sp, 8 * (|ptrs| + 1)) && ArgsAt(c', ptrs, args, sp') && ArgvAt(c', sp', ptrs)
    ensures ok ==> SameBelow(c, c', base / PGSIZE)
  {
    hide SameBelow, Wf, LeavesOk, UserFrames, PagesOf, SpaceOk, Machine.Ok, ReadableAt, WritableAt, Written, ReadFrom,
         At, Words, KernelTop, ArgvAt;
    var words := Words(ptrs + [0]);
    var sp1 := Push(sp, |words|);
    sp', c' := sp, c;
    WrittenNothing(m.mem, t, c, sp);
    if sp1 < base { return false, sp', c'; }
    ghost var n;
    ok, c', n := Copyout(m, t, c, root, sp1, words);
    assert words[..n] == words;
    assert base / PGSIZE * PGSIZE <= base;
    WrittenAbove(c, c', sp1, words, base / PGSIZE);
    ArgsKept(c, c', sp1, words, ptrs, args, sp, sp1);
    CopyRoundTrip(c, c', sp1, words);
    ArgvIs(c', sp1, ptrs, ptrs + [0]);
    sp' := sp1;
  }

  /** The argument loop of kexec and the argv array after it: on success the strings and,
      at `sp`, the null-terminated array of their addresses are in the new stack. */
  method PushArgs(m: Machine, ghost t: Shape, ghost c: Memory, root: nat, sz: nat, args: seq<seq<Byte>>)
    returns (ok: bool, sp: nat, ptrs: seq<nat>, ghost c': Memory)
    requires m.Ok() && At(m.mem, t, root, m.Free()) && Presents(m.mem, t, c) && KernelTop(t)
    requires sz >= 2 * PGSIZE && forall x: nat :: sz - PGSIZE <= x < sz ==> WritableAt(c, x)
    requires |args| < 32 && forall a :: a in args ==> |a| < PGSIZE
    modifies m
    ensures m.Ok() && m.free == old(m.free) && At(m.mem, t, root, m.Free()) && Presents(m.mem, t, c')
    ensures Keeps(old(m.mem), m.mem, UserFrames(t.view))
    ensures ok ==> |ptrs| == |args| && sp % 16 == 0 && sp < sz && ArgsAt(c', ptrs, args, sp) && ArgvAt(c', sp, ptrs)
    ensures ok ==> SameBelow(c, c', (sz - PGSIZE) / PGSIZE)
    ensures ok == ArgsFit(sz, args)
  {
    hide SameBelow, Wf, LeavesOk, UserFrames, PagesOf, SpaceOk, Machine.Ok, ReadableAt, WritableAt, Written, ReadFrom,
         At, Words, KernelTop, ArgvAt;
    sp, ptrs, c' := sz, [], c;
    ghost var n;
    WrittenNothing(m.mem, t, c, sp);
    var base := sz - PGSIZE;
    assert sz < UINT64 by {
      assert WritableAt(c, sz - 1);
      IsReadable(c, sz - 1);
      AddressFits(m.mem, t, c, sz - 1);
    }
    ghost var mem1, low := m.mem, base / PGSIZE;
    assert low * PGSIZE <= base;
    SameBelowRefl(c, low);
    while |ptrs| < |args|
      invariant |ptrs| <= |args| && base <= sp <= sz && sp == Lowest(sz, args, |ptrs|)
      invariant forall k :: 0 <= k <= |ptrs| ==> Lowest(sz, args, k) >= base
      invariant forall i :: 0 <= i < |ptrs| ==> ptrs[i] < sz
      invariant m.Ok() && m.free == old(m.free) && At(m.mem, t, root, m.Free()) && Presents(m.mem, t, c')
      invariant Keeps(old(m.mem), m.mem, UserFrames(t.view))
      invariant forall x: nat :: base <= x < sz ==> WritableAt(c', x)
      invariant ArgsAt(c', ptrs, args, sp) && SameBelow(c, c', low)
      decreases |args| - |ptrs|
    {
      var arg := args[|ptrs|];
      var sp1 := Push(sp, |arg| + 1);
      assert sp1 == Lowest(sz, args, |ptrs| + 1);
      if sp1 < base { return false, sp, ptrs, c'; }
      ghost var c1 := c';
      mem1 := m.mem;
      ok, c', n := Copyout(m, t, c1, root, sp1, arg + [0]);
      KeepsTrans(old(m.mem), mem1, m.mem, UserFrames(t.view), UserFrames(t.view));
      if !ok { return false, sp, ptrs, c'; }
      assert (arg + [0])[..n] == arg + [0];
      WrittenAbove(c1, c', sp1, arg + [0], low);
      SameBelowTrans(c, c1, c', low, low);
      ArgPushed(c1, c', sp1, ptrs, args, sp);
      SameAccess(c1, c', sp1, arg + [0]);
      sp, ptrs := sp1, ptrs + [sp1];
    }
    ghost var c1 := c';
    mem1 := m.mem;
    var sp1;
    ok, sp1, c' := PushArray(m, t, c1, root, sp, base, sz, ptrs, args);
    KeepsTrans(old(m.mem), mem1, m.mem, UserFrames(t.view), UserFrames(t.view));
    if !ok { return false, sp, ptrs, c'; }
    SameBelowTrans(c, c1, c', low, low);
    sp := sp1;
  }

  /** How many pages the image of `n` user pages takes, with its tables. */
  ghost function ImagePages(n: nat): nat { n + |TopNodes() + Paths(Range(0, n))| }

  /** An image can be built: every header is sound and the file long enough, the arguments fit, and
      there are free pages for the pages of the image and its tables. */
  ghost predicate Buildable(phs: seq<Segment>, file: seq<Byte>, args: seq<seq<Byte>>, free: nat) {
    var n := Pages(SizeOf(phs, |phs|)) + 2;
    ProgramSound(phs, file) && ArgsFit(n * PGSIZE, args) && free >= ImagePages(n)
  }

  lemma RangeJoin(v: nat, j: nat, k: nat)
    ensures Range(v, j) + Range(v + j, k) == Range(v, j + k)
  {
  }

  /** The first `m` bytes' pages and then those up to `sz'`. */
  lemma TookOn(t: Shape, n: nat, t1: Shape, n1: nat, t2: Shape, n2: nat, sz: nat, sz': nat)
    requires Took(t, n, t1, n1, Range(0, Pages(sz)), Pages(sz)) && TookTo(t1, n1, t2, n2, sz, sz')
    ensures Took(t, n, t2, n2, Range(0, Pages(sz')), Pages(sz'))
  {
    hide Took, Pages, Range;
    var d := Pages(sz') - Pages(sz);
    RangeJoin(0, Pages(sz), d);
    TookMore(t, n, t1, n1, t2, n2, Range(0, Pages(sz)), Pages(sz), Range(Pages(sz), d), d);
  }

  lemma ShortImage(t: Shape, n: nat, all: nat)
    requires Short(t, n, Range(0, all), all) && t.node.Keys == TopNodes()
    ensures n + 3 < ImagePages(all)
  {
    hide Range, Paths, TopNodes;
  }

  lemma RangesWithin(p: nat, d: nat, all: nat)
    requires p + d <= all
    ensures Range(0, p) + Range(p, d) <= Range(0, all)
  {
  }

  /** Pages that ran out on the way from `p` pages to `p + d` do not suffice for `all` or more. */
  lemma TooFewPages(t: Shape, n: nat, t1: Shape, n1: nat, p: nat, d: nat, all: nat)
    requires Took(t, n, t1, n1, Range(0, p), p) && Short(t1, n1, Range(p, d), d) && p + d <= all
    requires t.node.Keys == TopNodes()
    ensures n + 3 < ImagePages(all)
  {
    hide Took, Short, ImagePages, TopNodes, Range;
    RangesWithin(p, d, all);
    ShortLater(t, n, t1, n1, Range(0, p), p, Range(p, d), d, Range(0, all), all);
    ShortImage(t, n, all);
  }

  lemma TooFew(t: Shape, n: nat, t1: Shape, n1: nat, sz: nat, sz': nat, all: nat)
    requires Took(t, n, t1, n1, Range(0, Pages(sz)), Pages(sz)) && ShortOf(t1, n1, sz, sz') && Pages(sz') <= all
    requires t.node.Keys == TopNodes()
    ensures n + 3 < ImagePages(all)
  {
    hide Took, Short, ImagePages, TopNodes, Range, Pages;
    TooFewPages(t, n, t1, n1, Pages(sz), Pages(sz') - Pages(sz), all);
  }

  /** An image that was made had the pages it needs. */
  lemma Sufficed(t: Shape, n: nat, t': Shape, n': nat, all: nat)
    requires Took(t, n, t', n', Range(0, all), all) && t.node.Keys == TopNodes()
    ensures n + 3 >= ImagePages(all)
  {
    hide Range, Paths, TopNodes;
  }

  lemma AtLeastTop(n: nat)
    ensures ImagePages(n) >= n + 3
  {
    SubsetSize(TopNodes(), TopNodes() + Paths(Range(0, n)));
  }

  ghost predicate SoundTo(phs: seq<Segment>, file: seq<Byte>, n: nat) {
    forall i :: 0 <= i < n && i < |phs| ==> SegSound(phs[i], SizeOf(phs, i), file)
  }

  lemma SoundNext(phs: seq<Segment>, file: seq<Byte>, i: nat)
    requires i < |phs|
    ensures SoundTo(phs, file, i) && SegSound(phs[i], SizeOf(phs, i), file) ==> SoundTo(phs, file, i + 1)
  {
    hide SegSound, SizeOf;
  }

  lemma UnsoundAt(phs: seq<Segment>, file: seq<Byte>, i: nat)
    requires i < |phs|
    ensures Pages(SizeOf(phs, i)) <= Pages(SizeOf(phs, i + 1)) <= Pages(SizeOf(phs, |phs|))
    ensures !SegSound(phs[i], SizeOf(phs, i), file) ==> !ProgramSound(phs, file)
    ensures SizeOf(phs, i + 1) == SegEnd(phs[i], SizeOf(phs, i))
  {
    hide SegSound;
    SizesGrow(phs, i, |phs|);
    SizesGrow(phs, i + 1, |phs|);
    PagesMono(SizeOf(phs, i), SizeOf(phs, i + 1));
    PagesMono(SizeOf(phs, i + 1), SizeOf(phs, |phs|));
  }

  lemma {:induction false} SizesGrow(phs: seq<Segment>, i: nat, j: nat)
    requires i <= j <= |phs|
    ensures SizeOf(phs, i) <= SizeOf(phs, j)
    decreases j
  {
    if i < j { SizesGrow(phs, i, j - 1); }
  }

  lemma PagesMono(a: nat, b: nat)
    requires a <= b
    ensures Pages(a) <= Pages(b)
  {
  }

  lemma StartBuilding(mem: Mem, t: Shape, root: nat, free: set<nat>, tf: nat, tramp: nat)
    requires At(mem, t, root, free) && UserIs(t, 0) && Top(t, tf, tramp)
    ensures Building(mem, t, root, free, 0, tf, tramp)
  {
    hide Wf, LeavesOk, UserFrames, PagesOf, Top;
    ContentsKeys(mem, t);
  }

  lemma StartLoading(phs: seq<Segment>, file: seq<Byte>, mem: Mem, t: Shape, root: nat, free: set<nat>, tf: nat,
                     tramp: nat, n: nat)
    requires Building(mem, t, root, free, 0, tf, tramp)
    ensures SpaceOk(mem, t) && LoadedBy(phs, 0, file, Contents(mem, t), 0) && Conserves(mem, t, free, mem, t, free)
    ensures Took(t, n, t, n, Range(0, Pages(0)), Pages(0))
  {
    hide Wf, LeavesOk, UserFrames, PagesOf, Top;
    ContentsKeys(mem, t);
    ConservesRefl(mem, t, free);
    TookNothing(t, n);
    RangeNext(0, 0);
  }

  lemma OneLoaded(phs: seq<Segment>, i: nat, file: seq<Byte>, c: Memory, sz: nat, c': Memory, sz': nat)
    requires i < |phs| && LoadedBy(phs, i, file, c, sz) && SegLoaded(c, sz, phs[i], file, c', sz')
    ensures LoadedBy(phs, i + 1, file, c', sz')
  {
    hide SegLoaded;
    assert phs[i + 1 - 1] == phs[i];
  }

  lemma ProgramIs(phs: seq<Segment>, file: seq<Byte>, c0: Memory, sz: nat, c: Memory)
    requires LoadedBy(phs, |phs|, file, c0, sz) && SameBelow(c0, c, Pages(sz))
    ensures HasProgram(c, phs, file)
  {
    hide LoadedBy, SameBelow;
  }

  /** The program is in memory, and the arguments are where a0 and a1 say they are. */
  ghost predicate LoadedIn(c: Memory, ptrs: seq<nat>, args: seq<seq<Byte>>, sp: nat, phs: seq<Segment>,
                           file: seq<Byte>)
  {
    && |ptrs| == |args| && sp % 16 == 0 && HasProgram(c, phs, file)
    && ArgsAt(c, ptrs, args, sp) && ArgvAt(c, sp, ptrs)
  }

  ghost predicate Loaded(mem: Mem, t: Shape, ptrs: seq<nat>, args: seq<seq<Byte>>, sp: nat, phs: seq<Segment>,
                         file: seq<Byte>)
  {
    SpaceOk(mem, t) && LoadedIn(Contents(mem, t), ptrs, args, sp, phs, file)
  }

  /** The stack pointer fits a 64-bit word. */
  lemma StackFits(mem: Mem, t: Shape, ptrs: seq<nat>, args: seq<seq<Byte>>, sp: nat, phs: seq<Segment>, file: seq<Byte>)
    requires Loaded(mem, t, ptrs, args, sp, phs, file)
    ensures sp < UINT64
  {
    hide SpaceOk, Contents, ArgsAt, HasProgram, Number;
    var c, a := Contents(mem, t), sp + 8 * |ptrs|;
    assert WordAt(c, a, 0);
    var b: seq<Byte> :| ReadFrom(c, a, b) && |b| == 8 && Number(b) == 0;
    assert ReadableAt(c, a);
    AddressFits(mem, t, c, a);
  }

  lemma IsLoaded(mem: Mem, t: Shape, c: Memory, ptrs: seq<nat>, args: seq<seq<Byte>>, sp: nat, phs: seq<Segment>,
                 file: seq<Byte>)
    requires Presents(mem, t, c) && |ptrs| == |args| && sp % 16 == 0 && HasProgram(c, phs, file)
    requires ArgsAt(c, ptrs, args, sp) && ArgvAt(c, sp, ptrs)
    ensures Loaded(mem, t, ptrs, args, sp, phs, file)
  {
    hide SpaceOk, Contents, ArgsAt, ArgvAt, HasProgram;
  }

  /** The loop of kexec over the program headers. */
  method LoadAll(m: Machine, ghost t0: Shape, root: nat, phs: seq<Segment>, file: seq<Byte>, ghost tf: nat,
                 ghost tramp: nat)
    returns (ok: bool, sz: nat, ghost t: Shape)
    requires m.Ok() && Building(m.mem, t0, root, m.Free(), 0, tf, tramp) && t0.node.Keys == TopNodes()
    requires |file| <= MAXFILE_BYTES && forall s :: s in phs ==> s.vaddr < UINT64 && s.memsz < UINT64
    modifies m
    ensures m.Ok() && Building(m.mem, t, root, m.Free(), sz, tf, tramp)
    ensures SpaceOk(old(m.mem), t0) && Conserves(old(m.mem), t0, old(m.Free()), m.mem, t, m.Free())
    ensures ok ==> SpaceOk(m.mem, t) && LoadedBy(phs, |phs|, file, Contents(m.mem, t), sz)
    ensures ok ==> ProgramSound(phs, file) && sz == SizeOf(phs, |phs|)
    ensures ok ==> Took(t0, |old(m.free)|, t, |m.free|, Range(0, Pages(sz)), Pages(sz))
    ensures !ok ==> !ProgramSound(phs, file) || |old(m.free)| + 3 < ImagePages(Pages(SizeOf(phs, |phs|)) + 2)
  {
    hide SegSound, SegEnd, Wf, LeavesOk, UserFrames, PagesOf, SpaceOk, Top, Pages, UserIs, Machine.Ok, SegLoaded,
         LoadedBy, Took, Range, TookTo, ShortOf, ImagePages, TopNodes, Building;
    sz, t, ok := 0, t0, true;
    ghost var mem1, t1, free1, n1;
    var i := 0;
    StartLoading(phs, file, m.mem, t, root, m.Free(), tf, tramp, |m.free|);
    while ok && i < |phs|
      invariant 0 <= i <= |phs| && SpaceOk(m.mem, t) && (ok ==> LoadedBy(phs, i, file, Contents(m.mem, t), sz))
      invariant ok ==> sz == SizeOf(phs, i) && SoundTo(phs, file, i)
      invariant ok ==> Took(t0, |old(m.free)|, t, |m.free|, Range(0, Pages(sz)), Pages(sz))
      invariant !ok ==> !ProgramSound(phs, file) || |old(m.free)| + 3 < ImagePages(Pages(SizeOf(phs, |phs|)) + 2)
      invariant m.Ok() && Conserves(old(m.mem), t0, old(m.Free()), m.mem, t, m.Free())
      invariant Building(m.mem, t, root, m.Free(), sz, tf, tramp)
      decreases |phs| - i
    {
      mem1, t1, free1, n1 := m.mem, t, m.Free(), |m.free|;
      ghost var sz1 := sz;
      ok, sz, t := LoadSegment(m, t1, root, sz, file, phs[i], tf, tramp);
      UnsoundAt(phs, file, i);
      SoundNext(phs, file, i);
      ConservesTrans(old(m.mem), t0, old(m.Free()), mem1, t1, free1, m.mem, t, m.Free());
      if ok {
        OneLoaded(phs, i, file, Contents(mem1, t1), sz1, Contents(m.mem, t), sz);
        TookOn(t0, |old(m.free)|, t1, n1, t, |m.free|, sz1, sz);
      } else if SegSound(phs[i], sz1, file) {
        TooFew(t0, |old(m.free)|, t1, n1, sz1, SegEnd(phs[i], sz1), Pages(SizeOf(phs, |phs|)) + 2);
      }
      i := i + 1;
    }
  }

  /** kexec between the ELF header and the commit point: build a complete image from pages
      of the free list, or put every one of them back. */
  method BuildImage(m: Machine, tramp: nat, tf: nat, phs: seq<Segment>, file: seq<Byte>, args: seq<seq<Byte>>)
    returns (ok: bool, root: nat, sz: nat, sp: nat, ptrs: seq<nat>, ghost t: Shape)
    requires m.Ok() && |file| <= MAXFILE_BYTES
    requires forall s :: s in phs ==> s.vaddr < UINT64 && s.memsz < UINT64
    requires |args| < 32 && forall a :: a in args ==> |a| < PGSIZE
    modifies m
    ensures m.Ok() && Keeps(old(m.mem), m.mem, old(m.Free()))
    ensures !ok ==> m.Free() == old(m.Free())
    ensures ok ==> Image(m.mem, t, root, m.Free(), sz, tf, tramp) && Owned(t) + m.Free() == old(m.Free())
    ensures ok ==> Loaded(m.mem, t, ptrs, args, sp, phs, file) && sz == (Pages(SizeOf(phs, |phs|)) + 2) * PGSIZE
    ensures ok <==> Buildable(phs, file, args, |old(m.free)|)
  {
    hide Lowest, ArgsFit, Wf, LeavesOk, UserFrames, PagesOf, SpaceOk, Top, Pages, UserIs, Machine.Ok, ArgsAt, ReadFrom,
         WritableAt, ReadableAt, Loaded, KernelTop, SameBelow, HasProgram, LoadedBy, ProgramSound, Took, Range, TookTo,
         ShortOf, ImagePages, TopNodes, ArgvAt;
    sz, sp, ptrs := 0, 0, [];
    root, t := ProcPagetable(m, tramp, tf);
    ghost var all := Pages(SizeOf(phs, |phs|)) + 2;
    AtLeastTop(all);
    if root == 0 { return false, root, sz, sp, ptrs, t; }
    ghost var t0, mem0, free0, n0 := t, m.mem, m.Free(), |m.free|;
    StartBuilding(m.mem, t, root, m.Free(), tf, tramp);
    ok, sz, t := LoadAll(m, t0, root, phs, file, tf, tramp);
    ghost var mem1, t1, free1, n1 := m.mem, t, m.Free(), |m.free|;
    ghost var c0, sz0: nat := Contents(m.mem, t), sz;
    if ok {
      ok, sz, t := MakeStack(m, t1, root, sz, tf, tramp);
      ConservesTrans(mem0, t0, free0, mem1, t1, free1, m.mem, t, m.Free());
      PagesExact(all);
      if ok {
        TookOn(t0, n0, t1, n1, t, |m.free|, sz0, sz);
        Sufficed(t0, n0, t, |m.free|, all);
      } else {
        TooFew(t0, n0, t1, n1, sz0, all * PGSIZE, all);
      }
    }
    if ok {
      mem1, free1 := m.mem, m.Free();
      TopIsKernel(t, tf, tramp);
      ghost var c;
      ghost var c1 := Contents(m.mem, t);
      ok, sp, ptrs, c := PushArgs(m, t, c1, root, sz, args);
      StoreConserves(mem1, t, root, free1, m.mem);
      ConservesTrans(mem0, t0, free0, mem1, t, free1, m.mem, t, m.Free());
      if ok {
        assert (sz - PGSIZE) / PGSIZE == Pages(sz0) + 1;
        SameBelowTrans(c0, c1, c, Pages(sz0), Pages(sz0) + 1);
        ProgramIs(phs, file, c0, sz0, c);
        IsLoaded(m.mem, t, c, ptrs, args, sp, phs, file);
      }
    }
    if !ok {
      ProcFreepagetable(m, t, root, sz, tf, tramp);
    }
    KeepsTrans(old(m.mem), mem0, m.mem, old(m.Free()), Owned(t0) + free0);
  }
}
