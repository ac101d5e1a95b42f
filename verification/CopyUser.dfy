/** Moving bytes across the user/kernel boundary (kernel/mm/vm.c: walkaddr, uvmclear,
    copyout, copyin, copyinstr), stated on the memory a process sees. */
module CopyUser {
  import opened Sv39
  import opened PageTable
  import opened Space
  import opened Vm
  import opened MachineWords

  type Memory = map<nat, UserPage>

  ghost predicate Sized(c: Memory) {
    forall v :: v in c ==> |c[v].bytes| == PGSIZE
  }

  ghost predicate ReadableAt(c: Memory, x: nat) {
    x / PGSIZE in c && PteUser(c[x / PGSIZE].flags)
  }

  ghost predicate WritableAt(c: Memory, x: nat) {
    ReadableAt(c, x) && PteWrite(c[x / PGSIZE].flags)
  }

  ghost function ByteAt(c: Memory, x: nat): Byte
    requires Sized(c) && x / PGSIZE in c
  {
    c[x / PGSIZE].bytes[x % PGSIZE]
  }

  /** `c'` is `c` with the bytes of `src` at address `a` and nothing else changed. */
  ghost predicate Written(c: Memory, c': Memory, a: nat, src: seq<Byte>) {
    && Sized(c) && Sized(c') && c'.Keys == c.Keys
    && (forall v :: v in c ==> c'[v].flags == c[v].flags)
    && (forall x: nat :: x / PGSIZE in c ==>
          ByteAt(c', x) == if a <= x < a + |src| then src[x - a] else ByteAt(c, x))
  }

  ghost predicate ReadFrom(c: Memory, a: nat, bytes: seq<Byte>) {
    && Sized(c)
    && (forall x: nat :: a <= x < a + |bytes| ==> ReadableAt(c, x) && bytes[x - a] == ByteAt(c, x))
  }

  /** Nothing above user memory is accessible to user code. */
  ghost predicate KernelTop(t: Shape) {
    forall v :: v in t.view && UTOP <= v ==> !PteUser(t.view[v])
  }

  /** What copyout wrote, copyin reads back, whatever page boundaries the range crosses. */
  lemma CopyRoundTrip(c: Memory, c': Memory, a: nat, src: seq<Byte>)
    requires Written(c, c', a, src) && forall x: nat :: a <= x < a + |src| ==> WritableAt(c, x)
    ensures ReadFrom(c', a, src)
  {
    forall x: nat | a <= x < a + |src| ensures ReadableAt(c', x) && src[x - a] == ByteAt(c', x) {
      assert WritableAt(c, x);
      assert x / PGSIZE in c';
    }
  }

  ghost function Splice(b: seq<Byte>, off: nat, chunk: seq<Byte>): seq<Byte>
    requires off + |chunk| <= |b|
  {
    b[..off] + chunk + b[off + |chunk|..]
  }

  lemma ContentsSized(mem: Mem, t: Shape)
    requires SpaceOk(mem, t)
    ensures Sized(Contents(mem, t))
  {
    forall v | v in Contents(mem, t) ensures |Contents(mem, t)[v].bytes| == PGSIZE {
      assert LeafOk(mem, Nodes(t), t.view[v]);
    }
  }

  /** Replacing the bytes behind one user page. */
  lemma StoreOk(mem: Mem, t: Shape, c: Memory, v: nat, data: seq<Byte>)
    requires Presents(mem, t, c) && v in t.view && v < UTOP && |data| == PGSIZE
    ensures Presents(mem[PteFrame(t.view[v]) := Data(data)], t, c[v := UserPage(PteFlags(t.view[v]), data)])
  {
    hide Wf, PteFlags, PteFrame, PteLeaf;
    var w, f := t.view, PteFrame(t.view[v]);
    var mem' := mem[f := Data(data)];
    LeavesDisjoint(mem, Nodes(t), w);
    NodesInMem(mem, t);
    assert LeafOk(mem, Nodes(t), w[v]);
    assert f in UserFrames(w);
    WfFrame(mem, mem', t);
    forall u | u in w && u < UTOP ensures LeafOk(mem', Nodes(t), w[u]) {
      assert LeafOk(mem, Nodes(t), w[u]);
    }
  }

  /** One page of a copyout, as a change of the process's memory. */
  lemma WrittenPage(c0: Memory, c: Memory, a: nat, src: seq<Byte>, d: nat, chunk: seq<Byte>)
    requires d + |chunk| <= |src| && src[d..d + |chunk|] == chunk && Written(c0, c, a, src[..d])
    requires (a + d) % PGSIZE + |chunk| <= PGSIZE && (a + d) / PGSIZE in c
    ensures var v := (a + d) / PGSIZE;
            var c' := c[v := UserPage(c[v].flags, Splice(c[v].bytes, (a + d) % PGSIZE, chunk))];
            Written(c0, c', a, src[..d + |chunk|])
  {
    var v, off := (a + d) / PGSIZE, (a + d) % PGSIZE;
    var c' := c[v := UserPage(c[v].flags, Splice(c[v].bytes, off, chunk))];
    assert a + d == v * PGSIZE + off;
    forall x: nat | x / PGSIZE in c0
      ensures ByteAt(c', x) == if a <= x < a + d + |chunk| then src[x - a] else ByteAt(c0, x)
    {
      assert x == x / PGSIZE * PGSIZE + x % PGSIZE;
      assert ByteAt(c, x) == if a <= x < a + d then src[..d][x - a] else ByteAt(c0, x);
      if x / PGSIZE == v {
        assert off <= x % PGSIZE < off + |chunk| ==> src[x - a] == chunk[x % PGSIZE - off];
      }
    }
  }

  /** walkaddr: the frame behind a user-accessible page, or 0. */
  method Walkaddr(m: Machine, ghost t: Shape, ghost c: Memory, root: nat, va: nat) returns (f: nat)
    requires m.Ok() && At(m.mem, t, root, m.Free()) && Presents(m.mem, t, c) && KernelTop(t)
    modifies m
    ensures m.Ok() && m.mem == old(m.mem) && m.free == old(m.free)
    ensures f != 0 <==> ReadableAt(c, va)
    ensures f != 0 ==> va / PGSIZE < UTOP && va / PGSIZE in t.view && f == PteFrame(t.view[va / PGSIZE])
  {
    hide Wf, LeavesOk, UserFrames, PagesOf, PteFlags, PteFrame, PteValid;
    ghost var v := va / PGSIZE;
    ContentsKeys(m.mem, t);
    if va >= MAXVA { return 0; }
    var ok, n, same := m.Walk(t, root, va, false);
    if !ok {
      Unmapped(m.mem, t, v);
      return 0;
    }
    var pte := m.LeafEntry(t, n, va / PGSIZE);
    if !PteValid(pte) { return 0; }
    assert PteUser(pte) <==> PteUser(PteFlags(pte)) by { FlagsOfFlags(pte); }
    if !PteUser(pte) { return 0; }
    LeafFacts(m.mem, t, v);
    return PteFrame(pte);
  }

  lemma FlagsOfFlags(pte: nat)
    ensures PteFlags(PteFlags(pte)) == PteFlags(pte)
    ensures PteUser(PteFlags(pte)) == PteUser(pte) && PteWrite(PteFlags(pte)) == PteWrite(pte)
  {
    Split(0, PteFlags(pte));
  }

  lemma WrittenNothing(mem: Mem, t: Shape, c: Memory, a: nat)
    requires Presents(mem, t, c)
    ensures Written(c, c, a, []) && KeepsAll(mem)
  {
    hide Wf, LeavesOk, PagesOf;
    ContentsSized(mem, t);
  }

  ghost predicate KeepsAll(mem: Mem) { forall s: set<nat> :: Keeps(mem, mem, s) }

  /** Access rights are those of before the copy. */
  lemma SameAccess(c: Memory, c': Memory, a: nat, src: seq<Byte>)
    requires Written(c, c', a, src)
    ensures forall x: nat :: WritableAt(c', x) <==> WritableAt(c, x)
  {
    forall x: nat ensures WritableAt(c', x) <==> WritableAt(c, x) {
      assert x / PGSIZE in c <==> x / PGSIZE in c';
    }
  }

  /** The bytes of one page share their access rights. */
  lemma SamePage(c: Memory, va: nat, n: nat)
    requires va % PGSIZE + n <= PGSIZE
    ensures forall x: nat :: va <= x < va + n ==> WritableAt(c, x) == WritableAt(c, va)
    ensures forall x: nat :: va <= x < va + n ==> ReadableAt(c, x) == ReadableAt(c, va)
  {
    forall x: nat | va <= x < va + n ensures x / PGSIZE == va / PGSIZE {
      assert va == va / PGSIZE * PGSIZE + va % PGSIZE;
    }
  }

  /** How much of a transfer of `len` bytes fits on the page of `va`. */
  function ChunkLen(va: nat, len: nat): (n: nat)
    ensures va % PGSIZE + n <= PGSIZE && n <= len && (len > 0 ==> n > 0)
    ensures n == len || (va + n) % PGSIZE == 0
  {
    var room := PGSIZE - (va - PageRoundDown(va));
    assert va - PageRoundDown(va) == va % PGSIZE;
    assert va + room == (va / PGSIZE + 1) * PGSIZE;
    if room > len then len else room
  }

  /** The memmove of copyout into the frame of page `v`. */
  method Store(m: Machine, ghost t: Shape, ghost c: Memory, ghost root: nat, ghost v: nat, f: nat, off: nat,
               chunk: seq<Byte>)
    returns (ghost c': Memory)
    requires m.Ok() && At(m.mem, t, root, m.Free()) && Presents(m.mem, t, c) && v in t.view && v < UTOP
    requires f == PteFrame(t.view[v]) && off + |chunk| <= PGSIZE
    modifies m
    ensures m.Ok() && m.free == old(m.free) && At(m.mem, t, root, m.Free()) && Presents(m.mem, t, c')
    ensures Keeps(old(m.mem), m.mem, UserFrames(t.view)) && v in c && |c[v].bytes| == PGSIZE
    ensures c' == c[v := UserPage(c[v].flags, Splice(c[v].bytes, off, chunk))]
  {
    hide Wf, LeavesOk, UserFrames, PagesOf, PteFlags, PteFrame;
    ContentsSized(m.mem, t);
    LeafFacts(m.mem, t, v);
    assert f !in m.Free();
    m.mem := m.mem[f := Data(m.mem[f].b[..off] + chunk + m.mem[f].b[off + |chunk|..])];
    StoreOk(old(m.mem), t, c, v, Splice(c[v].bytes, off, chunk));
    c' := c[v := UserPage(c[v].flags, Splice(c[v].bytes, off, chunk))];
  }

  /** One iteration of copyout. */
  method CopyoutPage(m: Machine, ghost t: Shape, ghost c: Memory, root: nat, va: nat, src: seq<Byte>)
    returns (ok: bool, n: nat, ghost c': Memory)
    requires m.Ok() && At(m.mem, t, root, m.Free()) && Presents(m.mem, t, c) && KernelTop(t) && src != []
    modifies m
    ensures m.Ok() && m.free == old(m.free) && At(m.mem, t, root, m.Free()) && Presents(m.mem, t, c')
    ensures Keeps(old(m.mem), m.mem, UserFrames(t.view))
    ensures n == ChunkLen(va, |src|) && Sized(c)
    ensures ok <==> WritableAt(c, va)
    ensures ok ==> va / PGSIZE in c
    ensures ok ==>
              c' == c[va / PGSIZE := UserPage(c[va / PGSIZE].flags,
                                              Splice(c[va / PGSIZE].bytes, va % PGSIZE, src[..n]))]
    ensures !ok ==> c' == c
  {
    hide Wf, LeavesOk, UserFrames, PagesOf, PteFlags, PteFrame, PteValid, PteUser, PteWrite;
    c', n := c, ChunkLen(va, |src|);
    ContentsSized(m.mem, t);
    var va0 := PageRoundDown(va);
    assert va0 / PGSIZE == va / PGSIZE;
    if va0 >= MAXVA {
      ContentsKeys(m.mem, t);
      return false, n, c;
    }
    var f := Walkaddr(m, t, c, root, va0);
    if f == 0 { return false, n, c; }
    ghost var v := va / PGSIZE;
    LeafFacts(m.mem, t, v);
    var has, tab, same := m.Walk(t, root, va0, false);
    if !has {
      Unmapped(m.mem, t, v);
      assert false;
    }
    var pte := m.LeafEntry(t, tab, va0 / PGSIZE);
    FlagsOfFlags(pte);
    if !PteWrite(pte) { return false, n, c; }
    c' := Store(m, t, c, root, v, f, va - va0, src[..n]);
    return true, n, c';
  }

  /** copyout: writes the longest prefix of `src` whose target bytes all lie on pages the user
      may write. */
  method Copyout(m: Machine, ghost t: Shape, ghost c: Memory, root: nat, dstva: nat, src: seq<Byte>)
    returns (ok: bool, ghost c': Memory, ghost n: nat)
    requires m.Ok() && At(m.mem, t, root, m.Free()) && Presents(m.mem, t, c) && KernelTop(t)
    modifies m
    ensures m.Ok() && m.free == old(m.free) && At(m.mem, t, root, m.Free()) && Presents(m.mem, t, c')
    ensures Keeps(old(m.mem), m.mem, UserFrames(t.view))
    ensures n <= |src| && Written(c, c', dstva, src[..n])
    ensures ok <==> n == |src|
    ensures ok <==> forall x: nat :: dstva <= x < dstva + |src| ==> WritableAt(c, x)
    ensures (forall x: nat :: dstva <= x < dstva + n ==> WritableAt(c, x)) && (!ok ==> !WritableAt(c, dstva + n))
  {
    hide Wf, LeavesOk, UserFrames, PagesOf, PteFlags, PteFrame, PteUser, PteWrite, WritableAt, Written, SpaceOk;
    var d := 0;
    WrittenNothing(m.mem, t, c, dstva);
    c', n := c, 0;
    while d < |src|
      invariant 0 <= d <= |src| && n == d
      invariant d == 0 || d == |src| || (dstva + d) % PGSIZE == 0
      invariant m.Ok() && m.free == old(m.free) && At(m.mem, t, root, m.Free()) && Presents(m.mem, t, c')
      invariant Keeps(old(m.mem), m.mem, UserFrames(t.view))
      invariant Written(c, c', dstva, src[..d])
      invariant forall x: nat :: dstva <= x < dstva + d ==> WritableAt(c, x)
    {
      ghost var more;
      var n1;
      ok, n1, more := CopyoutPage(m, t, c', root, dstva + d, src[d..]);
      SameAccess(c, c', dstva, src[..d]);
      if !ok {
        assert !WritableAt(c, dstva + d);
        return;
      }
      assert src[d..][..n1] == src[d..d + n1];
      SamePage(c, dstva + d, n1);
      WrittenPage(c, c', dstva, src, d, src[d..d + n1]);
      c', d, n := more, d + n1, d + n1;
    }
    assert src[..d] == src;
    ok := true;
  }

  /** copyin: reads the range exactly when every byte of it is user-readable. */
  method Copyin(m: Machine, ghost t: Shape, ghost c: Memory, root: nat, srcva: nat, len: nat)
    returns (ok: bool, dst: seq<Byte>)
    requires m.Ok() && At(m.mem, t, root, m.Free()) && Presents(m.mem, t, c) && KernelTop(t)
    modifies m
    ensures m.Ok() && m.mem == old(m.mem) && m.free == old(m.free)
    ensures |dst| <= len && ReadFrom(c, srcva, dst) && (ok ==> |dst| == len)
    ensures ok <==> forall x: nat :: srcva <= x < srcva + len ==> ReadableAt(c, x)
  {
    hide Wf, LeavesOk, UserFrames, PagesOf, PteFlags, PteFrame, PteUser, SpaceOk, ReadableAt, ByteAt;
    assert Sized(c) by { ContentsSized(m.mem, t); }
    dst := [];
    while |dst| < len
      invariant |dst| <= len && ReadFrom(c, srcva, dst)
      invariant m.Ok() && m.mem == old(m.mem) && m.free == old(m.free)
      decreases len - |dst|
    {
      var va := srcva + |dst|;
      var n := ChunkLen(va, len - |dst|);
      var f := Walkaddr(m, t, c, root, PageRoundDown(va));
      RoundedAccess(c, va);
      if f == 0 {
        assert !ReadableAt(c, va);
        return false, dst;
      }
      PageBytes(m.mem, t, c, va, n);
      var off := va - PageRoundDown(va);
      var chunk := m.mem[f].b[off..off + n];
      ReadMore(c, srcva, dst, chunk);
      dst := dst + chunk;
    }
    ok := true;
  }

  /** The bytes copyin takes from a page are the user's bytes. */
  lemma PageBytes(mem: Mem, t: Shape, c: Memory, va: nat, n: nat)
    requires Presents(mem, t, c) && va / PGSIZE in t.view && va / PGSIZE < UTOP && va % PGSIZE + n <= PGSIZE
    requires ReadableAt(c, va)
    ensures va - PageRoundDown(va) == va % PGSIZE
    ensures PteFrame(t.view[va / PGSIZE]) in mem && mem[PteFrame(t.view[va / PGSIZE])].Data?
    ensures |mem[PteFrame(t.view[va / PGSIZE])].b| == PGSIZE
    ensures ReadFrom(c, va, mem[PteFrame(t.view[va / PGSIZE])].b[va % PGSIZE..va % PGSIZE + n])
  {
    hide Wf, LeavesOk, UserFrames, PagesOf, PteFlags, PteFrame, PteUser;
    ContentsSized(mem, t);
    LeafFacts(mem, t, va / PGSIZE);
    var v, off := va / PGSIZE, va % PGSIZE;
    assert va == v * PGSIZE + off;
    var chunk := mem[PteFrame(t.view[v])].b[off..off + n];
    forall x: nat | va <= x < va + n ensures ReadableAt(c, x) && chunk[x - va] == ByteAt(c, x) {
      assert x / PGSIZE == v && x % PGSIZE == off + (x - va);
    }
  }

  lemma RoundedAccess(c: Memory, va: nat)
    ensures ReadableAt(c, PageRoundDown(va)) == ReadableAt(c, va)
    ensures PageRoundDown(va) / PGSIZE == va / PGSIZE
  {
    assert PageRoundDown(va) / PGSIZE == va / PGSIZE;
  }

  lemma ReadMore(c: Memory, a: nat, b1: seq<Byte>, b2: seq<Byte>)
    requires ReadFrom(c, a, b1) && ReadFrom(c, a + |b1|, b2)
    ensures ReadFrom(c, a, b1 + b2)
  {
  }

  /** A NUL-terminated string of `n` characters starts at `a`. */
  ghost predicate StringAt(c: Memory, a: nat, n: nat) {
    && Sized(c)
    && (forall x: nat :: a <= x <= a + n ==> ReadableAt(c, x) && (ByteAt(c, x) == 0 <==> x == a + n))
  }

  /** Copied bytes that contain no terminator rule out any shorter string. */
  lemma NoStringYet(c: Memory, a: nat, dst: seq<Byte>, n: nat)
    requires ReadFrom(c, a, dst) && 0 !in dst && StringAt(c, a, n)
    ensures |dst| <= n
  {
    assert ReadableAt(c, a + n) && ByteAt(c, a + n) == 0;
  }

  /** The inner loop of copyinstr: copy from one page up to and including a NUL. */
  method CopyUntilNul(page: seq<Byte>) returns (got: bool, dst: seq<Byte>)
    ensures dst <= page
    ensures got ==> dst != [] && dst[|dst| - 1] == 0 && 0 !in dst[..|dst| - 1]
    ensures !got ==> dst == page && 0 !in dst
  {
    var i := 0;
    while i < |page|
      invariant 0 <= i <= |page| && 0 !in page[..i]
    {
      if page[i] == 0 { return true, page[..i + 1]; }
      i := i + 1;
    }
    return false, page;
  }

  /** copyinstr: succeeds exactly when a string with its terminator fits in `max` bytes of
      user-readable memory, and then returns it. */
  method Copyinstr(m: Machine, ghost t: Shape, ghost c: Memory, root: nat, srcva: nat, max: nat)
    returns (ok: bool, dst: seq<Byte>)
    requires m.Ok() && At(m.mem, t, root, m.Free()) && Presents(m.mem, t, c) && KernelTop(t)
    modifies m
    ensures m.Ok() && m.mem == old(m.mem) && m.free == old(m.free)
    ensures ReadFrom(c, srcva, dst) && |dst| <= max
    ensures ok ==> dst != [] && StringAt(c, srcva, |dst| - 1)
    ensures ok <==> exists n: nat :: n < max && StringAt(c, srcva, n)
  {
    hide Wf, LeavesOk, UserFrames, PagesOf, PteFlags, PteFrame, PteUser, SpaceOk, ReadableAt, ByteAt, StringAt;
    assert Sized(c) by { ContentsSized(m.mem, t); }
    dst, ok := [], false;
    while !ok && |dst| < max
      invariant |dst| <= max && ReadFrom(c, srcva, dst)
      invariant m.Ok() && m.mem == old(m.mem) && m.free == old(m.free)
      invariant !ok ==> 0 !in dst
      invariant ok ==> dst != [] && StringAt(c, srcva, |dst| - 1)
      decreases !ok, max - |dst|
    {
      var va := srcva + |dst|;
      var n := ChunkLen(va, max - |dst|);
      var f := Walkaddr(m, t, c, root, PageRoundDown(va));
      RoundedAccess(c, va);
      if f == 0 {
        NoStringThrough(c, srcva, dst);
        return;
      }
      PageBytes(m.mem, t, c, va, n);
      var off := va - PageRoundDown(va);
      var chunk;
      ok, chunk := CopyUntilNul(m.mem[f].b[off..off + n]);
      ReadPrefix(c, va, m.mem[f].b[off..off + n], chunk);
      ReadMore(c, srcva, dst, chunk);
      if ok {
        StringFound(c, srcva, dst + chunk);
      }
      dst := dst + chunk;
    }
    if !ok {
      forall n: nat | n < max ensures !StringAt(c, srcva, n) {
        if StringAt(c, srcva, n) { NoStringYet(c, srcva, dst, n); }
      }
    }
  }

  lemma ReadPrefix(c: Memory, a: nat, b: seq<Byte>, p: seq<Byte>)
    requires ReadFrom(c, a, b) && p <= b
    ensures ReadFrom(c, a, p)
  {
  }

  lemma StringFound(c: Memory, a: nat, s: seq<Byte>)
    requires ReadFrom(c, a, s) && s != [] && s[|s| - 1] == 0 && 0 !in s[..|s| - 1]
    ensures StringAt(c, a, |s| - 1)
  {
    forall x: nat | a <= x < a + |s| - 1 ensures ReadableAt(c, x) && ByteAt(c, x) != 0 {
      assert s[x - a] == s[..|s| - 1][x - a];
    }
  }

  lemma NoStringThrough(c: Memory, a: nat, dst: seq<Byte>)
    requires ReadFrom(c, a, dst) && 0 !in dst && !ReadableAt(c, a + |dst|)
    ensures forall n: nat :: !StringAt(c, a, n)
  {
    forall n: nat ensures !StringAt(c, a, n) {
      if StringAt(c, a, n) { NoStringYet(c, a, dst, n); }
    }
  }

  /** uvmclear: take a page away from user code without unmapping it. */
  method Uvmclear(m: Machine, ghost t: Shape, ghost c: Memory, root: nat, va: nat) returns (ghost t': Shape)
    requires m.Ok() && At(m.mem, t, root, m.Free()) && Presents(m.mem, t, c)
    requires va < MAXVA && va / PGSIZE in t.view && va / PGSIZE < UTOP
    modifies m
    ensures m.Ok() && m.free == old(m.free) && Conserves(old(m.mem), t, old(m.Free()), m.mem, t', m.Free())
    ensures t'.view == t.view[va / PGSIZE := ClearUser(t.view[va / PGSIZE])] && t'.node == t.node
    ensures va / PGSIZE in c
    ensures Presents(m.mem, t', c[va / PGSIZE := UserPage(ClearUser(c[va / PGSIZE].flags), c[va / PGSIZE].bytes)])
  {
    hide Wf, LeavesOk, UserFrames, PagesOf, PteFlags, PteFrame, PteUser, PteValid, PteLeaf, ClearUser;
    ghost var v := va / PGSIZE;
    var has, n, same := m.Walk(t, root, va, false);
    if !has {
      Unmapped(m.mem, t, v);
      assert false;
    }
    var pte := m.LeafEntry(t, n, va / PGSIZE);
    ClearUserKeeps(pte);
    LeafFacts(m.mem, t, v);
    LeafIsLeaf(m.mem, t, v);
    t' := m.PutEntry(t, n, va / PGSIZE, ClearUser(pte));
    ClearConserves(old(m.mem), t, old(m.Free()), m.mem, t', v, ClearUser(pte));
  }

  lemma LeafIsLeaf(mem: Mem, t: Shape, v: nat)
    requires SpaceOk(mem, t) && v in t.view && v < UTOP
    ensures PteLeaf(t.view[v])
  {
    assert LeafOk(mem, Nodes(t), t.view[v]);
  }

  /** Changing the flags of a user page moves no frame. */
  lemma ClearConserves(mem: Mem, t: Shape, free: set<nat>, mem': Mem, t': Shape, v: nat, pte: nat)
    requires SpaceOk(mem, t) && Owned(t) !! free && v in t.view && v < UTOP
    requires PteFrame(pte) == PteFrame(t.view[v]) && PteLeaf(pte) && PteValid(pte)
    requires t' == Rebind(t, v, pte) && Grows(mem, t, free, mem', t', free)
    ensures Conserves(mem, t, free, mem', t', free)
    ensures v in Contents(mem, t)
    ensures Contents(mem', t') == Contents(mem, t)[v := UserPage(PteFlags(pte), Contents(mem, t)[v].bytes)]
  {
    hide Wf, LeavesOk, UserFrames, PagesOf, PteFlags, PteFrame, PteLeaf, PteValid;
    LeavesDisjoint(mem, Nodes(t), t.view);
    LeafFacts(mem, t, v);
    ReflagLeaf(mem, mem', Nodes(t), t.view, v, pte);
    SameFrames(t.view, t'.view);
  }

  lemma ReflagLeaf(mem: Mem, mem': Mem, nodes: set<nat>, w: map<nat, nat>, v: nat, pte: nat)
    requires LeavesOk(mem, nodes, w) && v in w && v < UTOP && Keeps(mem, mem', nodes)
    requires PteFrame(pte) == PteFrame(w[v]) && PteLeaf(pte)
    ensures LeavesOk(mem', nodes, w[v := pte]) && v in PagesOf(mem, nodes, w)
    ensures PagesOf(mem', nodes, w[v := pte]) ==
            PagesOf(mem, nodes, w)[v := UserPage(PteFlags(pte), PagesOf(mem, nodes, w)[v].bytes)]
  {
    hide PteFlags, PteFrame, PteLeaf;
    var w' := w[v := pte];
    forall u | u in w' && u < UTOP ensures LeafOk(mem', nodes, w'[u]) && mem'[PteFrame(w[u])] == mem[PteFrame(w[u])] {
      assert LeafOk(mem, nodes, w[u]);
    }
  }

  lemma SameFrames(w: map<nat, nat>, w': map<nat, nat>)
    requires w'.Keys == w.Keys && forall u :: u in w ==> PteFrame(w'[u]) == PteFrame(w[u])
    ensures UserFrames(w') == UserFrames(w)
  {
    hide PteFrame;
    forall f | f in UserFrames(w') ensures f in UserFrames(w) {
      var u :| u in w' && u < UTOP && PteFrame(w'[u]) == f;
      assert u in w;
    }
    forall f | f in UserFrames(w) ensures f in UserFrames(w') {
      var u :| u in w && u < UTOP && PteFrame(w[u]) == f;
      assert u in w';
    }
  }
}
