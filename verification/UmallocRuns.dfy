/** Whole runs of a program's use of its heap, compared with blocks that have nothing to do with each
    other. */
module UmallocRuns {
  import opened Umalloc
  import opened MachineWords

  /** The program asks for memory, gives a block back, or writes to unit `k` of one. `room` is where sbrk would
      give memory, negative if it has none; a place that is not above all the memory there is, is passed over. */
  datatype Op = MallocOp(nbytes: nat, room: int) | FreeOp(ap: int) | WriteOp(ap: int, k: nat, x: Header)

  datatype Out = Passed | Done | Block(r: int) | NoMemory | Cut

  /** The blocks a program has, by address, with what they hold. */
  type Blocks = map<int, seq<Header>>

  ghost function UnitAt(mem: Memory, u: int): Header { if u in mem then mem[u] else Header(0, 0) }

  ghost function Payload(mem: Memory, a: int): (s: seq<Header>)
    requires a in mem && mem[a].size >= 1
    ensures |s| == mem[a].size - 1 && forall i :: 0 <= i < |s| ==> s[i] == UnitAt(mem, a + 1 + i)
  {
    seq(mem[a].size - 1, i requires 0 <= i => UnitAt(mem, a + 1 + i))
  }

  /** What the program has, by the address before the one it was given. */
  ghost function Has(mem: Memory, alloc: set<int>): Blocks {
    map a | a in alloc :: if a in mem && mem[a].size >= 1 then Payload(mem, a) else []
  }

  /** What each operation does to the blocks, and nothing else. */
  ghost predicate Does(op: Op, out: Out, b: Blocks, b': Blocks) {
    match op
    case MallocOp(nbytes, room) =>
      if out.Block? then
        && out.r - 1 !in b && out.r - 1 in b' && b' == b[out.r - 1 := b'[out.r - 1]]
        && |b'[out.r - 1]| * UNIT >= nbytes && (|b'[out.r - 1]| > 0 ==> (|b'[out.r - 1]| - 1) * UNIT < nbytes)
      else
        && b' == b && (out == NoMemory ==> room < 0) && (out == Cut ==> AtLeast(Units(nbytes)) * UNIT > INT_MAX)
        && (out == Passed ==> nbytes >= UINT32 || room >= 0) && out != Done
    case FreeOp(ap) =>
      if ap - 1 in b then out == Done && b' == b - {ap - 1} else out == Passed && b' == b
    case WriteOp(ap, k, x) =>
      if ap - 1 in b && k < |b[ap - 1]| then out == Done && b' == b[ap - 1 := b[ap - 1][k := x]]
      else out == Passed && b' == b
  }

  /** A block that nothing was done to holds what it held. */
  lemma BlockKept(mem: Memory, nodes: set<int>, alloc: set<int>, cover: map<int, int>, base: int, mem': Memory,
                  cover': map<int, int>, but: set<int>, a: int)
    requires HeapOk(mem, nodes, alloc, cover, base) && Untouched(mem, mem', alloc, cover, cover', but)
    requires a in alloc && a !in but
    ensures a in mem && mem[a].size >= 1 && a in mem' && mem'[a] == mem[a] && Payload(mem', a) == Payload(mem, a)
  {
    HeapBlock(mem, nodes, alloc, cover, base, a);
    assert Covers(cover, a, mem[a].size);
    forall i | 0 <= i < |Payload(mem, a)| ensures Payload(mem', a)[i] == Payload(mem, a)[i] {
      var u := a + 1 + i;
      assert u in cover && cover[u] == a;
    }
  }

  lemma HasAt(mem: Memory, nodes: set<int>, alloc: set<int>, cover: map<int, int>, base: int, a: int)
    requires HeapOk(mem, nodes, alloc, cover, base) && a in alloc
    ensures a in mem && mem[a].size >= 1 && Has(mem, alloc)[a] == Payload(mem, a)
  {
    HeapBlock(mem, nodes, alloc, cover, base, a);
  }

  /** Every block but `a` holds what it held. */
  lemma OthersKept(mem: Memory, nodes: set<int>, alloc: set<int>, cover: map<int, int>, base: int, mem': Memory,
                   cover': map<int, int>, alloc': set<int>, but: set<int>)
    requires HeapOk(mem, nodes, alloc, cover, base) && Untouched(mem, mem', alloc, cover, cover', but)
    ensures forall a :: a in alloc && a in alloc' && a !in but ==> Has(mem', alloc')[a] == Has(mem, alloc)[a]
  {
    hide HeapOk, Untouched, Payload;
    forall a | a in alloc && a in alloc' && a !in but ensures Has(mem', alloc')[a] == Has(mem, alloc)[a] {
      BlockKept(mem, nodes, alloc, cover, base, mem', cover', but, a);
    }
  }

  ghost function BlocksOf(h: Heap): Blocks
    reads h
  {
    Has(h.mem, h.alloc)
  }

  /** One operation of a program that has the blocks `live`; one on a block it does not have is passed
      over. */
  method Do(h: Heap, live: set<int>, op: Op) returns (out: Out, live': set<int>)
    requires h.Valid() && live == h.alloc
    modifies h
    ensures h.Valid() && live' == h.alloc && Does(op, out, old(BlocksOf(h)), BlocksOf(h))
  {
    match op
    case MallocOp(nbytes, room) => out, live' := DoMalloc(h, live, nbytes, room);
    case FreeOp(ap) => out, live' := DoFree(h, live, ap);
    case WriteOp(ap, k, x) =>
      out := DoWrite(h, live, ap, k, x);
      live' := live;
  }

  method DoMalloc(h: Heap, live: set<int>, nbytes: nat, room: int) returns (out: Out, live': set<int>)
    requires h.Valid() && live == h.alloc
    modifies h
    ensures h.Valid() && live' == h.alloc && Does(MallocOp(nbytes, room), out, old(BlocksOf(h)), BlocksOf(h))
  {
    hide HeapOk, Untouched, Payload;
    ghost var mem, nodes, cover := h.mem, h.nodes, h.cover;
    out, live' := Passed, live;
    if nbytes < UINT32 && (room < 0 || forall u :: u in h.mem ==> u < room) {
      var r, cut := h.Malloc(nbytes, room);
      out := if cut then Cut else if r == NULL then NoMemory else Block(r);
      if live != {} { OthersKept(mem, nodes, live, cover, h.base, h.mem, h.cover, h.alloc, {}); }
      if out.Block? {
        live' := live + {r - 1};
        HasAt(h.mem, h.nodes, h.alloc, h.cover, h.base, r - 1);
      }
    }
  }

  method DoFree(h: Heap, live: set<int>, ap: int) returns (out: Out, live': set<int>)
    requires h.Valid() && live == h.alloc
    modifies h
    ensures h.Valid() && live' == h.alloc && Does(FreeOp(ap), out, old(BlocksOf(h)), BlocksOf(h))
  {
    hide HeapOk, Untouched, Payload;
    ghost var mem, nodes, cover := h.mem, h.nodes, h.cover;
    out, live' := Passed, live;
    if ap - 1 in live {
      h.Free(ap);
      OthersKept(mem, nodes, live, cover, h.base, h.mem, h.cover, h.alloc, {ap - 1});
      out, live' := Done, live - {ap - 1};
    }
  }

  method DoWrite(h: Heap, live: set<int>, ap: int, k: nat, x: Header) returns (out: Out)
    requires h.Valid() && live == h.alloc
    modifies h
    ensures h.Valid() && live == h.alloc && Does(WriteOp(ap, k, x), out, old(BlocksOf(h)), BlocksOf(h))
  {
    hide HeapOk, Untouched;
    ghost var mem := h.mem;
    out := Passed;
    if ap - 1 in live {
      HasAt(h.mem, h.nodes, h.alloc, h.cover, h.base, ap - 1);
      if k + 1 < h.mem[ap - 1].size {
        h.Write(ap, k, x);
        OthersKept(mem, h.nodes, live, h.cover, h.base, h.mem, h.cover, live, {ap - 1});
        HasAt(h.mem, h.nodes, h.alloc, h.cover, h.base, ap - 1);
        assert Payload(h.mem, ap - 1) == Payload(mem, ap - 1)[k := x];
        out := Done;
      }
    }
  }

  ghost predicate IsRun(ops: seq<Op>, outs: seq<Out>, blocks: seq<Blocks>) {
    && |outs| == |ops| && |blocks| == |ops| + 1
    && forall i :: 0 <= i < |ops| ==> Does(ops[i], outs[i], blocks[i], blocks[i + 1])
  }

  /** Any run of a program that frees and writes only blocks it has: they are as good as separate. */
  method Run(h: Heap, ops: seq<Op>) returns (outs: seq<Out>, ghost blocks: seq<Blocks>)
    requires h.Valid() && h.alloc == {}
    modifies h
    ensures h.Valid() && IsRun(ops, outs, blocks) && blocks[0] == map[] && blocks[|ops|] == BlocksOf(h)
  {
    hide Does, HeapOk;
    var live := {};
    outs, blocks := [], [BlocksOf(h)];
    for i := 0 to |ops|
      invariant h.Valid() && live == h.alloc && IsRun(ops[..i], outs, blocks)
      invariant blocks[0] == map[] && blocks[i] == BlocksOf(h)
    {
      var out;
      out, live := Do(h, live, ops[i]);
      outs, blocks := outs + [out], blocks + [BlocksOf(h)];
    }
    assert ops[..|ops|] == ops;
  }

  lemma StepKeeps(op: Op, out: Out, b: Blocks, b': Blocks, a: int)
    requires Does(op, out, b, b') && a in b && !(op.FreeOp? && op.ap - 1 == a) && !(op.WriteOp? && op.ap - 1 == a)
    ensures a in b' && b'[a] == b[a]
  {
  }

  /** In every run a block holds what was last written to it until it is given back. */
  lemma {:induction false} BlockLasts(ops: seq<Op>, outs: seq<Out>, blocks: seq<Blocks>, i: nat, j: nat, a: int)
    requires IsRun(ops, outs, blocks) && i <= j < |blocks| && a in blocks[i]
    requires forall n :: i <= n < j && (ops[n].FreeOp? || ops[n].WriteOp?) ==> ops[n].ap - 1 != a
    ensures a in blocks[j] && blocks[j][a] == blocks[i][a]
  {
    if i < j {
      hide Does;
      BlockLasts(ops, outs, blocks, i, j - 1, a);
      assert Does(ops[j - 1], outs[j - 1], blocks[j - 1], blocks[j - 1 + 1]);
      StepKeeps(ops[j - 1], outs[j - 1], blocks[j - 1], blocks[j], a);
    }
  }
}
