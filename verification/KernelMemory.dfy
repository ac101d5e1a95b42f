/** The process table's view of memory: allocproc, freeproc, growproc, kfork
    (kernel/proc/proc.c) and kexec (kernel/proc/exec.c), each keeping every page of the
    pool in exactly one place. */
module KernelMemory {
  import opened Sv39
  import opened PageTable
  import opened Space
  import opened Vm
  import opened CopyUser
  import opened AddressSpace
  import opened Exec
  import opened PrivateMemory
  import opened MachineWords

  method AllocFrame(m: Machine) returns (f: nat)
    requires m.Ok()
    modifies m
    ensures m.Ok() && Keeps(old(m.mem), m.mem, old(m.Free()))
    ensures f == 0 ==> m.Free() == old(m.Free())
    ensures f != 0 ==> f in old(m.Free()) && m.Free() == old(m.Free()) - {f}
    ensures f != 0 ==> f in m.mem && m.mem[f].Data? && |m.mem[f].b| == PGSIZE
    ensures if f == 0 then |old(m.free)| == 0 else |m.free| == |old(m.free)| - 1
  {
    f := m.Kalloc();
  }

  method FreeFrame(m: Machine, f: nat)
    requires m.Ok() && f in m.mem && f !in m.Free()
    modifies m
    ensures m.Ok() && Keeps(old(m.mem), m.mem, {f}) && m.Free() == old(m.Free()) + {f}
  {
    m.Kfree(f);
  }

  /** The size would pass the limit, or the free pages are not enough for the pages to add and the
      tables they need. */
  ghost predicate TooLarge(t: Shape, sz: nat, n: int, free: nat) {
    n > 0 && (sz + n > TRAPFRAME || ShortOf(t, free, sz, sz + n))
  }

  /** `n` free pages are not enough for `k` pages of user memory in a table. */
  ghost predicate Lacks(t: Shape, n: nat, k: nat) { Short(t, n, Range(0, k), k) }

  lemma {:induction false} RangeSize(v: nat, k: nat)
    ensures |Range(v, k)| == k
  {
    if k > 0 { RangeSize(v, k - 1); }
  }

  /** uvmcopy takes what its pages need. */
  lemma CopyExact(mem: Mem, t1: Shape, c1: map<nat, UserPage>, k: nat, t: Shape, n: nat, t': Shape, n': nat, ok: bool)
    requires Presents(mem, t1, c1) && UserIs(t1, k)
    requires if ok then Took(t, n, t', n', Below(c1, k), |Below(c1, k)|) else Short(t, n, Below(c1, k), |Below(c1, k)|)
    ensures ok <==> !Lacks(t, n, k)
  {
    hide SpaceOk, Took, Short;
    ContentsKeys(mem, t1);
    assert Below(c1, k) == Range(0, k);
    RangeSize(0, k);
    if ok { TookEnough(t, n, t', n', Below(c1, k), |Below(c1, k)|); }
  }

  /** What a new process lacks for a copy of `k` pages. */
  lemma CopyNeeds(t: Shape, n: nat, k: nat)
    requires t.node.Keys == TopNodes()
    ensures Lacks(t, n, k) <==> n + 4 < 1 + ImagePages(k)
  {
    hide Range, Paths, TopNodes;
  }

  lemma NotShort(t: Shape, n: nat, t': Shape, n': nat, sz: nat, sz': nat)
    requires TookTo(t, n, t', n', sz, sz')
    ensures !ShortOf(t, n, sz, sz')
  {
    hide Took, Short, Pages, Range;
    TookEnough(t, n, t', n', Range(Pages(sz), Pages(sz') - Pages(sz)), Pages(sz') - Pages(sz));
  }

  lemma Wrapped(sz: nat, n: int)
    requires sz <= TRAPFRAME && -0x8000_0000 <= n < 0
    ensures (sz + n) % UINT64 == if sz + n < 0 then sz + n + UINT64 else sz + n
  {
  }

  lemma AtProc(mem: Mem, free: set<nat>, procs: map<nat, Proc>, shape: map<nat, Shape>, pool: set<nat>, tramp: nat,
               p: nat)
    requires Layout(mem, free, procs, shape, pool, tramp) && p in procs
    ensures p in shape && ProcOk(mem, shape[p], procs[p], tramp) && Foot(shape[p], procs[p]) !! free
    ensures At(mem, shape[p], procs[p].pagetable, free) && UserIs(shape[p], Pages(procs[p].sz))
    ensures Top(shape[p], procs[p].trapframe, tramp)
    ensures procs[p].sz <= TRAPFRAME && Pages(procs[p].sz) <= UTOP
  {
    hide Wf, LeavesOk, UserFrames, Top;
  }

  lemma Traded(mem: Mem, free: set<nat>, procs: map<nat, Proc>, shape: map<nat, Shape>, pool: set<nat>, tramp: nat,
               p: nat, sz: nat, mem': Mem, free': set<nat>, t: Shape)
    requires Layout(mem, free, procs, shape, pool, tramp) && p in procs && SpaceOk(mem, shape[p])
    requires Conserves(mem, shape[p], free, mem', t, free') && UserIs(t, Pages(sz)) && SameTop(shape[p], t)
    ensures var pr := procs[p].(sz := sz);
            && ProcOk(mem', t, pr, tramp) && Foot(t, pr) !! free'
            && Foot(t, pr) + free' == Foot(shape[p], procs[p]) + free
            && Keeps(mem, mem', Foot(shape[p], procs[p]) + free)
  {
    hide Wf, LeavesOk, UserFrames, PagesOf, SpaceOk, UserIs, Top, Pages, SameTop, Layout;
    AtProc(mem, free, procs, shape, pool, tramp, p);
    TopKept(shape[p], t, procs[p].trapframe, tramp);
  }

  lemma KeepsBoth(mem: Mem, mem1: Mem, mem2: Mem, s1: set<nat>, s2: set<nat>, s: set<nat>)
    requires Keeps(mem, mem1, s1) && Keeps(mem1, mem2, s2) && s1 <= s && s2 <= s
    ensures Keeps(mem, mem2, s)
  {
  }

  lemma TrapframeFreed(mem: Mem, mem1: Mem, t: Shape, pr: Proc, free: set<nat>, tramp: nat)
    requires ProcOk(mem, t, pr, tramp) && Foot(t, pr) !! free && Keeps(mem, mem1, {pr.trapframe})
    ensures At(mem1, t, pr.pagetable, free + {pr.trapframe}) && UserIs(t, Pages(pr.sz)) && Top(t, pr.trapframe, tramp)
  {
    hide Wf, LeavesOk, UserFrames, PagesOf, Top;
    SpaceFrame(mem, mem1, t, {pr.trapframe});
  }

  method WriteFrame(m: Machine, f: nat, data: seq<Byte>)
    requires m.Ok() && f in m.mem && f !in m.Free()
    modifies m
    ensures m.Ok() && m.free == old(m.free) && m.Free() == old(m.Free()) && m.mem == old(m.mem)[f := Data(data)]
    ensures Keeps(old(m.mem), m.mem, {f})
  {
    m.mem := m.mem[f := Data(data)];
  }

  /** The parent's saved registers with a0 (bytes 112 to 119) cleared. */
  function ChildTrapframe(b: seq<Byte>): (r: seq<Byte>)
    requires |b| == PGSIZE
    ensures |r| == PGSIZE && forall k :: 0 <= k < PGSIZE ==> r[k] == if 112 <= k < 120 then 0 else b[k]
  {
    b[..112] + seq(8, _ => 0) + b[120..]
  }

  ghost predicate TrapframeCopied(mem: Mem, tf: nat, mem': Mem, tf': nat) {
    && tf in mem && mem[tf].Data? && tf' in mem' && mem'[tf'].Data?
    && FrameCopied(mem[tf].b, mem'[tf'].b)
  }

  /** The trapframe with epc (bytes 24..), sp (48..) and a1 (120..) set. */
  function StartTrapframe(b: seq<Byte>, entry: nat, sp: nat): (r: seq<Byte>)
    requires |b| == PGSIZE
    ensures |r| == PGSIZE
  {
    b[..24] + Le64(entry) + b[32..48] + Le64(sp) + b[56..120] + Le64(sp) + b[128..]
  }

  ghost predicate Started(mem: Mem, mem': Mem, tf: nat, entry: nat, sp: nat) {
    && tf in mem && mem[tf].Data? && tf in mem' && mem'[tf].Data?
    && FrameStarted(mem[tf].b, mem'[tf].b, entry, sp)
  }

  lemma IsStarted(mem: Mem, mem': Mem, tf: nat, entry: nat, sp: nat)
    requires tf in mem && mem[tf].Data? && |mem[tf].b| == PGSIZE && entry < UINT64 && sp < UINT64
    requires tf in mem' && mem'[tf] == Data(StartTrapframe(mem[tf].b, entry, sp))
    ensures Started(mem, mem', tf, entry, sp)
  {
    hide Le64, Number;
    var b := mem'[tf].b;
    assert b[24..32] == Le64(entry) && b[48..56] == Le64(sp) && b[120..128] == Le64(sp);
  }

  lemma StillLoaded(mem: Mem, mem': Mem, t: Shape, ptrs: seq<nat>, args: seq<seq<Byte>>, sp: nat, phs: seq<Segment>,
                    file: seq<Byte>)
    requires Loaded(mem, t, ptrs, args, sp, phs, file) && SpaceOk(mem', t) && Contents(mem', t) == Contents(mem, t)
    ensures Loaded(mem', t, ptrs, args, sp, phs, file)
  {
    hide SpaceOk, Contents, ArgsAt, ArgvAt, HasProgram;
  }

  /** The old table is untouched by the building of the new one. */
  lemma OldSurvives(mem: Mem, free0: set<nat>, t0: Shape, pr: Proc, t: Shape, free1: set<nat>)
    requires At(mem, t0, pr.pagetable, free0) && Owned(t) + free1 == free0
    ensures At(mem, t0, pr.pagetable, free1)
  {
    hide SpaceOk;
  }

  lemma Committed(mem: Mem, free: set<nat>, mem1: Mem, free1: set<nat>, t0: Shape, pr: Proc,
                  mem2: Mem, free2: set<nat>, t: Shape, pr': Proc, tramp: nat,
                  ptrs: seq<nat>, args: seq<seq<Byte>>, sp: nat, phs: seq<Segment>, file: seq<Byte>)
    requires ProcOk(mem1, t0, pr, tramp) && Foot(t0, pr) !! free && Keeps(mem, mem1, free)
    requires Image(mem1, t, pr'.pagetable, free1, pr'.sz, pr.trapframe, tramp) && Owned(t) + free1 == free
    requires pr'.trapframe == pr.trapframe && free2 == free1 + Owned(t0) && Keeps(mem1, mem2, Owned(t0))
    requires Loaded(mem1, t, ptrs, args, sp, phs, file)
    ensures ProcOk(mem2, t, pr', tramp) && Foot(t, pr') !! free2 && Foot(t, pr') + free2 == Foot(t0, pr) + free
    ensures Keeps(mem, mem2, Foot(t0, pr) + free) && Loaded(mem2, t, ptrs, args, sp, phs, file)
  {
    hide SpaceOk, UserIs, Top, Contents, UserFrames, Loaded;
    assert SpaceOk(mem1, t) && Owned(t) !! Owned(t0);
    SpaceFrame(mem1, mem2, t, Owned(t0));
    StillLoaded(mem1, mem2, t, ptrs, args, sp, phs, file);
  }

  lemma TrapframeKept(mem: Mem, free: set<nat>, mem1: Mem, t0: Shape, pr: Proc, mem2: Mem, tramp: nat)
    requires ProcOk(mem1, t0, pr, tramp) && Foot(t0, pr) !! free && Keeps(mem, mem1, free)
    requires Keeps(mem1, mem2, Owned(t0)) && pr.trapframe in mem
    ensures pr.trapframe in mem2 && mem2[pr.trapframe] == mem[pr.trapframe]
  {
    hide SpaceOk, UserIs, Top, UserFrames, Nodes;
    assert pr.trapframe in Foot(t0, pr) && pr.trapframe !in Owned(t0);
  }

  lemma TrapframeWritten(mem: Mem, mem': Mem, t: Shape, pr: Proc, tramp: nat)
    requires ProcOk(mem, t, pr, tramp) && Keeps(mem, mem', {pr.trapframe})
    requires pr.trapframe in mem' && mem'[pr.trapframe].Data? && |mem'[pr.trapframe].b| == PGSIZE
    ensures ProcOk(mem', t, pr, tramp) && Contents(mem', t) == Contents(mem, t)
  {
    hide Wf, LeavesOk, UserFrames, PagesOf, UserIs, Top;
    SpaceFrame(mem, mem', t, {pr.trapframe});
  }

  lemma SameFor(mem: Mem, procs: map<nat, Proc>, shape: map<nat, Shape>, mem': Mem, procs': map<nat, Proc>,
                shape': map<nat, Shape>, qs: set<nat>, q: nat)
    requires OthersSame(mem, procs, shape, mem', procs', shape', qs) && q in qs
    ensures q in procs && q in procs' && q in shape && q in shape' && procs'[q] == procs[q] && shape'[q] == shape[q]
    ensures SpaceOk(mem, shape[q]) && SpaceOk(mem', shape[q]) && Contents(mem', shape[q]) == Contents(mem, shape[q])
    ensures procs[q].trapframe in mem && procs[q].trapframe in mem' &&
            mem'[procs[q].trapframe] == mem[procs[q].trapframe]
  {
  }

  lemma Fewer(mem: Mem, procs: map<nat, Proc>, shape: map<nat, Shape>, mem': Mem, procs': map<nat, Proc>,
              shape': map<nat, Shape>, qs: set<nat>, qs': set<nat>)
    requires OthersSame(mem, procs, shape, mem', procs', shape', qs) && qs' <= qs
    ensures OthersSame(mem, procs, shape, mem', procs', shape', qs')
  {
    hide SpaceOk, Contents;
  }

  /** A process survives writes to its own user frames. */
  lemma Stored(mem: Mem, mem': Mem, t: Shape, pr: Proc, tramp: nat)
    requires ProcOk(mem, t, pr, tramp) && SpaceOk(mem', t) && Keeps(mem, mem', UserFrames(t.view))
    ensures ProcOk(mem', t, pr, tramp) && UserFrames(t.view) <= Foot(t, pr)
  {
    hide Wf, LeavesOk, UserFrames, PagesOf, UserIs, Top, SpaceOk;
  }

  lemma TwoProcs(mem: Mem, free: set<nat>, procs: map<nat, Proc>, shape: map<nat, Shape>, pool: set<nat>, tramp: nat,
                 p: nat, np: nat)
    requires Layout(mem, free, procs, shape, pool, tramp) && p in procs && np in procs && p != np
    requires procs[np].sz == 0
    ensures p in shape && np in shape
    ensures At(mem, shape[p], procs[p].pagetable, free) && At(mem, shape[np], procs[np].pagetable, free)
    ensures Owned(shape[p]) !! Owned(shape[np]) && UserIs(shape[p], Pages(procs[p].sz)) && UserIs(shape[np], 0)
    ensures Pages(procs[p].sz) <= UTOP && forall v :: 0 <= v < Pages(procs[p].sz) ==> v !in shape[np].view
  {
    hide SpaceOk, Top, ProcOk, Owned, Wf, Pages;
    AtProc(mem, free, procs, shape, pool, tramp, p);
    AtProc(mem, free, procs, shape, pool, tramp, np);
    assert Foot(shape[p], procs[p]) !! Foot(shape[np], procs[np]);
    assert Pages(0) == 0 by { PagesBounds(0); }
  }

  lemma Copied(mem: Mem, t1: Shape, c1: map<nat, UserPage>, t2: Shape, c2: map<nat, UserPage>, mem': Mem, t': Shape,
               sz: nat, ok: bool)
    requires Presents(mem, t1, c1) && Presents(mem, t2, c2) && UserIs(t1, Pages(sz)) && UserIs(t2, 0)
    requires Presents(mem', t', if ok then Overlay(c2, c1, Pages(sz)) else c2)
    ensures UserIs(t', Pages(if ok then sz else 0)) && (ok ==> Contents(mem', t') == c1)
  {
    hide Wf, LeavesOk, UserFrames, PagesOf;
    ContentsKeys(mem, t1);
    ContentsKeys(mem, t2);
    ContentsKeys(mem', t');
    assert c2 == map[];
    if ok {
      assert Overlay(c2, c1, Pages(sz)) == c1;
    }
  }

  /** Free pages may change their contents without anyone noticing. */
  lemma Idle(mem: Mem, free: set<nat>, procs: map<nat, Proc>, shape: map<nat, Shape>, pool: set<nat>, tramp: nat,
             mem': Mem)
    requires Layout(mem, free, procs, shape, pool, tramp) && Keeps(mem, mem', free)
    ensures Layout(mem', free, procs, shape, pool, tramp)
    ensures OthersSame(mem, procs, shape, mem', procs, shape, procs.Keys)
  {
    hide ProcOk, Foot, Keeps, SpaceOk, Contents;
    OthersKept(mem, free, procs, shape, pool, tramp, mem', free, procs.Keys);
  }

  lemma NewProc(mem: Mem, free: set<nat>, mem1: Mem, free1: set<nat>, mem2: Mem, free2: set<nat>, t: Shape, pr: Proc,
                tramp: nat)
    requires Keeps(mem, mem1, free) && pr.trapframe in free && free1 == free - {pr.trapframe} && pr.sz == 0
    requires pr.trapframe in mem1 && mem1[pr.trapframe].Data? && |mem1[pr.trapframe].b| == PGSIZE
    requires Keeps(mem1, mem2, free1) && At(mem2, t, pr.pagetable, free2) && UserIs(t, 0) && Top(t, pr.trapframe, tramp)
    requires Owned(t) + free2 == free1 && pr.trapframe != 0
    ensures ProcOk(mem2, t, pr, tramp) && Foot(t, pr) !! free2 && Foot(t, pr) + free2 == free && Keeps(mem, mem2, free)
    ensures Contents(mem2, t) == map[]
  {
    hide Wf, LeavesOk, UserFrames, PagesOf, Top;
    ContentsKeys(mem2, t);
  }

  ghost function MemoryOf(mem: Mem, t: Shape): Memory {
    if SpaceOk(mem, t) then Contents(mem, t) else map[]
  }

  ghost function FrameOf(mem: Mem, f: nat): seq<Byte> {
    if f in mem && mem[f].Data? then mem[f].b else []
  }

  /** What the processes are, apart from where their pages are. */
  ghost function Privs(mem: Mem, procs: map<nat, Proc>, shape: map<nat, Shape>): map<nat, Priv>
    requires shape.Keys == procs.Keys
  {
    map p | p in procs :: Priv(procs[p].sz, MemoryOf(mem, shape[p]), FrameOf(mem, procs[p].trapframe))
  }

  lemma PrivKept(mem: Mem, procs: map<nat, Proc>, shape: map<nat, Shape>, mem': Mem, procs': map<nat, Proc>,
                 shape': map<nat, Shape>, qs: set<nat>)
    requires OthersSame(mem, procs, shape, mem', procs', shape', qs)
    requires shape.Keys == procs.Keys && shape'.Keys == procs'.Keys
    ensures qs <= procs.Keys && qs <= procs'.Keys
    ensures forall q :: q in qs ==> Privs(mem', procs', shape')[q] == Privs(mem, procs, shape)[q]
  {
    hide SpaceOk, Contents;
  }

  /** One process changed. */
  lemma OnlyOne(mem: Mem, procs: map<nat, Proc>, shape: map<nat, Shape>, mem': Mem, procs': map<nat, Proc>,
                shape': map<nat, Shape>, p: nat, n: nat, n': nat)
    requires OthersSame(mem, procs, shape, mem', procs', shape', procs.Keys - {p})
    requires shape.Keys == procs.Keys && shape'.Keys == procs'.Keys && procs'.Keys == procs.Keys + {p}
    ensures Only(World(Privs(mem, procs, shape), n), World(Privs(mem', procs', shape'), n'), p)
  {
    hide MemoryOf, FrameOf, OthersSame;
    PrivKept(mem, procs, shape, mem', procs', shape', procs.Keys - {p});
  }

  /** No process changed. */
  lemma NoneChanged(mem: Mem, procs: map<nat, Proc>, shape: map<nat, Shape>, mem': Mem)
    requires OthersSame(mem, procs, shape, mem', procs, shape, procs.Keys) && shape.Keys == procs.Keys
    ensures Privs(mem', procs, shape) == Privs(mem, procs, shape)
  {
    hide MemoryOf, FrameOf, OthersSame;
    PrivKept(mem, procs, shape, mem', procs, shape, procs.Keys);
  }

  lemma FrameIsCopied(mem: Mem, tf: nat, mem': Mem, tf': nat)
    requires TrapframeCopied(mem, tf, mem', tf')
    ensures FrameCopied(FrameOf(mem, tf), FrameOf(mem', tf'))
  {
  }

  lemma ItRuns(mem: Mem, mem': Mem, pr: Proc, pr': Proc, t: Shape, t': Shape, op: Op, sp: nat, ptrs: seq<nat>)
    requires op.Exec? && Loaded(mem', t', ptrs, op.args, sp, op.phs, op.file)
    requires pr'.trapframe == pr.trapframe && pr'.sz == (Pages(SizeOf(op.phs, |op.phs|)) + 2) * PGSIZE
    requires Started(mem, mem', pr.trapframe, op.entry, sp)
    ensures Runs(Priv(pr.sz, MemoryOf(mem, t), FrameOf(mem, pr.trapframe)),
                 Priv(pr'.sz, MemoryOf(mem', t'), FrameOf(mem', pr'.trapframe)), op.entry, op.phs, op.file, op.args)
  {
    hide SpaceOk, Contents, LoadedIn, FrameStarted, Pages, SizeOf;
  }

  /** The trapframe is not among the pages a change of user memory touches. */
  lemma FrameApart(mem: Mem, free: set<nat>, procs: map<nat, Proc>, shape: map<nat, Shape>, pool: set<nat>, tramp: nat,
                   p: nat, mem': Mem)
    requires Layout(mem, free, procs, shape, pool, tramp) && p in procs && p in shape
    requires Keeps(mem, mem', Owned(shape[p]) + free)
    ensures FrameOf(mem', procs[p].trapframe) == FrameOf(mem, procs[p].trapframe)
  {
    hide Wf, LeavesOk, UserFrames, Top, Layout, SpaceOk, Owned;
    AtProc(mem, free, procs, shape, pool, tramp, p);
    assert procs[p].trapframe in Foot(shape[p], procs[p]);
  }

  class Kernel {
    const m: Machine
    /** The frame of the trampoline code, which is kernel text and not in the arena. */
    const tramp: nat
    var procs: map<nat, Proc>
    ghost var shape: map<nat, Shape>
    /** The frames the free list held when the first process was created. */
    ghost const pool: set<nat>

    ghost predicate Valid()
      reads this, m
    {
      m.Ok() && shape.Keys == procs.Keys && Layout(m.mem, m.Free(), procs, shape, pool, tramp)
    }

    /** What process `p` sees. */
    ghost function Memory(p: nat): map<nat, UserPage>
      requires p in shape
      reads this, m
    {
      MemoryOf(m.mem, shape[p])
    }

    /** The machine with private memories. */
    ghost function TheWorld(): World
      requires shape.Keys == procs.Keys
      reads this, m
    {
      World(Privs(m.mem, procs, shape), |m.free|)
    }

    constructor (m: Machine, tramp: nat)
      requires m.Ok()
      ensures Valid() && procs == map[] && this.m == m && this.tramp == tramp && pool == m.Free()
    {
      this.m, this.tramp := m, tramp;
      procs, shape, pool := map[], map[], m.Free();
    }

    /** allocproc: a process with an empty address space, or nothing at all. */
    method Allocproc(p: nat) returns (ok: bool)
      requires Valid() && p !in procs
      modifies this, m
      ensures Valid() && OthersSame(old(m.mem), old(procs), old(shape), m.mem, procs, shape, old(procs.Keys))
      ensures ok ==>
                p in procs && p in shape && procs == old(procs)[p := procs[p]] && shape == old(shape)[p := shape[p]]
      ensures ok ==> procs[p].sz == 0 && Memory(p) == map[]
      ensures ok ==> Foot(shape[p], procs[p]) + m.Free() == old(m.Free())
      ensures !ok ==> procs == old(procs) && shape == old(shape) && m.Free() == old(m.Free())
      ensures ok <==> |old(m.free)| >= 4
      ensures ok ==> |m.free| == |old(m.free)| - 4 && shape[p].node.Keys == TopNodes()
    {
      hide Wf, LeavesOk, UserFrames, PagesOf, SpaceOk, ProcOk, Foot, UserIs, Top, Layout, Machine.Ok, TopNodes;
      ghost var free0 := m.Free();
      var tf := AllocFrame(m);
      if tf == 0 {
        Idle(old(m.mem), free0, procs, shape, pool, tramp, m.mem);
        return false;
      }
      ghost var mem1, free1 := m.mem, m.Free();
      var root;
      ghost var t;
      root, t := ProcPagetable(m, tramp, tf);
      if root == 0 {
        FreeFrame(m, tf);
        assert m.Free() == free0;
        KeepsTrans(old(m.mem), mem1, m.mem, free0, free0);
        Idle(old(m.mem), free0, procs, shape, pool, tramp, m.mem);
        return false;
      }
      var pr := Proc(root, 0, tf);
      NewProc(old(m.mem), free0, mem1, free1, m.mem, m.Free(), t, pr, tramp);
      Insert(old(m.mem), free0, procs, shape, pool, tramp, m.mem, m.Free(), p, pr, t);
      procs, shape := procs[p := pr], shape[p := t];
      ok := true;
    }

    /** freeproc: return every page of a process. */
    method Freeproc(p: nat)
      requires Valid() && p in procs
      modifies this, m
      ensures Valid() && procs == old(procs) - {p} && shape == old(shape) - {p}
      ensures m.Free() == old(m.Free()) + Foot(old(shape[p]), old(procs[p]))
      ensures OthersSame(old(m.mem), old(procs), old(shape), m.mem, procs, shape, old(procs.Keys) - {p})
    {
      hide Wf, LeavesOk, UserFrames, PagesOf, SpaceOk, ProcOk, UserIs, Top, Machine.Ok, Pages, Layout;
      ghost var t, free0 := shape[p], m.Free();
      var pr := procs[p];
      AtProc(m.mem, free0, procs, shape, pool, tramp, p);
      ProcSpace(m.mem, t, pr, tramp);
      FreeFrame(m, pr.trapframe);
      TrapframeFreed(old(m.mem), m.mem, t, pr, free0, tramp);
      ghost var mem1 := m.mem;
      ProcFreepagetable(m, t, pr.pagetable, pr.sz, pr.trapframe, tramp);
      KeepsBoth(old(m.mem), mem1, m.mem, {pr.trapframe}, Owned(t), Foot(t, pr) + free0);
      Remove(old(m.mem), free0, procs, shape, pool, tramp, m.mem, m.Free(), p);
      procs, shape := procs - {p}, shape - {p};
    }

    /** Record the new table and size of a process whose frames only traded places with
        the free list. */
    method Update(p: nat, sz: nat, ghost t: Shape, ghost mem0: Mem, ghost free0: set<nat>)
      requires p in procs && p in shape && m.Ok() && shape.Keys == procs.Keys
      requires Layout(mem0, free0, procs, shape, pool, tramp) && SpaceOk(mem0, shape[p]) &&
               Conserves(mem0, shape[p], free0, m.mem, t, m.Free())
      requires UserIs(t, Pages(sz)) && SameTop(shape[p], t)
      modifies this
      ensures Valid() && procs == old(procs)[p := old(procs[p]).(sz := sz)] && shape == old(shape)[p := t]
      ensures OthersSame(mem0, old(procs), old(shape), m.mem, procs, shape, old(procs.Keys) - {p})
      ensures p in shape && Presents(m.mem, t, Memory(p))
      ensures p in procs && FrameOf(m.mem, procs[p].trapframe) == FrameOf(mem0, procs[p].trapframe)
    {
      hide Wf, LeavesOk, UserFrames, PagesOf, SpaceOk, ProcOk, UserIs, Top, Machine.Ok, Pages, Layout, SameTop, Foot;
      var pr := procs[p].(sz := sz);
      FrameApart(mem0, free0, procs, shape, pool, tramp, p, m.mem);
      Traded(mem0, free0, procs, shape, pool, tramp, p, sz, m.mem, m.Free(), t);
      Replace(mem0, free0, procs, shape, pool, tramp, m.mem, m.Free(), p, pr, t);
      procs, shape := procs[p := pr], shape[p := t];
    }

    /** growproc: 0 and the new size, or -1 and the memory as it was. Shrinking below zero
        wraps around in 64 bits and so does nothing. */
    method Growproc(p: nat, n: int) returns (r: int)
      requires Valid() && p in procs && -0x8000_0000 <= n < 0x8000_0000
      modifies this, m
      ensures p in procs && p in shape && p in old(shape)
      ensures r == -1 <==> TooLarge(old(shape[p]), old(procs[p].sz), n, |old(m.free)|)
      ensures procs == old(procs)[p := old(procs[p]).(sz := procs[p].sz)]
      ensures r == 0 || (r == -1 && n > 0)
      ensures procs[p].sz == (if r == -1 || old(procs[p].sz) + n < 0 then old(procs[p].sz) else old(procs[p].sz) + n)
      ensures r == -1 ==> Memory(p) == old(Memory(p))
      ensures r == 0 ==> Memory(p) == Resized(old(Memory(p)), old(procs[p].sz), procs[p].sz)
      ensures p in procs && FrameOf(m.mem, procs[p].trapframe) == old(FrameOf(m.mem, procs[p].trapframe))
      ensures Valid() && OthersSame(old(m.mem), old(procs), old(shape), m.mem, procs, shape, old(procs.Keys) - {p})
    {
      hide Wf, LeavesOk, UserFrames, PagesOf, SpaceOk, Machine.Ok, Pages, Layout, Fill, Without, ZeroPage;
      if n > 0 {
        r := Extend(p, n);
      } else if n < 0 {
        Shrink(p, n);
        r := 0;
      } else {
        r := 0;
        Idle(m.mem, m.Free(), procs, shape, pool, tramp, m.mem);
        WithoutNone(Memory(p), Pages(procs[p].sz));
      }
    }

    /** growproc with a positive argument. */
    method Extend(p: nat, n: nat) returns (r: int)
      requires Valid() && p in procs && 0 < n
      modifies this, m
      ensures p in shape && p in old(shape) && (r == 0 || r == -1)
      ensures r == -1 <==> TooLarge(old(shape[p]), old(procs[p].sz), n, |old(m.free)|)
      ensures procs == old(procs)[p := old(procs[p]).(sz := if r == -1 then old(procs[p].sz) else old(procs[p].sz) + n)]
      ensures r == -1 ==> Memory(p) == old(Memory(p))
      ensures r == 0 ==> Memory(p) == Resized(old(Memory(p)), old(procs[p].sz), old(procs[p].sz) + n)
      ensures p in procs && FrameOf(m.mem, procs[p].trapframe) == old(FrameOf(m.mem, procs[p].trapframe))
      ensures Valid() && OthersSame(old(m.mem), old(procs), old(shape), m.mem, procs, shape, old(procs.Keys) - {p})
    {
      hide Wf, LeavesOk, UserFrames, PagesOf, SpaceOk, ProcOk, UserIs, Top, Machine.Ok, Pages, Layout, SameTop, Foot,
           Fill, Without, ZeroPage, Took, Short, Range;
      var pr := procs[p];
      ghost var t, mem0, free0, n0 := shape[p], m.mem, m.Free(), |m.free|;
      AtProc(m.mem, free0, procs, shape, pool, tramp, p);
      if pr.sz + n > TRAPFRAME {
        Idle(m.mem, free0, procs, shape, pool, tramp, m.mem);
        return -1;
      }
      ghost var t', ok;
      var sz;
      sz, t', ok := m.Uvmalloc(t, pr.pagetable, pr.sz, pr.sz + n, PTE_W);
      if ok { NotShort(t, n0, t', |m.free|, pr.sz, pr.sz + n); }
      r := if sz == 0 then -1 else 0;
      Update(p, if sz == 0 then pr.sz else sz, t', mem0, free0);
    }

    /** growproc with a negative argument. */
    method Shrink(p: nat, n: int)
      requires Valid() && p in procs && -0x8000_0000 <= n < 0
      modifies this, m
      ensures p in procs && p in shape && p in old(shape)
      ensures var sz := old(procs[p].sz);
              procs == old(procs)[p := old(procs[p]).(sz := if sz + n < 0 then sz else sz + n)]
      ensures Memory(p) == Resized(old(Memory(p)), old(procs[p].sz), procs[p].sz)
      ensures p in procs && FrameOf(m.mem, procs[p].trapframe) == old(FrameOf(m.mem, procs[p].trapframe))
      ensures Valid() && OthersSame(old(m.mem), old(procs), old(shape), m.mem, procs, shape, old(procs.Keys) - {p})
    {
      hide Wf, LeavesOk, UserFrames, PagesOf, SpaceOk, ProcOk, UserIs, Top, Machine.Ok, Pages, Layout, SameTop, Foot,
           Fill, Without, ZeroPage;
      var pr := procs[p];
      ghost var t, mem0, free0 := shape[p], m.mem, m.Free();
      AtProc(m.mem, free0, procs, shape, pool, tramp, p);
      ghost var t';
      var sz;
      sz, t' := m.Uvmdealloc(t, pr.pagetable, pr.sz, (pr.sz + n) % UINT64);
      SameTopRefl(t);
      RollBack(t, t, t', Pages(sz), Pages(pr.sz) - Pages(sz));
      Wrapped(pr.sz, n);
      Update(p, sz, t', mem0, free0);
    }

    /** Overwrite a process's trapframe page. */
    method SetTrapframe(p: nat, data: seq<Byte>)
      requires Valid() && p in procs && |data| == PGSIZE
      modifies m
      ensures Valid() && m.Free() == old(m.Free()) && p in procs && p in shape
      ensures procs[p].trapframe in m.mem && m.mem[procs[p].trapframe] == Data(data)
      ensures OthersSame(old(m.mem), procs, shape, m.mem, procs, shape, procs.Keys - {p})
      ensures Memory(p) == old(Memory(p))
    {
      hide Wf, LeavesOk, UserFrames, PagesOf, SpaceOk, ProcOk, UserIs, Top, Machine.Ok, Pages, Layout;
      ghost var t, free0 := shape[p], m.Free();
      AtProc(m.mem, free0, procs, shape, pool, tramp, p);
      ProcSpace(m.mem, t, procs[p], tramp);
      WriteFrame(m, procs[p].trapframe, data);
      TrapframeWritten(old(m.mem), m.mem, t, procs[p], tramp);
      ProcSpace(m.mem, t, procs[p], tramp);
      KeepsBoth(old(m.mem), m.mem, m.mem, {procs[p].trapframe}, {}, Foot(t, procs[p]) + free0);
      Replace(old(m.mem), free0, procs, shape, pool, tramp, m.mem, free0, p, procs[p], t);
      assert procs[p := procs[p]] == procs && shape[p := t] == shape;
    }

    /** kfork, as far as memory goes: a child with the same memory on its own frames, or no
        child and no page lost. */
    method Kfork(p: nat, np: nat) returns (ok: bool)
      requires Valid() && p in procs && np !in procs
      modifies this, m
      ensures !ok ==> procs == old(procs) && shape == old(shape) && m.Free() == old(m.Free())
      ensures ok ==> np in procs && procs == old(procs)[np := procs[np]] && procs[np].sz == old(procs[p].sz)
      ensures ok ==> np in shape && p in shape && p in old(shape) && Memory(np) == old(Memory(p)) == Memory(p)
      ensures ok ==> np in procs && TrapframeCopied(old(m.mem), old(procs[p].trapframe), m.mem, procs[np].trapframe)
      ensures ok <==> |old(m.free)| >= 1 + ImagePages(Pages(old(procs[p].sz)))
      ensures Valid() && OthersSame(old(m.mem), old(procs), old(shape), m.mem, procs, shape, old(procs.Keys))
    {
      hide Wf, LeavesOk, UserFrames, PagesOf, SpaceOk, ProcOk, UserIs, Top, Machine.Ok, Pages, Layout, SameTop, Foot,
           Overlay, OthersSame, Short, Range, ImagePages, TopNodes;
      ghost var mem0, procs0, shape0 := m.mem, procs, shape;
      AtLeastTop(Pages(procs[p].sz));
      ok := Allocproc(np);
      if !ok { return; }
      CopyNeeds(shape[np], |m.free|, Pages(procs[p].sz));
      ghost var mem1, procs1, shape1 := m.mem, procs, shape;
      SameFor(mem0, procs0, shape0, mem1, procs1, shape1, procs0.Keys, p);
      ok := CopyMemory(p, np);
      OthersTrans(mem0, procs0, shape0, mem1, procs1, shape1, m.mem, procs, shape, procs0.Keys, procs1.Keys - {np});
      ghost var mem2, procs2, shape2 := m.mem, procs, shape;
      if !ok {
        Freeproc(np);
        OthersTrans(mem0, procs0, shape0, mem2, procs2, shape2, m.mem, procs, shape, procs0.Keys, procs2.Keys - {np});
        assert procs == procs0 && shape == shape0;
        return;
      }
      AtProc(m.mem, m.Free(), procs, shape, pool, tramp, p);
      ProcSpace(m.mem, shape[p], procs[p], tramp);
      SetTrapframe(np, ChildTrapframe(m.mem[procs[p].trapframe].b));
      OthersTrans(mem0, procs0, shape0, mem2, procs2, shape2, m.mem, procs, shape, procs0.Keys, procs2.Keys - {np});
      SameFor(mem0, procs0, shape0, mem2, procs2, shape2, procs0.Keys, p);
      SameFor(mem0, procs0, shape0, m.mem, procs, shape, procs0.Keys, p);
    }

    /** uvmcopy into a process that has no user memory yet. */
    method CopyMemory(p: nat, np: nat) returns (ok: bool)
      requires Valid() && p in procs && np in procs && p != np && procs[np].sz == 0
      modifies this, m
      ensures Valid() && np in procs && np in shape && p in shape && p in old(shape) && np in old(shape)
      ensures OthersSame(old(m.mem), old(procs), old(shape), m.mem, procs, shape, old(procs.Keys) - {np})
      ensures shape == old(shape)[np := shape[np]]
      ensures ok ==> procs == old(procs)[np := old(procs[np]).(sz := old(procs[p].sz))] && Memory(np) == old(Memory(p))
      ensures !ok ==> procs == old(procs)
      ensures Foot(shape[np], procs[np]) + m.Free() == Foot(old(shape[np]), old(procs[np])) + old(m.Free())
      ensures ok <==> !Lacks(old(shape[np]), |old(m.free)|, Pages(old(procs[p].sz)))
    {
      hide Wf, LeavesOk, UserFrames, PagesOf, SpaceOk, ProcOk, UserIs, Top, Machine.Ok, Pages, Layout, SameTop,
           Overlay, OthersSame, Took, Short, Range, Below;
      ghost var mem0, free0, t1, t2 := m.mem, m.Free(), shape[p], shape[np];
      TwoProcs(m.mem, free0, procs, shape, pool, tramp, p, np);
      ghost var c1, c2 := Contents(m.mem, t1), Contents(m.mem, t2);
      ghost var t';
      ghost var n0 := |m.free|;
      ok, t' := m.Uvmcopy(t1, c1, procs[p].pagetable, t2, c2, procs[np].pagetable, procs[p].sz);
      CopyExact(mem0, t1, c1, Pages(procs[p].sz), t2, n0, t', |m.free|, ok);
      Copied(mem0, t1, c1, t2, c2, m.mem, t', procs[p].sz, ok);
      Update(np, if ok then procs[p].sz else 0, t', mem0, free0);
    }

    /** kexec: replace the memory of `p` by a new image, or change nothing. `elf` tells
        whether the header was read and had the right magic number. */
    method Kexec(p: nat, elf: bool, entry: nat, phs: seq<Segment>, file: seq<Byte>, args: seq<seq<Byte>>)
      returns (r: int, sp: nat, ptrs: seq<nat>)
      requires Valid() && p in procs && |file| <= MAXFILE_BYTES && entry < UINT64
      requires forall s :: s in phs ==> s.vaddr < UINT64 && s.memsz < UINT64
      requires |args| < 32 && forall a :: a in args ==> |a| < PGSIZE
      modifies this, m
      ensures r == -1 || r == |args|
      ensures r != -1 <==> elf && Buildable(phs, file, args, |old(m.free)|)
      ensures r == -1 ==> procs == old(procs) && shape == old(shape) && m.Free() == old(m.Free())
      ensures r != -1 ==>
                p in procs && procs == old(procs)[p := procs[p]] && procs[p].trapframe == old(procs[p].trapframe)
      ensures r != -1 ==> p in procs && p in shape && Loaded(m.mem, shape[p], ptrs, args, sp, phs, file)
      ensures r != -1 ==> p in procs && procs[p].sz == (Pages(SizeOf(phs, |phs|)) + 2) * PGSIZE
      ensures r != -1 ==> p in procs && Started(old(m.mem), m.mem, procs[p].trapframe, entry, sp)
      ensures r == -1 ==> OthersSame(old(m.mem), old(procs), old(shape), m.mem, procs, shape, old(procs.Keys))
      ensures r != -1 ==> OthersSame(old(m.mem), old(procs), old(shape), m.mem, procs, shape, old(procs.Keys) - {p})
      ensures Valid()
    {
      hide Wf, LeavesOk, UserFrames, PagesOf, SpaceOk, ProcOk, UserIs, Top, Machine.Ok, Pages, Layout, OthersSame,
           Loaded,
           Foot, Started, Buildable, SizeOf;
      ghost var free0, t0 := m.Free(), shape[p];
      var pr := procs[p];
      sp, ptrs := 0, [];
      AtProc(m.mem, free0, procs, shape, pool, tramp, p);
      Idle(m.mem, free0, procs, shape, pool, tramp, m.mem);
      ProcSpace(m.mem, t0, pr, tramp);
      if !elf { return -1, sp, ptrs; }
      var ok, root, sz;
      ghost var t;
      ok, root, sz, sp, ptrs, t := BuildImage(m, tramp, pr.trapframe, phs, file, args);
      Idle(old(m.mem), free0, procs, shape, pool, tramp, m.mem);
      if !ok { return -1, sp, ptrs; }
      ghost var mem1, free1 := m.mem, m.Free();
      AtProc(m.mem, free0, procs, shape, pool, tramp, p);
      OldSurvives(m.mem, free0, t0, pr, t, free1);
      ProcFreepagetable(m, t0, pr.pagetable, pr.sz, pr.trapframe, tramp);
      var pr' := Proc(root, sz, pr.trapframe);
      Committed(old(m.mem), free0, mem1, free1, t0, pr, m.mem, m.Free(), t, pr', tramp, ptrs, args, sp, phs, file);
      TrapframeKept(old(m.mem), free0, mem1, t0, pr, m.mem, tramp);
      Replace(old(m.mem), free0, procs, shape, pool, tramp, m.mem, m.Free(), p, pr', t);
      procs, shape := procs[p := pr'], shape[p := t];
      ghost var mem2 := m.mem;
      AtProc(m.mem, m.Free(), procs, shape, pool, tramp, p);
      ProcSpace(m.mem, t, pr', tramp);
      SetTrapframe(p, StartTrapframe(m.mem[pr'.trapframe].b, entry, sp));
      AtProc(m.mem, m.Free(), procs, shape, pool, tramp, p);
      StillLoaded(mem2, m.mem, t, ptrs, args, sp, phs, file);
      OthersTrans(old(m.mem), old(procs), old(shape), mem2, procs, shape, m.mem, procs, shape, old(procs.Keys) - {p},
                  procs.Keys - {p});
      StackFits(m.mem, t, ptrs, args, sp, phs, file);
      IsStarted(old(m.mem), m.mem, pr'.trapframe, entry, sp);
      r := |args|;
    }

    /** copyout to process `p`: the longest prefix of `src` that `p` may write at `va`. */
    method Store(p: nat, va: nat, src: seq<Byte>) returns (ok: bool, ghost n: nat)
      requires Valid() && p in procs
      modifies m
      ensures p in shape && n <= |src| && Written(old(Memory(p)), Memory(p), va, src[..n])
      ensures ok <==> n == |src|
      ensures (forall x: nat :: va <= x < va + n ==> WritableAt(old(Memory(p)), x))
      ensures !ok ==> !WritableAt(old(Memory(p)), va + n)
      ensures m.Free() == old(m.Free()) && p in procs
      ensures p in procs && FrameOf(m.mem, procs[p].trapframe) == old(FrameOf(m.mem, procs[p].trapframe))
      ensures Valid() && OthersSame(old(m.mem), procs, shape, m.mem, procs, shape, procs.Keys - {p})
    {
      hide Wf, LeavesOk, UserFrames, PagesOf, SpaceOk, ProcOk, UserIs, Top, Machine.Ok, Pages, Layout, Written,
           WritableAt;
      ghost var t, free0 := shape[p], m.Free();
      AtProc(m.mem, free0, procs, shape, pool, tramp, p);
      TopIsKernel(t, procs[p].trapframe, tramp);
      ghost var c := Contents(m.mem, t);
      ghost var c';
      ok, c', n := Copyout(m, t, c, procs[p].pagetable, va, src);
      Stored(old(m.mem), m.mem, t, procs[p], tramp);
      FrameApart(old(m.mem), free0, procs, shape, pool, tramp, p, m.mem);
      KeepsBoth(old(m.mem), m.mem, m.mem, UserFrames(t.view), {}, Foot(t, procs[p]) + free0);
      Replace(old(m.mem), free0, procs, shape, pool, tramp, m.mem, free0, p, procs[p], t);
      assert procs[p := procs[p]] == procs && shape[p := t] == shape;
    }

    /** One operation, if it applies: what it does to the process it is about, when it succeeds, and
        nothing else. */
    method Apply(op: Op) returns (ok: bool)
      requires Valid() && OpOk(op)
      modifies this, m
      ensures Valid() && Does(op, ok, old(TheWorld()), TheWorld())
    {
      match op {
        case Create(p) => ok := ApplyCreate(p);
        case Grow(p, n) => ok := ApplyGrow(p, n);
        case Fork(p, q) => ok := ApplyFork(p, q);
        case Exec(_, _, _, _, _, _) => ok := ApplyExec(op);
        case Store(p, va, src) => ok := ApplyStore(p, va, src);
        case Free(p) => ok := ApplyFree(p);
      }
    }

    method ApplyCreate(p: nat) returns (ok: bool)
      requires Valid()
      modifies this, m
      ensures Valid() && Does(Create(p), ok, old(TheWorld()), TheWorld())
    {
      hide Layout, Machine.Ok, OthersSame, MemoryOf, FrameOf, Foot;
      ghost var mem0, procs0, shape0 := m.mem, procs, shape;
      ok := false;
      if p !in procs {
        ok := Allocproc(p);
        if ok {
          Fewer(mem0, procs0, shape0, m.mem, procs, shape, procs0.Keys, procs0.Keys - {p});
          OnlyOne(mem0, procs0, shape0, m.mem, procs, shape, p, |old(m.free)|, |m.free|);
        } else {
          NoneChanged(mem0, procs0, shape0, m.mem);
        }
      }
    }

    method ApplyGrow(p: nat, n: int) returns (ok: bool)
      requires Valid() && OpOk(Grow(p, n))
      modifies this, m
      ensures Valid() && Does(Grow(p, n), ok, old(TheWorld()), TheWorld())
    {
      hide Layout, Machine.Ok, OthersSame, MemoryOf, FrameOf, Resized, TooLarge;
      ghost var mem0, procs0, shape0 := m.mem, procs, shape;
      ok := false;
      if p in procs {
        var r := Growproc(p, n);
        ok := r == 0;
        OnlyOne(mem0, procs0, shape0, m.mem, procs, shape, p, |old(m.free)|, |m.free|);
        if !ok { assert Privs(m.mem, procs, shape)[p] == Privs(mem0, procs0, shape0)[p]; }
      }
    }

    method ApplyFork(p: nat, q: nat) returns (ok: bool)
      requires Valid()
      modifies this, m
      ensures Valid() && Does(Fork(p, q), ok, old(TheWorld()), TheWorld())
    {
      hide Layout, Machine.Ok, OthersSame, MemoryOf, FrameOf, Foot, ImagePages, Pages, FrameCopied;
      ghost var mem0, procs0, shape0 := m.mem, procs, shape;
      ok := false;
      if p in procs && q !in procs {
        ok := Kfork(p, q);
        if ok {
          Fewer(mem0, procs0, shape0, m.mem, procs, shape, procs0.Keys, procs0.Keys - {q});
          OnlyOne(mem0, procs0, shape0, m.mem, procs, shape, q, |old(m.free)|, |m.free|);
          FrameIsCopied(mem0, procs0[p].trapframe, m.mem, procs[q].trapframe);
        } else {
          NoneChanged(mem0, procs0, shape0, m.mem);
        }
      }
    }

    method ApplyExec(op: Op) returns (ok: bool)
      requires Valid() && op.Exec? && OpOk(op)
      modifies this, m
      ensures Valid() && Does(op, ok, old(TheWorld()), TheWorld())
    {
      hide Layout, Machine.Ok, OthersSame, MemoryOf, FrameOf, Foot, Buildable, LoadedIn, FrameStarted, Pages, SizeOf;
      ghost var mem0, procs0, shape0 := m.mem, procs, shape;
      ok := false;
      if op.p in procs {
        var r, sp, ptrs := Kexec(op.p, op.elf, op.entry, op.phs, op.file, op.args);
        ok := r != -1;
        if ok {
          OnlyOne(mem0, procs0, shape0, m.mem, procs, shape, op.p, |old(m.free)|, |m.free|);
          ItRuns(mem0, m.mem, procs0[op.p], procs[op.p], shape0[op.p], shape[op.p], op, sp, ptrs);
        } else {
          NoneChanged(mem0, procs0, shape0, m.mem);
        }
      }
    }

    method ApplyStore(p: nat, va: nat, src: seq<Byte>) returns (ok: bool)
      requires Valid()
      modifies m
      ensures Valid() && Does(Op.Store(p, va, src), ok, old(TheWorld()), TheWorld())
    {
      hide Layout, Machine.Ok, OthersSame, MemoryOf, FrameOf, Foot, Written, WritableAt;
      ghost var mem0 := m.mem;
      ok := false;
      if p in procs {
        ghost var n;
        ok, n := Store(p, va, src);
        OnlyOne(mem0, procs, shape, m.mem, procs, shape, p, |old(m.free)|, |m.free|);
        assert PrefixStored(MemoryOf(mem0, shape[p]), MemoryOf(m.mem, shape[p]), va, src, n, ok);
      }
    }

    method ApplyFree(p: nat) returns (ok: bool)
      requires Valid()
      modifies this, m
      ensures Valid() && Does(Op.Free(p), ok, old(TheWorld()), TheWorld())
    {
      hide Layout, Machine.Ok, OthersSame, MemoryOf, FrameOf, Foot;
      ghost var mem0, procs0, shape0 := m.mem, procs, shape;
      ok := p in procs;
      if ok {
        Freeproc(p);
        PrivKept(mem0, procs0, shape0, m.mem, procs, shape, procs0.Keys - {p});
        assert Privs(m.mem, procs, shape) == Privs(mem0, procs0, shape0) - {p};
      } else {
        assert Privs(m.mem, procs, shape) == Privs(mem0, procs0, shape0) - {p};
      }
    }

    /** Any run of the operations is one of the machine with private memories, with the same outcomes, and
        once the last process is gone every page is back. */
    method Run(ops: seq<Op>) returns (oks: seq<bool>, ghost worlds: seq<World>)
      requires Valid() && forall op :: op in ops ==> OpOk(op)
      modifies this, m
      ensures Valid() && IsRun(ops, oks, worlds) && worlds[0] == old(TheWorld()) && worlds[|ops|] == TheWorld()
      ensures procs == map[] ==> m.Free() == pool
    {
      hide Layout, Machine.Ok, OpOk, Does, Privs;
      oks, worlds := [], [TheWorld()];
      for i := 0 to |ops|
        invariant Valid() && IsRun(ops[..i], oks, worlds) && worlds[0] == old(TheWorld()) && worlds[i] == TheWorld()
      {
        var ok := Apply(ops[i]);
        oks, worlds := oks + [ok], worlds + [TheWorld()];
      }
      assert ops[..|ops|] == ops;
      if procs == map[] {
        assert shape == map[];
        AllReturned(m.mem, m.Free(), pool, tramp);
      }
    }

    /** After a fork the two processes part: whatever is done later, by way of copyout or
        otherwise, to one of them is invisible to the other. */
    method ForkAndRun(p: nat, q: nat, ops: seq<Op>) returns (oks: seq<bool>)
      requires Valid() && p in procs && q !in procs
      requires forall op :: op in ops ==> OpOk(op)
      modifies this, m
      ensures p in old(shape) && |oks| == |ops| + 1
      ensures oks[0] <==> |old(m.free)| >= 1 + ImagePages(Pages(old(procs[p].sz)))
      ensures oks[0] && (forall op :: op in ops ==> !Changes(op, q)) ==> q in shape && Memory(q) == old(Memory(p))
      ensures oks[0] && (forall op :: op in ops ==> !Changes(op, p)) ==> p in shape && Memory(p) == old(Memory(p))
      ensures Valid()
    {
      hide Layout, Machine.Ok, Changes, ImagePages, Pages;
      ghost var all := [Op.Fork(p, q)] + ops;
      ghost var worlds;
      oks, worlds := Run([Op.Fork(p, q)] + ops);
      assert all[0] == Op.Fork(p, q) && Does(all[0], oks[0], worlds[0], worlds[1]);
      if oks[0] { ForkParts(all, oks, worlds, 0, |all|, p, q); }
    }
  }
}
