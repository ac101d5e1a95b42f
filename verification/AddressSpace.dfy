/** Process address spaces over their whole life (the page-table parts of
    kernel/proc/proc.c and kernel/proc/exec.c): create, grow, shrink, copy, exec, free,
    with every allocation-failure path. */
module AddressSpace {
  import opened Sv39
  import opened PageTable
  import opened Space
  import opened Vm
  import opened CopyUser

  /** struct proc: the fields that own memory. */
  datatype Proc = Proc(pagetable: nat, sz: nat, trapframe: nat)

  const TRAPFRAME_PERM := PTE_R + PTE_W
  const TRAMPOLINE_PERM := PTE_R + PTE_X

  /** Above user memory a table maps exactly the trapframe and the trampoline. */
  ghost predicate Top(t: Shape, tf: nat, tramp: nat) {
    && (forall v :: v in t.view && UTOP <= v ==> v == UTOP || v == UTOP + 1)
    && UTOP in t.view && t.view[UTOP] == MakePte(tf, TRAPFRAME_PERM)
    && UTOP + 1 in t.view && t.view[UTOP + 1] == MakePte(tramp, TRAMPOLINE_PERM)
  }

  ghost predicate NoTop(t: Shape) { forall v :: v in t.view ==> v < UTOP }

  lemma TopKept(t: Shape, t': Shape, tf: nat, tramp: nat)
    requires Top(t, tf, tramp) && SameTop(t, t')
    ensures Top(t', tf, tramp)
  {
  }

  lemma TopIsKernel(t: Shape, tf: nat, tramp: nat)
    requires Top(t, tf, tramp)
    ensures KernelTop(t)
  {
    PteRoundTrip(tf, TRAPFRAME_PERM);
    PteRoundTrip(tramp, TRAMPOLINE_PERM);
  }

  lemma TopRemoved(t: Shape, t1: Shape, t2: Shape, tf: nat, tramp: nat)
    requires Top(t, tf, tramp)
    requires t1.view == Without(t.view, UTOP + 1, 1) && t2.view == Without(t1.view, UTOP, 1)
    ensures NoTop(t2) && forall n :: UserIs(t, n) ==> UserIs(t2, n)
  {
  }

  lemma UserFramesTop(w: map<nat, nat>, w': map<nat, nat>)
    requires forall v :: v < UTOP ==> (v in w' <==> v in w)
    requires forall v :: v in w && v < UTOP ==> w'[v] == w[v]
    ensures UserFrames(w') == UserFrames(w)
  {
    forall f | f in UserFrames(w) ensures f in UserFrames(w') {
      var u :| u in w && u < UTOP && PteFrame(w[u]) == f;
      assert u in w' && w'[u] == w[u];
    }
    forall f | f in UserFrames(w') ensures f in UserFrames(w) {
      var u :| u in w' && u < UTOP && PteFrame(w'[u]) == f;
      assert u in w;
    }
  }

  /** uvmcreate: an empty table. */
  method Uvmcreate(m: Machine) returns (root: nat, ghost t: Shape)
    requires m.Ok()
    modifies m
    ensures m.Ok()
    ensures root == 0 ==> m.mem == old(m.mem) && m.free == old(m.free) == [] && m.Free() == old(m.Free())
    ensures root != 0 ==> At(m.mem, t, root, m.Free()) && t.view == map[]
    ensures root != 0 ==> Owned(t) + m.Free() == old(m.Free()) && Keeps(old(m.mem), m.mem, old(m.Free()))
    ensures root != 0 ==> |m.free| == |old(m.free)| - 1 && t.node.Keys == {Root}
  {
    root := m.Kalloc();
    t := Shape(map[Root := root], map[root := Root], map[]);
    if root != 0 {
      m.mem := m.mem[root := Table(seq(512, _ => 0))];
      EmptyTable(m.mem, root);
      assert Nodes(t) == {root};
    }
  }

  lemma EmptyTable(mem: Mem, root: nat)
    requires root != 0 && root in mem && mem[root] == Table(seq(512, _ => 0))
    ensures var t := Shape(map[Root := root], map[root := Root], map[]);
            SpaceOk(mem, t)
  {
    var t := Shape(map[Root := root], map[root := Root], map[]);
    assert ShapeOk(t);
    forall v: nat ensures Entry(mem, t, v) == 0 {}
  }

  /** Map one page above user memory: the trampoline or the trapframe. */
  method MapTop(m: Machine, ghost t: Shape, root: nat, va: nat, f: nat, perm: nat) returns (ok: bool, ghost t': Shape)
    requires m.Ok() && At(m.mem, t, root, m.Free()) && va % PGSIZE == 0
    requires TRAPFRAME <= va < MAXVA && va / PGSIZE !in t.view && perm < 1024 && PteLeaf(perm)
    modifies m
    ensures m.Ok() && Conserves(old(m.mem), t, old(m.Free()), m.mem, t', m.Free())
    ensures t'.view == if ok then t.view[va / PGSIZE := MakePte(f, perm)] else t.view
    ensures if ok then Took(t, |old(m.free)|, t', |m.free|, Range(va / PGSIZE, 1), 0)
            else Short(t, |old(m.free)|, Range(va / PGSIZE, 1), 0)
  {
    hide Wf, LeavesOk, UserFrames, PagesOf, PteLeaf, MakePte, Bind, Took, Short, Range;
    ghost var done;
    ok, t', done := m.Mappages(t, root, va, PGSIZE, f, perm);
    BindStep(t.view, va / PGSIZE, f, 0, perm);
    BindNone(t.view, va / PGSIZE, f, perm);
    UserFramesTop(t.view, t'.view);
    TopConserves(old(m.mem), t, old(m.Free()), m.mem, t', m.Free());
  }

  lemma BindNone(w: map<nat, nat>, v: nat, f: nat, perm: nat)
    ensures Bind(w, v, f, 0, perm) == w
  {
  }

  lemma TopConserves(mem: Mem, t: Shape, free: set<nat>, mem': Mem, t': Shape, free': set<nat>)
    requires SpaceOk(mem, t) && Owned(t) !! free && Grows(mem, t, free, mem', t', free')
    requires forall v :: v < UTOP ==> (v in t'.view <==> v in t.view)
    requires forall v :: v in t.view && v < UTOP ==> t'.view[v] == t.view[v]
    requires UserFrames(t'.view) == UserFrames(t.view)
    ensures Conserves(mem, t, free, mem', t', free')
  {
    hide Wf, LeavesOk, UserFrames, PagesOf;
    LeavesDisjoint(mem, Nodes(t), t.view);
    LeavesTop(mem, mem', Nodes(t), Nodes(t'), t.view, t'.view);
  }

  lemma LeavesTop(mem: Mem, mem': Mem, nodes: set<nat>, nodes': set<nat>, w: map<nat, nat>, w': map<nat, nat>)
    requires LeavesOk(mem, nodes, w) && nodes' !! UserFrames(w)
    requires forall f :: f in UserFrames(w) && f in mem ==> f in mem' && mem'[f] == mem[f]
    requires forall v :: v < UTOP ==> (v in w' <==> v in w)
    requires forall v :: v in w && v < UTOP ==> w'[v] == w[v]
    ensures LeavesOk(mem', nodes', w')
  {
    LeavesKept(mem, mem', nodes, nodes', w);
    forall v | v in w' && v < UTOP ensures LeafOk(mem', nodes', w'[v]) {
      assert LeafOk(mem', nodes', w[v]);
    }
  }

  /** The table nodes of an address space without user memory. */
  ghost function TopNodes(): (ps: set<Pos>)
    ensures |ps| == 3
  {
    {Root, Mid(255), Bot(131071)}
  }

  lemma TopPath()
    ensures Paths(Range(TRAMPOLINE / PGSIZE, 1)) == Paths(Range(TRAPFRAME / PGSIZE, 1)) == {Mid(255), Bot(131071)}
  {
    assert Range(TRAMPOLINE / PGSIZE, 1) == {TRAMPOLINE / PGSIZE};
    assert Range(TRAPFRAME / PGSIZE, 1) == {TRAPFRAME / PGSIZE};
  }

  /** The trampoline's nodes are added to the root, and then they are the trapframe's too. */
  lemma TopTook(t: Shape, n: nat, t1: Shape, n1: nat, t2: Shape, n2: nat)
    requires t.node.Keys == {Root} && Took(t, n, t1, n1, Range(TRAMPOLINE / PGSIZE, 1), 0)
    requires Took(t1, n1, t2, n2, Range(TRAPFRAME / PGSIZE, 1), 0)
    ensures t2.node.Keys == TopNodes() && n2 == n - 2
  {
    hide Paths, Range;
    TopPath();
  }

  lemma TopShort(t: Shape, n: nat, vs: set<nat>)
    requires t.node.Keys == {Root} && Short(t, n, vs, 0) && vs <= {TRAMPOLINE / PGSIZE, TRAPFRAME / PGSIZE}
    ensures n < 2
  {
    forall v | v in vs ensures v / 262144 == 255 && v / 512 == 131071 {}
    assert t.node.Keys + Paths(vs) <= TopNodes();
    hide Paths;
    SubsetSize(t.node.Keys + Paths(vs), TopNodes());
  }

  lemma TopShortLater(t: Shape, n: nat, t1: Shape, n1: nat)
    requires t.node.Keys == {Root} && Took(t, n, t1, n1, Range(TRAMPOLINE / PGSIZE, 1), 0)
    requires Short(t1, n1, Range(TRAPFRAME / PGSIZE, 1), 0)
    ensures n < 2
  {
    hide Took, Short;
    var all := Range(TRAMPOLINE / PGSIZE, 1) + Range(TRAPFRAME / PGSIZE, 1);
    ShortLater(t, n, t1, n1, Range(TRAMPOLINE / PGSIZE, 1), 0, Range(TRAPFRAME / PGSIZE, 1), 0, all, 0);
    TopShort(t, n, all);
  }

  /** proc_pagetable: a table with no user memory, or no table and no page lost. */
  method ProcPagetable(m: Machine, tramp: nat, tf: nat) returns (root: nat, ghost t: Shape)
    requires m.Ok()
    modifies m
    ensures m.Ok() && Keeps(old(m.mem), m.mem, old(m.Free()))
    ensures root == 0 ==> m.Free() == old(m.Free())
    ensures root != 0 ==> At(m.mem, t, root, m.Free()) && UserIs(t, 0) && Top(t, tf, tramp)
    ensures root != 0 ==> Owned(t) + m.Free() == old(m.Free())
    ensures root == 0 <==> |old(m.free)| < 3
    ensures root != 0 ==> |m.free| == |old(m.free)| - 3 && t.node.Keys == TopNodes()
  {
    hide Wf, LeavesOk, UserFrames, PagesOf, PteLeaf, MakePte, SpaceOk, UserIs, Top, Pages, NoTop, Machine.Ok,
         Machine.Free, Took, Short, Range, TopNodes;
    root, t := Uvmcreate(m);
    if root == 0 { return; }
    ghost var t0, mem0, free0, n0 := t, m.mem, m.Free(), |m.free|;
    TopPerms();
    var ok;
    ok, t := MapTop(m, t, root, TRAMPOLINE, tramp, TRAMPOLINE_PERM);
    if !ok {
      assert Range(TRAMPOLINE / PGSIZE, 1) <= {TRAMPOLINE / PGSIZE, TRAPFRAME / PGSIZE};
      TopShort(t0, n0, Range(TRAMPOLINE / PGSIZE, 1));
      BareTable(t);
      m.Uvmfree(t, root, 0);
      KeepsTrans(old(m.mem), mem0, m.mem, old(m.Free()), Owned(t0) + free0);
      return 0, t;
    }
    ghost var t1, mem1, free1, n1 := t, m.mem, m.Free(), |m.free|;
    ok, t := MapTop(m, t, root, TRAPFRAME, tf, TRAPFRAME_PERM);
    ConservesTrans(mem0, t0, free0, mem1, t1, free1, m.mem, t, m.Free());
    if !ok {
      TopShortLater(t0, n0, t1, n1);
      ghost var t2, mem2, free2 := t, m.mem, m.Free();
      t := m.Uvmunmap(t, root, TRAMPOLINE, 1, false);
      ConservesTrans(mem0, t0, free0, mem2, t2, free2, m.mem, t, m.Free());
      BareTable(t);
      m.Uvmfree(t, root, 0);
      return 0, t;
    }
    TopTook(t0, n0, t1, n1, t, |m.free|);
    TopMade(t, tf, tramp);
  }

  lemma BareTable(t: Shape)
    requires t.view == map[]
    ensures UserIs(t, Pages(0)) && forall v :: v in t.view ==> v < UTOP
  {
  }

  lemma TopMade(t: Shape, tf: nat, tramp: nat)
    requires t.view == map[][UTOP + 1 := MakePte(tramp, TRAMPOLINE_PERM)][UTOP := MakePte(tf, TRAPFRAME_PERM)]
    ensures UserIs(t, 0) && Top(t, tf, tramp)
  {
  }

  lemma TopPerms()
    ensures PteLeaf(TRAMPOLINE_PERM) && PteLeaf(TRAPFRAME_PERM)
  {
  }

  /** proc_freepagetable: give back everything a table owns; the trapframe page and the
      trampoline are not its to free. */
  method ProcFreepagetable(m: Machine, ghost t: Shape, root: nat, sz: nat, ghost tf: nat, ghost tramp: nat)
    requires m.Ok() && At(m.mem, t, root, m.Free()) && UserIs(t, Pages(sz)) && Top(t, tf, tramp)
    modifies m
    ensures m.Ok() && m.Free() == old(m.Free()) + Owned(t) && Keeps(old(m.mem), m.mem, Owned(t))
  {
    hide Wf, LeavesOk, UserFrames, PagesOf, MakePte, SpaceOk, Without, UserIs, Pages;
    ghost var t1 := m.Uvmunmap(t, root, TRAMPOLINE, 1, false);
    ghost var mem1, free1 := m.mem, m.Free();
    ghost var t2 := m.Uvmunmap(t1, root, TRAPFRAME, 1, false);
    ConservesTrans(old(m.mem), t, old(m.Free()), mem1, t1, free1, m.mem, t2, m.Free());
    TopRemoved(t, t1, t2, tf, tramp);
    m.Uvmfree(t2, root, sz);
  }

  /** The frames that belong to a process. */
  ghost function Foot(t: Shape, pr: Proc): set<nat> { Owned(t) + {pr.trapframe} }

  ghost predicate ProcOk(mem: Mem, t: Shape, pr: Proc, tramp: nat) {
    && SpaceOk(mem, t) && Root in t.node && t.node[Root] == pr.pagetable
    && UserIs(t, Pages(pr.sz)) && Top(t, pr.trapframe, tramp)
    && pr.trapframe in mem && mem[pr.trapframe].Data? && |mem[pr.trapframe].b| == PGSIZE
    && pr.trapframe !in Owned(t) && pr.trapframe != 0
  }

  /** A process has the frame. */
  ghost predicate Used(procs: map<nat, Proc>, shape: map<nat, Shape>, f: nat)
    requires shape.Keys == procs.Keys
  {
    exists p :: p in procs && f in Foot(shape[p], procs[p])
  }

  /** Every frame of the pool is free or belongs to exactly one process. */
  ghost predicate Layout(mem: Mem, free: set<nat>, procs: map<nat, Proc>, shape: map<nat, Shape>,
                         pool: set<nat>, tramp: nat)
  {
    && shape.Keys == procs.Keys
    && (forall p :: p in procs ==> ProcOk(mem, shape[p], procs[p], tramp) && Foot(shape[p], procs[p]) !! free)
    && (forall p, q :: p in procs && q in procs && p != q ==> Foot(shape[p], procs[p]) !! Foot(shape[q], procs[q]))
    && free <= pool && (forall p :: p in procs ==> Foot(shape[p], procs[p]) <= pool)
    && (forall f {:trigger Used(procs, shape, f)} :: f in pool && f !in free ==> Used(procs, shape, f))
  }

  /** A process is unaffected by writes outside its frames. */
  lemma ProcFrame(mem: Mem, mem': Mem, t: Shape, pr: Proc, tramp: nat, foot: set<nat>)
    requires ProcOk(mem, t, pr, tramp) && Keeps(mem, mem', foot) && Foot(t, pr) !! foot
    ensures ProcOk(mem', t, pr, tramp) && Contents(mem', t) == Contents(mem, t)
    ensures mem'[pr.trapframe] == mem[pr.trapframe]
  {
    hide Wf, LeavesOk, UserFrames, PagesOf, UserIs, Top, Pages;
    SpaceFrame(mem, mem', t, foot);
    assert pr.trapframe in Foot(t, pr);
  }

  lemma OthersKept(mem: Mem, free: set<nat>, procs: map<nat, Proc>, shape: map<nat, Shape>, pool: set<nat>,
                   tramp: nat, mem': Mem, foot: set<nat>, qs: set<nat>)
    requires Layout(mem, free, procs, shape, pool, tramp) && Keeps(mem, mem', foot) && qs <= procs.Keys
    requires forall q :: q in qs ==> Foot(shape[q], procs[q]) !! foot
    ensures forall q :: q in qs ==> ProcOk(mem', shape[q], procs[q], tramp)
    ensures OthersSame(mem, procs, shape, mem', procs, shape, qs)
  {
    hide ProcOk, Foot, Keeps, SpaceOk;
    forall q | q in qs ensures ProcOk(mem', shape[q], procs[q], tramp) && SpaceOk(mem, shape[q]) && SpaceOk(mem',
                                                                                                            shape[q])
                               && Contents(mem', shape[q]) == Contents(mem, shape[q])
                               && procs[q].trapframe in mem && procs[q].trapframe in mem'
                               && mem'[procs[q].trapframe] == mem[procs[q].trapframe] {
      ProcFrame(mem, mem', shape[q], procs[q], tramp, foot);
      ProcSpace(mem, shape[q], procs[q], tramp);
      ProcSpace(mem', shape[q], procs[q], tramp);
    }
  }

  lemma ProcSpace(mem: Mem, t: Shape, pr: Proc, tramp: nat)
    requires ProcOk(mem, t, pr, tramp)
    ensures SpaceOk(mem, t) && Root in t.node && t.node[Root] == pr.pagetable && pr.trapframe in Foot(t, pr)
    ensures UserIs(t, Pages(pr.sz)) && Top(t, pr.trapframe, tramp) && pr.trapframe !in Owned(t)
    ensures pr.trapframe in mem && mem[pr.trapframe].Data? && |mem[pr.trapframe].b| == PGSIZE && pr.trapframe != 0
  {
  }

  /** A frame that is not free has a process. */
  lemma Found(mem: Mem, free: set<nat>, procs: map<nat, Proc>, shape: map<nat, Shape>, pool: set<nat>, tramp: nat,
              free': set<nat>, procs': map<nat, Proc>, shape': map<nat, Shape>, p: nat, pr: Proc, t: Shape, f: nat)
    requires Layout(mem, free, procs, shape, pool, tramp) && p in procs && f in pool && f !in free'
    requires Foot(t, pr) + free' == Foot(shape[p], procs[p]) + free
    requires procs' == procs[p := pr] && shape' == shape[p := t]
    ensures Used(procs', shape', f)
  {
    hide ProcOk, Foot;
    if f in Foot(t, pr) {
      assert p in procs' && f in Foot(shape'[p], procs'[p]);
    } else {
      assert f !in Foot(shape[p], procs[p]) + free;
      assert Used(procs, shape, f);
      var q :| q in procs && f in Foot(shape[q], procs[q]);
      assert q in procs' && f in Foot(shape'[q], procs'[q]);
    }
  }

  /** One process trades frames with the free list. */
  lemma Replace(mem: Mem, free: set<nat>, procs: map<nat, Proc>, shape: map<nat, Shape>, pool: set<nat>, tramp: nat,
                mem': Mem, free': set<nat>, p: nat, pr: Proc, t: Shape)
    requires Layout(mem, free, procs, shape, pool, tramp) && p in procs && ProcOk(mem', t, pr, tramp)
    requires Foot(t, pr) !! free' && Foot(t, pr) + free' == Foot(shape[p], procs[p]) + free
    requires Keeps(mem, mem', Foot(shape[p], procs[p]) + free)
    ensures Layout(mem', free', procs[p := pr], shape[p := t], pool, tramp)
    ensures OthersSame(mem, procs, shape, mem', procs[p := pr], shape[p := t], procs.Keys - {p})
  {
    hide ProcOk, Foot, Keeps, SpaceOk, Contents;
    var qs, moved := procs.Keys - {p}, Foot(shape[p], procs[p]) + free;
    OthersKept(mem, free, procs, shape, pool, tramp, mem', moved, qs);
    var procs', shape' := procs[p := pr], shape[p := t];
    forall f | f in pool && f !in free' ensures Used(procs', shape', f) {
      Found(mem, free, procs, shape, pool, tramp, free', procs', shape', p, pr, t, f);
    }
  }

  /** The processes `qs` have the same table, trapframe and memory before and after. */
  ghost predicate OthersSame(mem: Mem, procs: map<nat, Proc>, shape: map<nat, Shape>,
                             mem': Mem, procs': map<nat, Proc>, shape': map<nat, Shape>, qs: set<nat>)
  {
    forall q :: q in qs ==>
      && q in procs && q in procs' && procs'[q] == procs[q]
      && q in shape && q in shape' && shape'[q] == shape[q] && SpaceOk(mem, shape[q]) && SpaceOk(mem', shape[q])
      && Contents(mem', shape[q]) == Contents(mem, shape[q])
      && procs[q].trapframe in mem && procs[q].trapframe in mem' && mem'[procs[q].trapframe] == mem[procs[q].trapframe]
  }

  lemma OthersTrans(mem: Mem, procs: map<nat, Proc>, shape: map<nat, Shape>,
                    mem1: Mem, procs1: map<nat, Proc>, shape1: map<nat, Shape>,
                    mem2: Mem, procs2: map<nat, Proc>, shape2: map<nat, Shape>, qs: set<nat>, qs': set<nat>)
    requires OthersSame(mem, procs, shape, mem1, procs1, shape1, qs)
    requires OthersSame(mem1, procs1, shape1, mem2, procs2, shape2, qs') && qs <= qs'
    ensures OthersSame(mem, procs, shape, mem2, procs2, shape2, qs)
  {
    hide SpaceOk, Contents;
  }

  /** A process comes into being with frames from the free list. */
  lemma Insert(mem: Mem, free: set<nat>, procs: map<nat, Proc>, shape: map<nat, Shape>, pool: set<nat>, tramp: nat,
               mem': Mem, free': set<nat>, p: nat, pr: Proc, t: Shape)
    requires Layout(mem, free, procs, shape, pool, tramp) && p !in procs && ProcOk(mem', t, pr, tramp)
    requires Foot(t, pr) !! free' && Foot(t, pr) + free' == free && Keeps(mem, mem', free)
    ensures Layout(mem', free', procs[p := pr], shape[p := t], pool, tramp)
    ensures OthersSame(mem, procs, shape, mem', procs[p := pr], shape[p := t], procs.Keys)
  {
    hide ProcOk, Foot, Keeps, SpaceOk, Contents;
    OthersKept(mem, free, procs, shape, pool, tramp, mem', free, procs.Keys);
    var procs', shape' := procs[p := pr], shape[p := t];
    forall f | f in pool && f !in free' ensures Used(procs', shape', f) {
      if f in Foot(t, pr) {
        assert p in procs' && f in Foot(shape'[p], procs'[p]);
      } else {
        assert Used(procs, shape, f);
        var q :| q in procs && f in Foot(shape[q], procs[q]);
        assert q in procs' && f in Foot(shape'[q], procs'[q]);
      }
    }
  }

  /** A process goes away and its frames are free again. */
  lemma Remove(mem: Mem, free: set<nat>, procs: map<nat, Proc>, shape: map<nat, Shape>, pool: set<nat>, tramp: nat,
               mem': Mem, free': set<nat>, p: nat)
    requires Layout(mem, free, procs, shape, pool, tramp) && p in procs
    requires free' == free + Foot(shape[p], procs[p]) && Keeps(mem, mem', Foot(shape[p], procs[p]) + free)
    ensures Layout(mem', free', procs - {p}, shape - {p}, pool, tramp)
    ensures OthersSame(mem, procs, shape, mem', procs - {p}, shape - {p}, procs.Keys - {p})
  {
    hide ProcOk, Foot, Keeps, SpaceOk, Contents;
    var qs := procs.Keys - {p};
    OthersKept(mem, free, procs, shape, pool, tramp, mem', Foot(shape[p], procs[p]) + free, qs);
    var procs', shape' := procs - {p}, shape - {p};
    forall f | f in pool && f !in free' ensures Used(procs', shape', f) {
      assert Used(procs, shape, f);
      var q :| q in procs && f in Foot(shape[q], procs[q]);
      assert q in procs' && f in Foot(shape'[q], procs'[q]);
    }
  }

  /** With no process left, every page of the pool is back on the free list. */
  lemma AllReturned(mem: Mem, free: set<nat>, pool: set<nat>, tramp: nat)
    requires Layout(mem, free, map[], map[], pool, tramp)
    ensures free == pool
  {
    forall f | f in pool ensures f in free {
      assert !Used(map[], map[], f);
    }
  }

  /** Where in a process a page can be. */
  datatype Spot = TableAt(pos: Pos) | LeafAt(v: nat) | TrapframePage

  datatype Place = OnFreeList | In(p: nat, spot: Spot)

  ghost predicate HoldsIn(t: Shape, pr: Proc, spot: Spot, f: nat) {
    match spot
    case TableAt(pos) => pos in t.node && t.node[pos] == f
    case LeafAt(v) => v in t.view && v < UTOP && PteFrame(t.view[v]) == f
    case TrapframePage => pr.trapframe == f
  }

  ghost predicate Holds(free: set<nat>, procs: map<nat, Proc>, shape: map<nat, Shape>, place: Place, f: nat) {
    match place
    case OnFreeList => f in free
    case In(p, spot) => p in procs && p in shape && HoldsIn(shape[p], procs[p], spot, f)
  }

  /** Every page of the pool is in exactly one place. */
  lemma ExactlyOnePlace(mem: Mem, free: set<nat>, procs: map<nat, Proc>, shape: map<nat, Shape>,
                        pool: set<nat>, tramp: nat, f: nat)
    requires Layout(mem, free, procs, shape, pool, tramp) && f in pool
    ensures exists place :: Holds(free, procs, shape, place, f)
    ensures forall a, b :: Holds(free, procs, shape, a, f) && Holds(free, procs, shape, b, f) ==> a == b
  {
    hide ProcOk, Foot, HoldsIn;
    if f in free {
      assert Holds(free, procs, shape, OnFreeList, f);
    } else {
      assert Used(procs, shape, f);
      var p :| p in procs && f in Foot(shape[p], procs[p]);
      var spot := SpotOf(mem, shape[p], procs[p], tramp, f);
      assert Holds(free, procs, shape, In(p, spot), f);
    }
    forall a, b | Holds(free, procs, shape, a, f) && Holds(free, procs, shape, b, f) ensures a == b {
      if a.In? { SpotInFoot(mem, shape[a.p], procs[a.p], tramp, f, a.spot); }
      if b.In? { SpotInFoot(mem, shape[b.p], procs[b.p], tramp, f, b.spot); }
      if a.In? && b.In? {
        assert a.p == b.p;
        SpotUnique(mem, shape[a.p], procs[a.p], tramp, f, a.spot, b.spot);
      }
    }
  }

  lemma SpotOf(mem: Mem, t: Shape, pr: Proc, tramp: nat, f: nat) returns (spot: Spot)
    requires ProcOk(mem, t, pr, tramp) && f in Foot(t, pr)
    ensures HoldsIn(t, pr, spot, f)
  {
    hide Top, UserIs, PteFrame, Entry, LeavesOk;
    if f == pr.trapframe { return TrapframePage; }
    if f in Nodes(t) { return TableAt(t.pos[f]); }
    var v :| v in t.view && v < UTOP && PteFrame(t.view[v]) == f;
    return LeafAt(v);
  }

  lemma SpotInFoot(mem: Mem, t: Shape, pr: Proc, tramp: nat, f: nat, spot: Spot)
    requires ProcOk(mem, t, pr, tramp) && HoldsIn(t, pr, spot, f)
    ensures f in Foot(t, pr)
  {
    hide Top, UserIs, PteFrame, Entry, LeavesOk;
  }

  lemma SpotUnique(mem: Mem, t: Shape, pr: Proc, tramp: nat, f: nat, a: Spot, b: Spot)
    requires ProcOk(mem, t, pr, tramp) && HoldsIn(t, pr, a, f) && HoldsIn(t, pr, b, f)
    ensures a == b
  {
    hide Top, UserIs, PteFrame, Entry;
    LeavesDisjoint(mem, Nodes(t), t.view);
    if a.TableAt? {
      assert f in Nodes(t) && t.pos[f] == a.pos;
    }
    if b.TableAt? {
      assert f in Nodes(t) && t.pos[f] == b.pos;
    }
    if a.LeafAt? || b.LeafAt? {
      assert a.LeafAt? ==> f in UserFrames(t.view);
      assert b.LeafAt? ==> f in UserFrames(t.view);
    }
  }
}
