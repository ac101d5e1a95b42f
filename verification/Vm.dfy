/** Physical memory, its page allocator (kernel/mm/kalloc.c) and the page-table
    operations (kernel/mm/vm.c), as methods on one machine. Conditions under which the
    source panics are preconditions here, so every call below is proved not to panic. */
module Vm {
  import opened Sv39
  import opened PageTable
  import opened Space
  import opened MachineWords

  ghost function Elems(s: seq<nat>): set<nat> { set f | f in s }

  /** What the list element after position `i` is, 0 at the end. */
  ghost function Link(s: seq<nat>, i: nat): nat { if i + 1 < |s| then s[i + 1] else 0 }

  ghost predicate Distinct(s: seq<nat>) {
    forall i, j :: 0 <= i < j < |s| ==> s[i] != s[j]
  }

  /** Any table page the tree gained came off the free list, and nothing outside the tree
      changed. */
  ghost predicate Grows(mem: Mem, t: Shape, free: set<nat>, mem': Mem, t': Shape, free': set<nat>)
    requires Wf(mem, t)
  {
    && Wf(mem', t') && Root in t.node && Root in t'.node && t'.node[Root] == t.node[Root]
    && Nodes(t) <= Nodes(t') && Nodes(t') !! free' && Nodes(t') + free' == Nodes(t) + free
    && Keeps(mem, mem', Nodes(t'))
  }

  /** The tree grew without changing a binding. */
  ghost predicate Extends(mem: Mem, t: Shape, free: set<nat>, mem': Mem, t': Shape, free': set<nat>)
    requires Wf(mem, t)
  {
    Grows(mem, t, free, mem', t', free') && t'.view == t.view
  }

  lemma GrowsRefl(mem: Mem, t: Shape, free: set<nat>)
    requires Wf(mem, t) && Nodes(t) !! free
    ensures Root in t.node && Grows(mem, t, free, mem, t, free)
  {
  }

  lemma {:induction false} SubsetSize<T>(a: set<T>, b: set<T>)
    requires a <= b
    ensures |a| <= |b|
  {
    assert b == a + (b - a);
  }

  /** The table nodes below the root that these pages need. */
  ghost function Paths(vs: set<nat>): set<Pos> {
    (set v | v in vs :: Mid(v / 262144)) + (set v | v in vs :: Bot(v / 512))
  }

  /** From `n` free pages to `n'`: just the nodes that were missing for `vs` were added, and `pages` other
      pages taken. */
  ghost predicate Took(t: Shape, n: nat, t': Shape, n': nat, vs: set<nat>, pages: nat) {
    t'.node.Keys == t.node.Keys + Paths(vs) && n' + pages + |t'.node.Keys| == n + |t.node.Keys|
  }

  /** `n` pages are not enough for the nodes that are missing for `vs` and `pages` other pages. */
  ghost predicate Short(t: Shape, n: nat, vs: set<nat>, pages: nat) {
    n + |t.node.Keys| < pages + |t.node.Keys + Paths(vs)|
  }

  lemma TookNothing(t: Shape, n: nat)
    ensures Took(t, n, t, n, {}, 0)
  {
  }

  lemma PathsJoin(vs: set<nat>, ws: set<nat>)
    ensures Paths(vs + ws) == Paths(vs) + Paths(ws)
  {
  }

  lemma TookSame(t: Shape, n: nat, t1: Shape, t2: Shape, n': nat, vs: set<nat>, pages: nat)
    requires Took(t, n, t1, n', vs, pages) && t2.node == t1.node
    ensures Took(t, n, t2, n', vs, pages)
  {
    hide Paths;
  }

  /** The `k` pages from `v` on. */
  ghost function Range(v: nat, k: nat): (vs: set<nat>)
    ensures forall u :: u in vs <==> v <= u < v + k
  {
    if k == 0 then {} else Range(v, k - 1) + {v + k - 1}
  }

  lemma RangeNext(v: nat, k: nat)
    ensures Range(v, k) + {v + k} == Range(v, k + 1) && Range(v, 0) == {}
  {
  }

  lemma NoPage(t: Shape, vs: set<nat>)
    ensures Short(t, 0, vs, 1)
  {
    SubsetSize(t.node.Keys, t.node.Keys + Paths(vs));
  }

  /** One page taken before the others. */
  lemma OnePage(t: Shape, n: nat, vs: set<nat>)
    ensures Short(t, n, vs, 0) ==> Short(t, n + 1, vs, 1)
    ensures forall t', n' :: Took(t, n, t', n', vs, 0) ==> Took(t, n + 1, t', n', vs, 1)
  {
  }

  lemma TookMore(t: Shape, n: nat, t1: Shape, n1: nat, t2: Shape, n2: nat, vs: set<nat>, pages: nat, ws: set<nat>,
                 more: nat)
    requires Took(t, n, t1, n1, vs, pages) && Took(t1, n1, t2, n2, ws, more)
    ensures Took(t, n, t2, n2, vs + ws, pages + more)
  {
    PathsJoin(vs, ws);
    hide Paths;
  }

  /** What is too little on the way is too little for the whole. */
  lemma ShortLater(t: Shape, n: nat, t1: Shape, n1: nat, vs: set<nat>, pages: nat, ws: set<nat>, more: nat,
                   all: set<nat>, total: nat)
    requires Took(t, n, t1, n1, vs, pages) && Short(t1, n1, ws, more) && vs + ws <= all && pages + more <= total
    ensures Short(t, n, all, total)
  {
    assert Paths(vs) <= Paths(all) && Paths(ws) <= Paths(all);
    SubsetSize(t1.node.Keys + Paths(ws), t.node.Keys + Paths(all));
  }

  /** The next page of a range. */
  lemma TookPage(t: Shape, n: nat, t1: Shape, n1: nat, t2: Shape, n2: nat, v: nat, k: nat, pages: nat, more: nat)
    requires Took(t, n, t1, n1, Range(v, k), pages) && Took(t1, n1, t2, n2, {v + k}, more)
    ensures Took(t, n, t2, n2, Range(v, k + 1), pages + more)
  {
    hide Took;
    RangeNext(v, k);
    TookMore(t, n, t1, n1, t2, n2, Range(v, k), pages, {v + k}, more);
  }

  lemma ShortPage(t: Shape, n: nat, t1: Shape, n1: nat, v: nat, k: nat, pages: nat, more: nat, all: nat, total: nat)
    requires Took(t, n, t1, n1, Range(v, k), pages) && Short(t1, n1, {v + k}, more) && k < all && pages + more <= total
    ensures Short(t, n, Range(v, all), total)
  {
    hide Took, Short;
    ShortLater(t, n, t1, n1, Range(v, k), pages, {v + k}, more, Range(v, all), total);
  }

  /** Page `v` was copied, if it is there. */
  ghost predicate TookIf(t: Shape, n: nat, t': Shape, n': nat, c: map<nat, UserPage>, v: nat, ok: bool) {
    if v !in c then ok && t'.node == t.node && n' == n
    else if ok then Took(t, n, t', n', {v}, 1) else Short(t, n, {v}, 1)
  }

  /** The mapped pages below page `n`. */
  ghost function Below(c: map<nat, UserPage>, n: nat): set<nat> { set v: nat | v < n && v in c }

  lemma BelowNext(c: map<nat, UserPage>, n: nat)
    ensures Below(c, 0) == {} && Below(c, n + 1) == if n in c then Below(c, n) + {n} else Below(c, n)
    ensures |Below(c, n + 1)| == |Below(c, n)| + if n in c then 1 else 0
  {
    assert n !in Below(c, n);
    assert Below(c, n + 1) == if n in c then Below(c, n) + {n} else Below(c, n);
  }

  lemma BelowWithin(c: map<nat, UserPage>, j: nat, k: nat)
    requires j <= k
    ensures Below(c, j) <= Below(c, k) && |Below(c, j)| <= |Below(c, k)|
  {
    SubsetSize(Below(c, j), Below(c, k));
  }

  lemma TookCopy(t: Shape, n: nat, t1: Shape, n1: nat, t2: Shape, n2: nat, c: map<nat, UserPage>, k: nat)
    requires Took(t, n, t1, n1, Below(c, k), |Below(c, k)|) && TookIf(t1, n1, t2, n2, c, k, true)
    ensures Took(t, n, t2, n2, Below(c, k + 1), |Below(c, k + 1)|)
  {
    hide Took, Below;
    BelowNext(c, k);
    if k in c {
      TookMore(t, n, t1, n1, t2, n2, Below(c, k), |Below(c, k)|, {k}, 1);
    } else {
      TookSame(t, n, t1, t2, n1, Below(c, k), |Below(c, k)|);
    }
  }

  lemma ShortCopy(t: Shape, n: nat, t1: Shape, n1: nat, t2: Shape, n2: nat, c: map<nat, UserPage>, k: nat, all: nat)
    requires Took(t, n, t1, n1, Below(c, k), |Below(c, k)|) && TookIf(t1, n1, t2, n2, c, k, false) && k < all
    ensures Short(t, n, Below(c, all), |Below(c, all)|)
  {
    hide Took, Short, Below;
    BelowNext(c, k);
    BelowWithin(c, k + 1, all);
    ShortLater(t, n, t1, n1, Below(c, k), |Below(c, k)|, {k}, 1, Below(c, all), |Below(c, all)|);
  }

  /** Enough was there for what was taken. */
  lemma TookEnough(t: Shape, n: nat, t': Shape, n': nat, vs: set<nat>, pages: nat)
    requires Took(t, n, t', n', vs, pages)
    ensures !Short(t, n, vs, pages)
  {
  }

  /** The nodes that a walk has reached. */
  ghost function Above(level: nat, va: nat): set<Pos>
    requires level < 3
  {
    {Root} + (if level < 2 then {PosAt(1, va)} else {}) + if level < 1 then {PosAt(0, va)} else {}
  }

  lemma PathIs(va: nat)
    ensures Above(0, va) == {Root} + Paths({va / PGSIZE})
  {
  }

  lemma WalkTook(t: Shape, n: nat, t': Shape, n': nat, va: nat)
    requires Root in t.node && t'.node.Keys == t.node.Keys + Above(0, va)
    requires n' + |t'.node.Keys| == n + |t.node.Keys|
    ensures Took(t, n, t', n', {va / PGSIZE}, 0)
  {
    PathIs(va);
  }

  lemma WalkShort(t: Shape, n: nat, t': Shape, level: nat, va: nat)
    requires 0 < level < 3 && Root in t.node && t'.node.Keys == t.node.Keys + Above(level, va)
    requires PosAt(level - 1, va) !in t'.node && |t'.node.Keys| == n + |t.node.Keys|
    ensures Short(t, n, {va / PGSIZE}, 0)
  {
    PathIs(va);
    var next := PosAt(level - 1, va);
    assert next in Above(0, va) && Above(level, va) <= Above(0, va);
    SubsetSize(t'.node.Keys + {next}, t.node.Keys + Paths({va / PGSIZE}));
  }

  lemma WalkStops(mem: Mem, t: Shape, level: nat, va: nat)
    requires Wf(mem, t) && 0 < level < 3 && va < MAXVA
    ensures PosAt(level - 1, va) !in t.node ==> Bot(va / PGSIZE / 512) !in t.node
  {
  }

  lemma GrowsTrans(mem: Mem, t: Shape, free: set<nat>, mem1: Mem, t1: Shape, free1: set<nat>,
                   mem2: Mem, t2: Shape, free2: set<nat>)
    requires Wf(mem, t) && Grows(mem, t, free, mem1, t1, free1) && Grows(mem1, t1, free1, mem2, t2, free2)
    ensures Grows(mem, t, free, mem2, t2, free2)
  {
  }

  /** Memory presents `c` through the table `t`. */
  ghost predicate Presents(mem: Mem, t: Shape, c: map<nat, UserPage>) {
    SpaceOk(mem, t) && Contents(mem, t) == c
  }

  /** `t` is an address space with its root table at `root`, and none of its frames is free. */
  ghost predicate At(mem: Mem, t: Shape, root: nat, free: set<nat>) {
    SpaceOk(mem, t) && Owned(t) !! free && Root in t.node && t.node[Root] == root
  }

  /** The frames of an address space and of the free list only change hands, and nothing
      else is written. */
  ghost predicate Conserves(mem: Mem, t: Shape, free: set<nat>, mem': Mem, t': Shape, free': set<nat>)
    requires SpaceOk(mem, t)
  {
    && SpaceOk(mem', t') && Root in t.node && Root in t'.node && t'.node[Root] == t.node[Root]
    && Owned(t') !! free' && Owned(t') + free' == Owned(t) + free
    && Keeps(mem, mem', Owned(t) + free)
  }

  lemma ConservesRefl(mem: Mem, t: Shape, free: set<nat>)
    requires SpaceOk(mem, t) && Owned(t) !! free
    ensures Root in t.node && Conserves(mem, t, free, mem, t, free)
  {
  }

  lemma ConservesTrans(mem: Mem, t: Shape, free: set<nat>, mem1: Mem, t1: Shape, free1: set<nat>,
                       mem2: Mem, t2: Shape, free2: set<nat>)
    requires SpaceOk(mem, t) && Conserves(mem, t, free, mem1, t1, free1)
    requires Conserves(mem1, t1, free1, mem2, t2, free2)
    ensures Conserves(mem, t, free, mem2, t2, free2)
  {
    hide Wf, LeavesOk, UserFrames;
  }

  lemma Unmapped(mem: Mem, t: Shape, v: nat)
    requires SpaceOk(mem, t) && Bot(v / 512) !in t.node
    ensures v !in t.view && t.view - {v} == t.view && Contents(mem, t) - {v} == Contents(mem, t)
  {
    hide LeavesOk;
  }

  lemma DropConserves(mem: Mem, t: Shape, free: set<nat>, mem': Mem, t': Shape, free': set<nat>, v: nat)
    requires SpaceOk(mem, t) && Owned(t) !! free && v in t.view && v < NVPN
    requires t' == Rebind(t, v, 0) && Wf(mem', t')
    requires Backing(t.view, v) <= UserFrames(t.view) && free' == free + Backing(t.view, v)
    requires Keeps(mem, mem', Nodes(t) + Backing(t.view, v))
    ensures Conserves(mem, t, free, mem', t', free')
    ensures Keeps(mem, mem', Owned(t)) && t'.view == t.view - {v} && Owned(t') <= Owned(t)
    ensures Contents(mem', t') == Contents(mem, t) - {v}
  {
    hide Wf, LeavesOk, UserFrames, PagesOf;
    ConservesRefl(mem, t, free);
    DropLeaf(mem, mem', Nodes(t), t.view, v);
    UserFramesDrop(mem, Nodes(t), t.view, v);
    LeavesDisjoint(mem, Nodes(t), t.view);
    assert Nodes(t') == Nodes(t);
  }

  /** A page just taken off the free list touches no address space. */
  lemma FreshFrame(mem: Mem, t: Shape, free: set<nat>, mem1: Mem, f: nat)
    requires SpaceOk(mem, t) && Owned(t) !! free && f in free && Keeps(mem, mem1, {f})
    ensures SpaceOk(mem1, t) && Contents(mem1, t) == Contents(mem, t)
  {
    hide Wf, LeavesOk, UserFrames, PagesOf;
    SpaceFrame(mem, mem1, t, {f});
  }

  lemma NoNewPage(mem: Mem, t: Shape, free: set<nat>, mem1: Mem, mem2: Mem, free2: set<nat>,
                  mem3: Mem, t': Shape, free3: set<nat>, f: nat)
    requires SpaceOk(mem, t) && Owned(t) !! free && f in free && Keeps(mem, mem1, {f})
    requires SpaceOk(mem1, t) && Grows(mem1, t, free - {f}, mem2, t', free2) && t'.view == t.view
    requires Contents(mem1, t) == Contents(mem, t) && Keeps(mem2, mem3, {f}) && free3 == free2 + {f}
    ensures Conserves(mem, t, free, mem3, t', free3) && Contents(mem3, t') == Contents(mem, t)
  {
    hide Wf, LeavesOk, UserFrames, PagesOf;
    assert Nodes(t') !! UserFrames(t.view) by { LeavesDisjoint(mem, Nodes(t), t.view); }
    SpaceGrow(mem1, mem2, t, t');
    SpaceFrame(mem2, mem3, t', {f});
  }

  lemma YesNewPage(mem: Mem, t: Shape, free: set<nat>, mem1: Mem, mem2: Mem, t': Shape, free2: set<nat>,
                   f: nat, v: nat, pte: nat, data: seq<Byte>)
    requires SpaceOk(mem, t) && Owned(t) !! free && f in free && f != 0 && v < UTOP && v !in t.view
    requires SpaceOk(mem1, t) && Contents(mem1, t) == Contents(mem, t) && Keeps(mem, mem1, {f})
    requires f in mem1 && mem1[f] == Data(data) && |data| == PGSIZE
    requires Grows(mem1, t, free - {f}, mem2, t', free2) && t'.view == t.view[v := pte]
    requires PteFrame(pte) == f && PteLeaf(pte)
    ensures Conserves(mem, t, free, mem2, t', free2)
    ensures Contents(mem2, t') == Contents(mem, t)[v := UserPage(PteFlags(pte), data)]
  {
    hide Wf, LeavesOk, UserFrames, PagesOf, PteFrame, PteFlags, PteLeaf;
    LeavesDisjoint(mem, Nodes(t), t.view);
    LeavesKept(mem1, mem2, Nodes(t), Nodes(t'), t.view);
    AddLeaf(mem2, Nodes(t'), t.view, v, pte);
    UserFramesAdd(t.view, v, pte);
  }

  lemma NodeIn(mem: Mem, t: Shape, p: Pos)
    requires Wf(mem, t) && p in t.node
    ensures Root in t.node && t.node[p] in Nodes(t) && t.node[p] in mem
    ensures mem[t.node[p]].Table? && |mem[t.node[p]].e| == 512
  {
    assert NodeOk(mem, t, p);
  }

  lemma LinkExtends(mem: Mem, t: Shape, p: Pos, i: nat, f: nat, free: set<nat>)
    requires Wf(mem, t) && p in t.node && !p.Bot? && i < 512
    requires Child(p, i) !in t.node && f in free && Nodes(t) !! free && f != 0
    requires p.Root? ==> i < 256
    ensures Extends(mem, t, free, LinkNode(mem, t, p, i, f), AddNode(t, Child(p, i), f), free - {f})
  {
    hide Wf;
    LinkNodeOk(mem, t, p, i, f);
    assert Nodes(AddNode(t, Child(p, i), f)) == Nodes(t) + {f};
    NodeIn(mem, t, p);
  }

  /** The view `w` with `n` consecutive pages from `v` bound to frames from `f`. */
  ghost function Bind(w: map<nat, nat>, v: nat, f: nat, n: nat, perm: nat): map<nat, nat> {
    if n == 0 then w else Bind(w, v, f, n - 1, perm)[v + n - 1 := MakePte(f + n - 1, perm)]
  }

  lemma BindStep(w: map<nat, nat>, v: nat, f: nat, n: nat, perm: nat)
    ensures Bind(w, v, f, n + 1, perm) == Bind(w, v, f, n, perm)[v + n := MakePte(f + n, perm)]
  {
  }

  lemma BindKeys(w: map<nat, nat>, v: nat, f: nat, n: nat, perm: nat)
    ensures forall u :: u in Bind(w, v, f, n, perm) <==> u in w || v <= u < v + n
    ensures forall u :: u in w && !(v <= u < v + n) ==> Bind(w, v, f, n, perm)[u] == w[u]
    ensures forall u :: v <= u < v + n ==> Bind(w, v, f, n, perm)[u] == MakePte(f + (u - v), perm)
  {
  }

  /** A map without the keys v .. v + n - 1. */
  ghost function Without<T>(w: map<nat, T>, v: nat, n: nat): map<nat, T> {
    map u | u in w && !(v <= u < v + n) :: w[u]
  }

  lemma WithoutNone<T>(w: map<nat, T>, v: nat)
    ensures Without(w, v, 0) == w
  {
  }

  lemma WithoutStep<T>(w: map<nat, T>, v: nat, n: nat)
    ensures Without(w, v, n + 1) == Without(w, v, n) - {v + n}
  {
  }

  /** The user pages of `t` are exactly 0 .. n - 1. */
  ghost predicate UserIs(t: Shape, n: nat) {
    n <= UTOP && forall v :: v < UTOP ==> (v in t.view <==> 0 <= v < n)
  }

  /** The bindings above user memory (trapframe and trampoline) agree. */
  ghost predicate SameTop(t: Shape, t': Shape) {
    forall u :: UTOP <= u ==> (u in t'.view <==> u in t.view) && (u in t.view ==> t'.view[u] == t.view[u])
  }

  ghost function ZeroPage(xperm: nat): UserPage {
    UserPage(WithValid(PTE_R + PTE_U + xperm), seq(PGSIZE, _ => 0))
  }

  /** Memory `c` with `n` pages from `v` set to `page`. */
  ghost function Fill(c: map<nat, UserPage>, v: nat, n: nat, page: UserPage): map<nat, UserPage> {
    if n == 0 then c else Fill(c, v, n - 1, page)[v + n - 1 := page]
  }

  lemma FillNone(c: map<nat, UserPage>, v: nat, page: UserPage)
    ensures Fill(c, v, 0, page) == c
  {
  }

  lemma FillStep(c: map<nat, UserPage>, v: nat, n: nat, page: UserPage)
    ensures Fill(c, v, n + 1, page) == Fill(c, v, n, page)[v + n := page]
  {
  }

  lemma ContentsKeys(mem: Mem, t: Shape)
    requires SpaceOk(mem, t)
    ensures forall v :: v in Contents(mem, t) <==> v in t.view && v < UTOP
    ensures forall v :: v in Contents(mem, t) ==> Contents(mem, t)[v].flags == PteFlags(t.view[v])
  {
  }

  predicate IsXperm(xperm: nat) {
    xperm == 0 || xperm == PTE_W || xperm == PTE_X || xperm == PTE_W + PTE_X
  }

  lemma UserPerm(xperm: nat)
    requires IsXperm(xperm)
    ensures PTE_R + PTE_U + xperm < 1024 && PteLeaf(PTE_R + PTE_U + xperm)
  {
  }

  lemma PagesBounds(sz: nat)
    ensures sz <= Pages(sz) * PGSIZE < sz + PGSIZE && PageRoundUp(sz) == Pages(sz) * PGSIZE
    ensures Pages(Pages(sz) * PGSIZE) == Pages(sz)
  {
  }

  lemma SameTopRefl(t: Shape)
    ensures SameTop(t, t)
  {
  }

  lemma SameTopGrows(t: Shape, t1: Shape, t2: Shape, v: nat)
    requires SameTop(t, t1) && v < UTOP
    requires t1.view.Keys <= t2.view.Keys <= t1.view.Keys + {v}
    requires forall u :: u in t1.view ==> t2.view[u] == t1.view[u]
    ensures SameTop(t, t2)
  {
    forall u | UTOP <= u ensures u in t2.view <==> u in t1.view {
      assert u in t2.view.Keys <==> u in t1.view.Keys;
    }
  }

  lemma RollBack(t: Shape, t1: Shape, t2: Shape, v: nat, k: nat)
    requires SameTop(t, t1) && UserIs(t1, v + k) && t2.view == Without(t1.view, v, k)
    ensures SameTop(t, t2) && UserIs(t2, v)
  {
  }

  lemma {:induction false} WithoutFill(c: map<nat, UserPage>, v: nat, k: nat, page: UserPage)
    requires forall u :: u in c ==> u < v
    ensures Without(Fill(c, v, k, page), v, k) == c
  {
    if k > 0 {
      WithoutFill(c, v, k - 1, page);
      var f := Fill(c, v, k - 1, page);
      FillKeys(c, v, k - 1, page);
      assert forall u :: u in c ==> Without(f, v, k - 1)[u] == f[u];
    }
  }

  lemma FillKeys(c: map<nat, UserPage>, v: nat, k: nat, page: UserPage)
    ensures forall u :: u in Fill(c, v, k, page) <==> u in c || v <= u < v + k
  {
  }

  /** Pages 0 .. n - 1 being mapped takes n distinct frames of the arena. */
  lemma PagesFit(mem: Mem, t: Shape, n: nat, lo: nat, hi: nat)
    requires SpaceOk(mem, t) && UserIs(t, n) && lo <= hi && forall f :: f in mem ==> lo <= f < hi
    ensures n <= hi - lo
  {
    FirstFrames(mem, Nodes(t), t.view, n);
    SubrangeSize(FramesBelow(t.view, n), lo, hi);
  }

  ghost function FramesBelow(w: map<nat, nat>, n: nat): set<nat>
    requires forall v :: 0 <= v < n ==> v in w
  {
    if n == 0 then {} else FramesBelow(w, n - 1) + {PteFrame(w[n - 1])}
  }

  lemma FrameWitness(w: map<nat, nat>, n: nat, f: nat) returns (v: nat)
    requires forall u :: 0 <= u < n ==> u in w
    requires f in FramesBelow(w, n)
    ensures v < n && PteFrame(w[v]) == f
  {
    if f == PteFrame(w[n - 1]) { return n - 1; }
    v := FrameWitness(w, n - 1, f);
  }

  lemma {:induction false} FirstFrames(mem: Mem, nodes: set<nat>, w: map<nat, nat>, n: nat)
    requires LeavesOk(mem, nodes, w) && n <= UTOP && forall v :: 0 <= v < n ==> v in w
    ensures |FramesBelow(w, n)| == n
    ensures forall f :: f in FramesBelow(w, n) ==> f in mem
  {
    if n > 0 {
      FirstFrames(mem, nodes, w, n - 1);
      assert LeafOk(mem, nodes, w[n - 1]);
      if PteFrame(w[n - 1]) in FramesBelow(w, n - 1) {
        var v := FrameWitness(w, n - 1, PteFrame(w[n - 1]));
        assert false;
      }
    }
  }

  lemma SubrangeSize(s: set<nat>, lo: nat, hi: nat)
    requires lo <= hi && forall f :: f in s ==> lo <= f < hi
    ensures |s| <= hi - lo
    decreases hi - lo
  {
    if lo == hi {
      assert s == {};
    } else {
      SubrangeSize(s - {lo}, lo + 1, hi);
    }
  }

  ghost function Level(p: Pos): nat { if p.Root? then 2 else if p.Mid? then 1 else 0 }

  /** `q` is `p` or lies below it in the tree. */
  ghost predicate Under(q: Pos, p: Pos) {
    match p
    case Root => true
    case Mid(i) => q == p || (q.Bot? && q.k / 512 == i)
    case Bot(_) => q == p
  }

  /** Which child of `p` leads to `q`. */
  ghost function Branch(q: Pos, p: Pos): nat {
    if p.Root? then (if q.Mid? then q.i else if q.Bot? then q.k / 512 else 0)
    else if q.Bot? then q.k % 512 else 0
  }

  ghost function Sub(t: Shape, p: Pos): set<nat> {
    set f | f in t.pos && Under(t.pos[f], p)
  }

  /** The frames below `p`'s first `i` children. */
  ghost function SubBelow(t: Shape, p: Pos, i: nat): set<nat> {
    set f | f in t.pos && Under(t.pos[f], p) && t.pos[f] != p && Branch(t.pos[f], p) < i
  }

  lemma SubFacts(mem: Mem, t: Shape, p: Pos, i: nat)
    requires Wf(mem, t) && p in t.node && i <= 512
    ensures SubBelow(t, p, 0) == {} && SubBelow(t, p, 512) + {t.node[p]} == Sub(t, p)
    ensures t.node[p] in Sub(t, p) && t.node[p] !in SubBelow(t, p, i)
    ensures SubBelow(t, p, i) <= Sub(t, p) <= Nodes(t) && forall f :: f in Sub(t, p) ==> f in mem
    ensures t.node[p] in mem && mem[t.node[p]].Table? && |mem[t.node[p]].e| == 512
    ensures p.Bot? || Child(p, i) !in t.node ==> SubBelow(t, p, i + 1) == SubBelow(t, p, i)
    ensures !p.Bot? && i < 512 && Child(p, i) in t.node ==>
              SubBelow(t, p, i + 1) == SubBelow(t, p, i) + Sub(t, Child(p, i)) &&
              SubBelow(t, p, i) !! Sub(t, Child(p, i)) && t.node[p] !in Sub(t, Child(p, i)) &&
              Sub(t, Child(p, i)) <= Sub(t, p) && Level(Child(p, i)) < Level(p)
  {
    assert NodeOk(mem, t, p);
    NodesInMem(mem, t);
  }

  /** The first `i` children of the table at `p` are freed, the rest is as at the start. */
  ghost predicate Torn(m0: Mem, t: Shape, p: Pos, i: nat, mem: Mem, free: set<nat>, mem': Mem, free': set<nat>)
    requires p in t.node
  {
    var n := t.node[p];
    && free' == free + SubBelow(t, p, i) && Keeps(mem, mem', SubBelow(t, p, i) + {n})
    && n in mem' && mem'[n].Table? && |mem'[n].e| == 512 && n !in free'
    && n in m0 && m0[n].Table? && |m0[n].e| == 512
    && forall j :: i <= j < 512 ==> mem'[n].e[j] == m0[n].e[j]
  }

  /** Below the table's entry `i` everything has been freed. */
  lemma TornNext(m0: Mem, t: Shape, p: Pos, i: nat, mem0: Mem, free0: set<nat>, mem1: Mem, free1: set<nat>, mem2: Mem,
                 below: set<nat>)
    requires p in t.node && i < 512 && Torn(m0, t, p, i, mem0, free0, mem1, free1) && Keeps(mem1, mem2, below)
    requires SubBelow(t, p, i + 1) == SubBelow(t, p, i) + below && t.node[p] !in below
    ensures t.node[p] in mem2 && mem2[t.node[p]] == mem1[t.node[p]]
    ensures var n := t.node[p];
            Torn(m0, t, p, i + 1, mem0, free0, mem2[n := Table(mem1[n].e[i := 0])], free1 + below)
  {
    hide SubBelow;
  }

  lemma TornStart(m0: Mem, t: Shape, p: Pos, mem: Mem, free: set<nat>)
    requires Wf(m0, t) && p in t.node && Sub(t, p) !! free
    requires forall f :: f in Sub(t, p) ==> f in mem && mem[f] == m0[f]
    ensures Torn(m0, t, p, 0, mem, free, mem, free)
  {
    hide Wf, Sub, SubBelow;
    SubFacts(m0, t, p, 0);
  }

  lemma TornEnd(m0: Mem, t: Shape, p: Pos, mem: Mem, free: set<nat>, mem': Mem, free': set<nat>)
    requires Wf(m0, t) && p in t.node && Torn(m0, t, p, 512, mem, free, mem', free')
    ensures free' + {t.node[p]} == free + Sub(t, p) && Keeps(mem, mem', Sub(t, p))
    ensures t.node[p] in Sub(t, p) && t.node[p] !in free' && t.node[p] in mem'
  {
    hide Wf, Sub, SubBelow;
    SubFacts(m0, t, p, 512);
  }

  lemma KeepsOne(mem: Mem, f: nat, page: Page)
    ensures Keeps(mem, mem[f := page], {f})
  {
  }

  lemma KeepsTrans(mem: Mem, mem1: Mem, mem2: Mem, s: set<nat>, s1: set<nat>)
    requires Keeps(mem, mem1, s) && Keeps(mem1, mem2, s1) && s1 <= s
    ensures Keeps(mem, mem2, s)
  {
  }

  lemma NoLeaf(mem: Mem, t: Shape, p: Pos, i: nat)
    requires Wf(mem, t) && t.view == map[] && p in t.node && i < 512
    ensures t.node[p] in mem && mem[t.node[p]].Table? && |mem[t.node[p]].e| == 512
    ensures PteValid(mem[t.node[p]].e[i]) <==> !p.Bot? && Child(p, i) in t.node
    ensures PteValid(mem[t.node[p]].e[i]) ==>
              !PteLeaf(mem[t.node[p]].e[i]) && PteFrame(mem[t.node[p]].e[i]) == t.node[Child(p, i)]
  {
    assert NodeOk(mem, t, p);
    assert EntryOk(t, p, i, mem[t.node[p]].e[i]);
    if p.Bot? {
      assert Entry(mem, t, p.k * 512 + i) == mem[t.node[p]].e[i];
    } else if Child(p, i) in t.node {
      PteRoundTrip(t.node[Child(p, i)], 0);
    }
  }

  lemma AllGone(t: Shape, n: nat)
    requires UserIs(t, n) && forall v :: v in t.view ==> v < UTOP
    ensures n <= UTOP && Without(t.view, 0, n) == map[]
  {
  }

  lemma EmptyOwned(mem: Mem, t: Shape)
    requires Wf(mem, t) && t.view == map[]
    ensures Root in t.node && Sub(t, Root) == Nodes(t) == Owned(t)
    ensures forall f :: f in Sub(t, Root) ==> f in mem
  {
    NodesInMem(mem, t);
  }

  /** `c2` after copying page `v` of `c1` into it, if there is one and it worked. */
  ghost function CopyOf(c2: map<nat, UserPage>, c1: map<nat, UserPage>, v: nat, ok: bool): map<nat, UserPage> {
    if ok && v in c1 then c2[v := c1[v]] else c2
  }

  /** `c2` overlaid with the pages of `c1` below `n`. */
  ghost function Overlay(c2: map<nat, UserPage>, c1: map<nat, UserPage>, n: nat): map<nat, UserPage> {
    c2 + map v | v in c1 && v < n :: c1[v]
  }

  lemma OverlayNone(c2: map<nat, UserPage>, c1: map<nat, UserPage>)
    ensures Overlay(c2, c1, 0) == c2
  {
  }

  lemma OverlayStep(c2: map<nat, UserPage>, c1: map<nat, UserPage>, n: nat, ok: bool)
    ensures ok ==> CopyOf(Overlay(c2, c1, n), c1, n, ok) == Overlay(c2, c1, n + 1)
    ensures !ok ==> CopyOf(Overlay(c2, c1, n), c1, n, ok) == Overlay(c2, c1, n)
  {
  }

  lemma OverlayUndone(c2: map<nat, UserPage>, c1: map<nat, UserPage>, n: nat)
    requires forall v :: 0 <= v < n ==> v !in c2
    ensures Without(Overlay(c2, c1, n), 0, n) == c2
  {
  }

  lemma SameTopShrinks(t: Shape, t1: Shape, t2: Shape, n: nat)
    requires SameTop(t, t1) && n <= UTOP && t2.view == Without(t1.view, 0, n)
    ensures SameTop(t, t2)
  {
  }

  lemma LeafFacts(mem: Mem, t: Shape, v: nat)
    requires SpaceOk(mem, t) && v in t.view && v < UTOP
    ensures PteFrame(t.view[v]) in mem && mem[PteFrame(t.view[v])].Data? && PteFrame(t.view[v]) != 0
    ensures |mem[PteFrame(t.view[v])].b| == PGSIZE && PteFlags(t.view[v]) < 1024
    ensures PteFrame(t.view[v]) in UserFrames(t.view)
    ensures PteLeaf(PteFlags(t.view[v])) && WithValid(PteFlags(t.view[v])) == PteFlags(t.view[v])
    ensures v in Contents(mem, t) && Contents(mem, t)[v] == UserPage(PteFlags(t.view[v]), mem[PteFrame(t.view[v])].b)
  {
    assert LeafOk(mem, Nodes(t), t.view[v]);
    Split(0, PteFlags(t.view[v]));
  }

  lemma CountDistinct(s: seq<nat>)
    requires Distinct(s)
    ensures |Elems(s)| == |s|
  {
    if s != [] {
      CountDistinct(s[1..]);
      assert Elems(s) == Elems(s[1..]) + {s[0]};
    }
  }

  class Machine {
    /** The arena handed to the allocator: frames PGROUNDUP(end) .. phys_top. */
    const lo: nat
    const hi: nat

    var mem: Mem
    /** kmem.freelist: the first free frame, 0 for a null pointer. */
    var head: nat
    /** The free list as a sequence, first page first. */
    ghost var free: seq<nat>

    /** The kernel maps all memory at its own address, below its stacks and the trampoline, so
        there are fewer frames than pages in the user range. */
    ghost predicate Ok()
      reads this
    {
      && 0 < lo <= hi < UTOP
      && (forall f :: f in mem <==> lo <= f < hi)
      && Distinct(free)
      && head == (if free == [] then 0 else free[0])
      && (forall i :: 0 <= i < |free| ==> lo <= free[i] < hi)
      && (forall i {:trigger mem[free[i]]} :: 0 <= i < |free| ==> mem[free[i]] == Run(Link(free, i)))
    }

    ghost function Free(): set<nat>
      reads this
    {
      Elems(free)
    }

    /** freerange: put every whole page between two addresses on an empty free list.
        `boot` is whatever the arena held before. */
    constructor (start: nat, end: nat, boot: Mem)
      requires 0 < start && Pages(start) <= end / PGSIZE < UTOP
      requires forall f :: f in boot <==> Pages(start) <= f < end / PGSIZE
      ensures Ok() && lo == Pages(start) && hi == end / PGSIZE
      ensures forall f :: f in Free() <==> lo <= f < hi
    {
      lo, hi := Pages(start), end / PGSIZE;
      mem, head, free := boot, 0, [];
      new;
      var p := Pages(start);
      while (p + 1) * PGSIZE <= end
        invariant Ok() && lo == Pages(start) <= p <= hi == end / PGSIZE
        invariant forall f :: f in Free() <==> lo <= f < p
      {
        assert p !in Free();
        Kfree(p);
        p := p + 1;
      }
    }

    method Kalloc() returns (f: nat)
      requires Ok()
      modifies this
      ensures Ok()
      ensures old(free) == [] ==> f == 0 && free == [] && mem == old(mem)
      ensures old(free) != [] ==> f == old(free)[0] && free == old(free)[1..] && f != 0
      ensures old(free) != [] ==> mem == old(mem)[f := Data(seq(PGSIZE, _ => 5))]
      ensures old(free) != [] ==> f in old(Free()) && Free() == old(Free()) - {f}
    {
      f := head;
      if f != 0 {
        assert f == free[0];
        head := mem[f].next;
        mem := mem[f := Data(seq(PGSIZE, _ => 5))];
        free := free[1..];
        assert old(free) == [f] + free;
      }
    }

    method Kfree(f: nat)
      requires Ok() && lo <= f < hi && f !in free
      modifies this
      ensures Ok() && free == [f] + old(free) && Free() == old(Free()) + {f}
      ensures mem == old(mem)[f := Run(old(head))]
    {
      mem := mem[f := Run(head)];
      head := f;
      free := [f] + free;
    }

    /** kfreemem counts the pages on the list by following the links. */
    method Kfreemem() returns (bytes: nat)
      requires Ok()
      ensures bytes == |Free()| * PGSIZE
    {
      var r, pages := head, 0;
      while r != 0
        invariant 0 <= pages <= |free|
        invariant r == if pages < |free| then free[pages] else 0
        decreases |free| - pages
      {
        assert r == free[pages];
        r := mem[r].next;
        pages := pages + 1;
      }
      CountDistinct(free);
      bytes := pages * PGSIZE;
    }

    /** One level of `walk`: follow the entry, or create the missing table page. */
    method Descend(ghost t: Shape, n: nat, level: nat, va: nat, alloc: bool)
      returns (ok: bool, m: nat, ghost t': Shape)
      requires Ok() && Wf(mem, t) && Nodes(t) !! Free()
      requires 0 < level < 3 && va < MAXVA
      requires PosAt(level, va) in t.node && t.node[PosAt(level, va)] == n
      modifies this
      ensures Ok() && Extends(old(mem), t, old(Free()), mem, t', Free())
      ensures ok ==> PosAt(level - 1, va) in t'.node && t'.node[PosAt(level - 1, va)] == m
      ensures !alloc ==> t' == t && mem == old(mem) && free == old(free) && (ok <==> PosAt(level - 1, va) in t.node)
      ensures !ok ==> t' == t && mem == old(mem) && free == old(free) && (alloc ==> free == [])
      ensures ok ==> t'.node.Keys == t.node.Keys + {PosAt(level - 1, va)}
      ensures !ok ==> PosAt(level - 1, va) !in t.node
      ensures |free| + |t'.node.Keys| == |old(free)| + |t.node.Keys|
    {
      hide Wf, Keeps;
      GrowsRefl(mem, t, Free());
      ghost var p := PosAt(level, va);
      var i := Px(level, va);
      PosAtStep(level, va);
      var pte := TableEntry(t, n, p, i);
      t' := t;
      if PteValid(pte) {
        return true, PteFrame(pte), t;
      }
      if !alloc { return false, 0, t; }
      m := Kalloc();
      if m == 0 { return false, 0, t; }
      mem := mem[m := Table(seq(512, _ => 0))];
      mem := mem[n := Table(mem[n].e[i := MakePte(m, 0)])];
      assert mem == LinkNode(old(mem), t, p, i, m);
      LinkExtends(old(mem), t, p, i, m, old(Free()));
      t' := AddNode(t, Child(p, i), m);
      ok := true;
    }

    /** Read the `i`th entry of an inner table. */
    method TableEntry(ghost t: Shape, n: nat, ghost p: Pos, i: nat) returns (pte: nat)
      requires Wf(mem, t) && p in t.node && t.node[p] == n && !p.Bot? && i < 512
      ensures n in mem && mem[n].Table? && |mem[n].e| == 512 && n in Nodes(t)
      ensures PteValid(pte) <==> Child(p, i) in t.node
      ensures PteValid(pte) ==> PteFrame(pte) == t.node[Child(p, i)]
    {
      assert NodeOk(mem, t, p);
      pte := mem[n].e[i];
      assert EntryOk(t, p, i, pte);
      if Child(p, i) in t.node {
        PteRoundTrip(t.node[Child(p, i)], 0);
      }
    }

    /** walk: find, or with `alloc` create, the bottom table for `va`. */
    method Walk(ghost t: Shape, root: nat, va: nat, alloc: bool)
      returns (ok: bool, n: nat, ghost t': Shape)
      requires Ok() && Wf(mem, t) && Nodes(t) !! Free() && t.node[Root] == root && va < MAXVA
      modifies this
      ensures Ok() && Extends(old(mem), t, old(Free()), mem, t', Free())
      ensures ok ==> Bot(va / PGSIZE / 512) in t'.node && n == t'.node[Bot(va / PGSIZE / 512)]
      ensures !alloc ==> t' == t && mem == old(mem) && free == old(free)
      ensures !alloc ==> (ok <==> Bot(va / PGSIZE / 512) in t.node)
      ensures alloc && ok ==> Took(t, |old(free)|, t', |free|, {va / PGSIZE}, 0)
      ensures alloc && !ok ==> free == [] && Short(t, |old(free)|, {va / PGSIZE}, 0)
    {
      hide Wf, Keeps, Took, Short;
      GrowsRefl(mem, t, Free());
      var level := 2;
      ok, n, t' := true, root, t;
      while level > 0
        invariant 0 <= level <= 2
        invariant Ok() && Extends(old(mem), t, old(Free()), mem, t', Free())
        invariant PosAt(level, va) in t'.node && t'.node[PosAt(level, va)] == n
        invariant t'.node.Keys == t.node.Keys + Above(level, va)
        invariant |free| + |t'.node.Keys| == |old(free)| + |t.node.Keys|
        invariant !alloc ==> t' == t && mem == old(mem) && free == old(free)
      {
        ghost var mem1, t1, free1 := mem, t', Free();
        ok, n, t' := Descend(t', n, level, va, alloc);
        GrowsTrans(old(mem), t, old(Free()), mem1, t1, free1, mem, t', Free());
        if !ok {
          assert !alloc ==> Bot(va / PGSIZE / 512) !in t.node by { WalkStops(old(mem), t, level, va); }
          if alloc { WalkShort(t, |old(free)|, t', level, va); }
          return;
        }
        level := level - 1;
      }
      if alloc { WalkTook(t, |old(free)|, t', |free|, va); }
    }

    /** mappages: bind consecutive pages to consecutive frames; on failure only the first
        `done` of them are bound. */
    method Mappages(ghost t: Shape, root: nat, va: nat, size: nat, pa: nat, perm: nat)
      returns (ok: bool, ghost t': Shape, ghost done: nat)
      requires Ok() && Wf(mem, t) && Nodes(t) !! Free() && t.node[Root] == root
      requires va % PGSIZE == 0 && size % PGSIZE == 0 && size != 0 && va + size <= MAXVA
      requires forall v :: va / PGSIZE <= v < (va + size) / PGSIZE ==> v !in t.view
      requires perm < 1024 && PteLeaf(perm)
      modifies this
      ensures Ok() && Grows(old(mem), t, old(Free()), mem, t', Free())
      ensures t'.view == Bind(t.view, va / PGSIZE, pa, done, perm)
      ensures if ok then done == size / PGSIZE else done < size / PGSIZE && free == []
      ensures if ok then Took(t, |old(free)|, t', |free|, Range(va / PGSIZE, size / PGSIZE), 0)
              else Short(t, |old(free)|, Range(va / PGSIZE, size / PGSIZE), 0)
    {
      hide Wf, Keeps, PteLeaf, Took, Short, Range;
      TookNothing(t, |free|);
      GrowsRefl(mem, t, Free());
      var a, last, f := va, va + size - PGSIZE, pa;
      ghost var v, np, w := va / PGSIZE, size / PGSIZE, t.view;
      assert t.view == Bind(w, v, pa, 0, perm);
      hide Bind;
      RangeNext(v, 0);
      t', done := t, 0;
      while true
        invariant done < np && va == v * PGSIZE && last == (v + np - 1) * PGSIZE
        invariant a == (v + done) * PGSIZE && f == pa + done && Took(t, |old(free)|, t', |free|, Range(v, done), 0)
        invariant Ok() && Grows(old(mem), t, old(Free()), mem, t', Free())
        invariant t'.view == Bind(w, v, pa, done, perm)
        decreases np - done
      {
        assert a / PGSIZE == v + done;
        assert v + done !in t'.view by { BindKeys(w, v, pa, done, perm); }
        ghost var mem1, t1, free1 := mem, t', Free();
        ghost var n1 := |free|;
        ok, t' := MapOne(t', root, a, f, perm);
        GrowsTrans(old(mem), t, old(Free()), mem1, t1, free1, mem, t', Free());
        if !ok {
          ShortPage(t, |old(free)|, t1, n1, v, done, 0, 0, np, 0);
          return;
        }
        TookPage(t, |old(free)|, t1, n1, t', |free|, v, done, 0, 0);
        BindStep(w, v, pa, done, perm);
        done := done + 1;
        if a == last { break; }
        a, f := a + PGSIZE, f + 1;
      }
    }

    /** One iteration of mappages. */
    method MapOne(ghost t: Shape, root: nat, a: nat, f: nat, perm: nat) returns (ok: bool, ghost t': Shape)
      requires Ok() && Wf(mem, t) && Nodes(t) !! Free() && t.node[Root] == root
      requires a < MAXVA && a / PGSIZE !in t.view && perm < 1024 && PteLeaf(perm)
      modifies this
      ensures Ok() && Grows(old(mem), t, old(Free()), mem, t', Free())
      ensures ok ==> t'.view == t.view[a / PGSIZE := MakePte(f, perm)]
      ensures !ok ==> t'.view == t.view && free == []
      ensures if ok then Took(t, |old(free)|, t', |free|, {a / PGSIZE}, 0) else Short(t, |old(free)|, {a / PGSIZE}, 0)
    {
      hide Took, Short, Wf, MakePte, PteValid, PteLeaf, Ok;
      var n;
      ok, n, t' := Walk(t, root, a, true);
      if ok {
        PteRoundTrip(f, perm);
        ghost var mem1, t1, free1 := mem, t', Free();
        t' := PutEntry(t', n, a / PGSIZE, MakePte(f, perm));
        TookSame(t, |old(free)|, t1, t', |free|, {a / PGSIZE}, 0);
        GrowsTrans(old(mem), t, old(Free()), mem1, t1, free1, mem, t', Free());
      }
    }

    /** *pte = w */
    method PutEntry(ghost t: Shape, n: nat, v: nat, w: nat) returns (ghost t': Shape)
      requires Ok() && Wf(mem, t) && Nodes(t) !! Free() && v < NVPN
      requires Bot(v / 512) in t.node && t.node[Bot(v / 512)] == n
      requires PteValid(w) ==> PteLeaf(w)
      modifies this
      ensures Ok() && free == old(free) && t' == Rebind(t, v, w)
      ensures Grows(old(mem), t, old(Free()), mem, t', Free())
    {
      hide Wf, PteValid, PteLeaf;
      NodeIn(mem, t, Bot(v / 512));
      SetEntryOk(mem, t, v, w);
      mem := mem[n := Table(mem[n].e[v % 512 := w])];
      assert mem == SetEntry(old(mem), t, v, w);
      t' := Rebind(t, v, w);
    }

    /** Read the bottom-level entry of page `v`. */
    method LeafEntry(ghost t: Shape, n: nat, v: nat) returns (pte: nat)
      requires Wf(mem, t) && v < NVPN && Bot(v / 512) in t.node && t.node[Bot(v / 512)] == n
      ensures n in mem && mem[n].Table? && |mem[n].e| == 512 && mem[n].e[v % 512] == pte
      ensures PteValid(pte) <==> v in t.view
      ensures v in t.view ==> t.view[v] == pte
    {
      assert NodeOk(mem, t, Bot(v / 512));
      pte := mem[n].e[v % 512];
      assert Entry(mem, t, v) == pte;
    }

    /** One iteration of uvmunmap. */
    method UnmapOne(ghost t: Shape, root: nat, a: nat, doFree: bool) returns (ghost t': Shape)
      requires Ok() && At(mem, t, root, Free())
      requires a < MAXVA && (if doFree then a / PGSIZE < UTOP else UTOP <= a / PGSIZE)
      modifies this
      ensures Ok() && Conserves(old(mem), t, old(Free()), mem, t', Free())
      ensures t'.view == t.view - {a / PGSIZE} && Keeps(old(mem), mem, Owned(t)) && Owned(t') <= Owned(t)
      ensures Contents(mem, t') == old(Contents(mem, t)) - {a / PGSIZE}
    {
      hide Wf, ShapeOk;
      var v := a / PGSIZE;
      ConservesRefl(mem, t, Free());
      var ok, n, same := Walk(t, root, a, false);
      if !ok {
        Unmapped(mem, t, v);
        return t;
      }
      var pte := LeafEntry(t, n, v);
      if !PteValid(pte) { return t; }
      UserFramesDrop(mem, Nodes(t), t.view, v);
      if doFree {
        KfreeLeaf(t, v, PteFrame(pte));
      }
      t' := PutEntry(t, n, v, 0);
      DropConserves(old(mem), t, old(Free()), mem, t', Free(), v);
    }

    /** kfree of a user page's frame, which leaves the table itself alone. */
    method KfreeLeaf(ghost t: Shape, ghost v: nat, f: nat)
      requires Ok() && SpaceOk(mem, t) && Owned(t) !! Free()
      requires v in t.view && v < UTOP && f == PteFrame(t.view[v])
      modifies this
      ensures Ok() && Wf(mem, t) && Nodes(t) !! Free()
      ensures Free() == old(Free()) + {f} && Keeps(old(mem), mem, {f})
    {
      LeavesDisjoint(mem, Nodes(t), t.view);
      assert f in UserFrames(t.view);
      Kfree(f);
      WfFrame(old(mem), mem, t);
    }

    /** uvmunmap: remove exactly the pages of a range, freeing their frames if asked. */
    method Uvmunmap(ghost t: Shape, root: nat, va: nat, npages: nat, doFree: bool) returns (ghost t': Shape)
      requires Ok() && At(mem, t, root, Free())
      requires va % PGSIZE == 0 && va / PGSIZE + npages <= (if doFree then UTOP else NVPN)
      requires doFree || UTOP <= va / PGSIZE
      modifies this
      ensures Ok() && Conserves(old(mem), t, old(Free()), mem, t', Free())
      ensures t'.view == Without(t.view, va / PGSIZE, npages)
      ensures Owned(t') <= Owned(t) && Keeps(old(mem), mem, Owned(t))
      ensures Contents(mem, t') == Without(old(Contents(mem, t)), va / PGSIZE, npages)
    {
      hide Wf, LeavesOk, UserFrames, PagesOf, Without;
      ghost var v := va / PGSIZE;
      ConservesRefl(mem, t, Free());
      WithoutNone(t.view, v);
      WithoutNone(Contents(mem, t), v);
      var a, end := va, va + npages * PGSIZE;
      ghost var k := 0;
      t' := t;
      while a < end
        invariant k <= npages && va == v * PGSIZE && a == va + k * PGSIZE
        invariant Ok() && Conserves(old(mem), t, old(Free()), mem, t', Free())
        invariant t'.view == Without(t.view, v, k) && Keeps(old(mem), mem, Owned(t)) && Owned(t') <= Owned(t)
        invariant Contents(mem, t') == Without(old(Contents(mem, t)), v, k)
        decreases npages - k
      {
        ghost var mem1, t1, free1 := mem, t', Free();
        assert a / PGSIZE == v + k;
        t' := UnmapOne(t', root, a, doFree);
        ConservesTrans(old(mem), t, old(Free()), mem1, t1, free1, mem, t', Free());
        WithoutStep(t.view, v, k);
        WithoutStep(old(Contents(mem, t)), v, k);
        a, k := a + PGSIZE, k + 1;
      }
    }

    /** kalloc a page and fill it with `data`. */
    method TakePage(ghost t: Shape, root: nat, data: seq<Byte>) returns (f: nat)
      requires Ok() && At(mem, t, root, Free())
      modifies this
      ensures Ok() && (f == 0 <==> old(free) == []) && (f == 0 ==> mem == old(mem) && free == old(free))
      ensures f != 0 ==> f in old(Free()) && Free() == old(Free()) - {f} && |free| == |old(free)| - 1
      ensures f != 0 ==> lo <= f < hi && f !in free && f in mem && mem[f] == Data(data) && Keeps(old(mem), mem, {f})
      ensures SpaceOk(mem, t) && Contents(mem, t) == old(Contents(mem, t))
    {
      hide Wf, LeavesOk, UserFrames, PagesOf, SpaceOk, Contents;
      f := Kalloc();
      if f != 0 {
        mem := mem[f := Data(data)];
        FreshFrame(old(mem), t, old(Free()), mem, f);
      }
    }

    /** kalloc a page, fill it with `data`, and map it at page `v`: the body of the loops of
        uvmalloc (zeroes) and uvmcopy (the parent's bytes). */
    method NewPage(ghost t: Shape, root: nat, a: nat, ghost v: nat, data: seq<Byte>, perm: nat)
      returns (ok: bool, ghost t': Shape)
      requires Ok() && At(mem, t, root, Free())
      requires a / PGSIZE == v < UTOP && v !in t.view && |data| == PGSIZE
      requires perm < 1024 && PteLeaf(perm)
      modifies this
      ensures Ok() && Conserves(old(mem), t, old(Free()), mem, t', Free())
      ensures t'.view.Keys == t.view.Keys + if ok then {v} else {}
      ensures forall u :: u in t.view ==> t'.view[u] == t.view[u]
      ensures Contents(mem, t') == if ok then old(Contents(mem, t))[v := UserPage(WithValid(perm), data)]
                                   else old(Contents(mem, t))
      ensures if ok then Took(t, |old(free)|, t', |free|, {v}, 1) else Short(t, |old(free)|, {v}, 1)
    {
      hide Wf, LeavesOk, UserFrames, PagesOf, MakePte, PteFlags, PteFrame, PteLeaf, WithValid, Grows, Took, Short, Ok;
      ConservesRefl(mem, t, Free());
      var f := TakePage(t, root, data);
      if f == 0 {
        NoPage(t, {v});
        return false, t;
      }
      OnePage(t, |free|, {v});
      ghost var mem1 := mem;
      ok, t' := MapOne(t, root, a, f, perm);
      PteRoundTrip(f, perm);
      if !ok {
        ghost var mem2, free2 := mem, Free();
        assert f !in Free();
        Kfree(f);
        NoNewPage(old(mem), t, old(Free()), mem1, mem2, free2, mem, t', Free(), f);
        return;
      }
      YesNewPage(old(mem), t, old(Free()), mem1, mem, t', Free(), f, v, MakePte(f, perm), data);
    }

    /** One iteration of uvmalloc. Memory runs out before the user range does. */
    method GrowPage(ghost t: Shape, root: nat, a: nat, ghost v: nat, xperm: nat) returns (ok: bool, ghost t': Shape)
      requires Ok() && At(mem, t, root, Free()) && UserIs(t, v) && a == v * PGSIZE && IsXperm(xperm)
      modifies this
      ensures v < UTOP && Ok() && Conserves(old(mem), t, old(Free()), mem, t', Free())
      ensures t.view.Keys <= t'.view.Keys <= t.view.Keys + {v} && UserIs(t', if ok then v + 1 else v)
      ensures forall u :: u in t.view ==> t'.view[u] == t.view[u]
      ensures Contents(mem, t') == if ok then old(Contents(mem, t))[v := ZeroPage(xperm)] else old(Contents(mem, t))
      ensures if ok then Took(t, |old(free)|, t', |free|, {v}, 1) else Short(t, |old(free)|, {v}, 1)
    {
      hide Wf, LeavesOk, UserFrames, PagesOf, PteFlags, PteLeaf, WithValid, Took, Short;
      UserPerm(xperm);
      assert v < UTOP by { PagesFit(mem, t, v, lo, hi); }
      assert a / PGSIZE == v;
      ok, t' := NewPage(t, root, a, v, seq(PGSIZE, _ => 0), PTE_R + PTE_U + xperm);
    }

    /** The loop of uvmalloc: add zeroed pages at page `v` and up until `newsz` is covered
        or memory runs out. */
    method GrowPages(ghost t: Shape, root: nat, base: nat, newsz: nat, xperm: nat)
      returns (a: nat, ghost t': Shape, ghost k: nat)
      requires Ok() && At(mem, t, root, Free())
      requires base % PGSIZE == 0 && UserIs(t, base / PGSIZE) && base / PGSIZE <= Pages(newsz)
      requires IsXperm(xperm)
      modifies this
      ensures Ok() && Conserves(old(mem), t, old(Free()), mem, t', Free()) && SameTop(t, t')
      ensures a == base + k * PGSIZE && UserIs(t', base / PGSIZE + k)
      ensures Contents(mem, t') == Fill(old(Contents(mem, t)), base / PGSIZE, k, ZeroPage(xperm))
      ensures a >= newsz ==> base / PGSIZE + k == Pages(newsz)
      ensures a >= newsz ==> Took(t, |old(free)|, t', |free|, Range(base / PGSIZE, k), k)
      ensures a < newsz ==>
                var n := Pages(newsz) - base / PGSIZE;
                Short(t, |old(free)|, Range(base / PGSIZE, n), n)
    {
      hide Wf, LeavesOk, UserFrames, PagesOf, Fill, PteFlags, PteLeaf, Pages, SameTop, WithValid, Took, Short, Range,
           UserIs;
      TookNothing(t, |free|);
      ghost var v, c, page := base / PGSIZE, Contents(mem, t), ZeroPage(xperm);
      ConservesRefl(mem, t, Free());
      SameTopRefl(t);
      FillNone(c, v, page);
      PagesBounds(newsz);
      a, k, t' := base, 0, t;
      RangeNext(v, 0);
      while a < newsz
        invariant base == v * PGSIZE && a == (v + k) * PGSIZE && v + k <= Pages(newsz)
        invariant Ok() && Conserves(old(mem), t, old(Free()), mem, t', Free()) && SameTop(t, t')
        invariant UserIs(t', v + k) && Contents(mem, t') == Fill(c, v, k, page)
        invariant Took(t, |old(free)|, t', |free|, Range(v, k), k)
        decreases Pages(newsz) - (v + k)
      {
        ghost var mem1, t1, free1, n1 := mem, t', Free(), |free|;
        var done;
        done, t' := GrowPage(t', root, a, v + k, xperm);
        ConservesTrans(old(mem), t, old(Free()), mem1, t1, free1, mem, t', Free());
        SameTopGrows(t, t1, t', v + k);
        if !done {
          ShortPage(t, |old(free)|, t1, n1, v, k, k, 1, Pages(newsz) - v, Pages(newsz) - v);
          return;
        }
        TookPage(t, |old(free)|, t1, n1, t', |free|, v, k, k, 1);
        FillStep(c, v, k, page);
        a, k := a + PGSIZE, k + 1;
      }
    }

    /** uvmalloc: grow user memory with zeroed pages, or put everything back. */
    method Uvmalloc(ghost t: Shape, root: nat, oldsz: nat, newsz: nat, xperm: nat)
      returns (r: nat, ghost t': Shape, ghost ok: bool)
      requires Ok() && At(mem, t, root, Free())
      requires UserIs(t, Pages(oldsz)) && IsXperm(xperm)
      modifies this
      ensures Ok() && Conserves(old(mem), t, old(Free()), mem, t', Free()) && SameTop(t, t')
      ensures newsz < oldsz ==> ok
      ensures ok ==> r == (if newsz < oldsz then oldsz else newsz) && UserIs(t', Pages(r)) && Pages(oldsz) <= Pages(r)
      ensures ok ==>
                Contents(mem, t') == Fill(old(Contents(mem, t)), Pages(oldsz), Pages(r) - Pages(oldsz), ZeroPage(xperm))
      ensures !ok ==> r == 0 && UserIs(t', Pages(oldsz)) && Contents(mem, t') == old(Contents(mem, t))
      ensures ok ==>
                var n := Pages(r) - Pages(oldsz);
                Took(t, |old(free)|, t', |free|, Range(Pages(oldsz), n), n)
      ensures !ok ==>
                var n := Pages(newsz) - Pages(oldsz);
                n >= 0 && Short(t, |old(free)|, Range(Pages(oldsz), n), n)
    {
      hide Wf, LeavesOk, UserFrames, PagesOf, Fill, Pages, PageRoundUp, SameTop, ZeroPage, Without, Took, Short, Range;
      TookNothing(t, |free|);
      RangeNext(Pages(oldsz), 0);
      ConservesRefl(mem, t, Free());
      SameTopRefl(t);
      FillNone(Contents(mem, t), Pages(oldsz), ZeroPage(xperm));
      PagesBounds(oldsz);
      PagesBounds(newsz);
      if newsz < oldsz { return oldsz, t, true; }
      var base := PageRoundUp(oldsz);
      ghost var k;
      var a;
      a, t', k := GrowPages(t, root, base, newsz, xperm);
      if a < newsz {
        ghost var mem1, t1, free1 := mem, t', Free();
        PagesBounds(a);
        PagesBounds(base);
        r, t' := Uvmdealloc(t', root, a, base);
        ConservesTrans(old(mem), t, old(Free()), mem1, t1, free1, mem, t', Free());
        RollBack(t, t1, t', Pages(oldsz), k);
        ContentsKeys(old(mem), t);
        WithoutFill(old(Contents(mem, t)), Pages(oldsz), k, ZeroPage(xperm));
        return 0, t', false;
      }
      return newsz, t', true;
    }

    /** uvmdealloc: shrink user memory. */
    method Uvmdealloc(ghost t: Shape, root: nat, oldsz: nat, newsz: nat) returns (r: nat, ghost t': Shape)
      requires Ok() && At(mem, t, root, Free())
      requires Pages(oldsz) <= UTOP
      modifies this
      ensures Ok() && Conserves(old(mem), t, old(Free()), mem, t', Free())
      ensures r == if newsz >= oldsz then oldsz else newsz
      ensures Pages(r) <= Pages(oldsz) && t'.view == Without(t.view, Pages(r), Pages(oldsz) - Pages(r))
      ensures Contents(mem, t') == Without(old(Contents(mem, t)), Pages(r), Pages(oldsz) - Pages(r))
      ensures Keeps(old(mem), mem, Owned(t))
    {
      hide Wf, LeavesOk, UserFrames, PagesOf, Pages, PageRoundUp, Without;
      ConservesRefl(mem, t, Free());
      PagesBounds(oldsz);
      PagesBounds(newsz);
      t', r := t, if newsz >= oldsz then oldsz else newsz;
      WithoutNone(t.view, Pages(r));
      WithoutNone(Contents(mem, t), Pages(r));
      if newsz < oldsz && PageRoundUp(newsz) < PageRoundUp(oldsz) {
        var npages := (PageRoundUp(oldsz) - PageRoundUp(newsz)) / PGSIZE;
        assert npages == Pages(oldsz) - Pages(newsz);
        t' := Uvmunmap(t, root, PageRoundUp(newsz), npages, true);
      }
    }

    /** freewalk: free a table page and, first, every table page below it. `m0` is memory
        as it was before the teardown began. */
    method Freewalk(ghost m0: Mem, ghost t: Shape, ghost p: Pos, n: nat)
      requires Ok() && Wf(m0, t) && t.view == map[] && p in t.node && t.node[p] == n
      requires Sub(t, p) !! Free() && forall f :: f in Sub(t, p) ==> f in mem && mem[f] == m0[f]
      modifies this
      ensures Ok() && Free() == old(Free()) + Sub(t, p) && Keeps(old(mem), mem, Sub(t, p))
      decreases Level(p), 1
    {
      hide Wf, Sub, SubBelow, Torn, Keeps;
      SubFacts(m0, t, p, 0);
      TornStart(m0, t, p, mem, Free());
      var i := 0;
      while i < 512
        invariant 0 <= i <= 512
        invariant Ok() && Torn(m0, t, p, i, old(mem), old(Free()), mem, Free())
      {
        FreeChild(m0, t, p, n, i, old(mem), old(Free()));
        i := i + 1;
      }
      TornEnd(m0, t, p, old(mem), old(Free()), mem, Free());
      ghost var mem1 := mem;
      Kfree(n);
      assert Keeps(mem1, mem, {n}) by { KeepsOne(mem1, n, mem[n]); }
      KeepsTrans(old(mem), mem1, mem, Sub(t, p), {n});
    }

    /** One iteration of freewalk. */
    method FreeChild(ghost m0: Mem, ghost t: Shape, ghost p: Pos, n: nat, i: nat, ghost mem0: Mem,
                     ghost free0: set<nat>)
      requires Ok() && Wf(m0, t) && t.view == map[] && p in t.node && t.node[p] == n && i < 512
      requires Sub(t, p) !! free0 && forall f :: f in Sub(t, p) ==> f in mem0 && mem0[f] == m0[f]
      requires Torn(m0, t, p, i, mem0, free0, mem, Free())
      modifies this
      ensures Ok() && Torn(m0, t, p, i + 1, mem0, free0, mem, Free())
      decreases Level(p), 0
    {
      hide Wf, Sub, SubBelow, Child, PteValid, PteLeaf, PteFrame;
      SubFacts(m0, t, p, i);
      NoLeaf(m0, t, p, i);
      var pte := mem[n].e[i];
      if PteValid(pte) && !PteLeaf(pte) {
        ghost var below, mem1, free1 := Sub(t, Child(p, i)), mem, Free();
        assert below !! Free();
        assert forall f :: f in below ==> f in mem && mem[f] == m0[f];
        Freewalk(m0, t, Child(p, i), PteFrame(pte));
        TornNext(m0, t, p, i, mem0, free0, mem1, free1, mem, below);
        hide Keeps, Torn;
        mem := mem[n := Table(mem[n].e[i := 0])];
      }
    }

    /** uvmfree: give back the user pages and then the table pages. The caller has already
        unmapped everything that is not user memory. */
    method Uvmfree(ghost t: Shape, root: nat, sz: nat)
      requires Ok() && At(mem, t, root, Free())
      requires UserIs(t, Pages(sz)) && forall v :: v in t.view ==> v < UTOP
      modifies this
      ensures Ok() && Free() == old(Free()) + Owned(t) && Keeps(old(mem), mem, Owned(t))
    {
      hide Wf, LeavesOk, UserFrames, PagesOf, Pages, Sub, PageRoundUp, UserIs, Without;
      ConservesRefl(mem, t, Free());
      PagesBounds(sz);
      AllGone(t, Pages(sz));
      ghost var t' := t;
      if sz > 0 {
        t' := Uvmunmap(t, root, 0, PageRoundUp(sz) / PGSIZE, true);
      } else {
        WithoutNone(t.view, 0);
      }
      EmptyOwned(mem, t');
      Freewalk(mem, t', Root, root);
    }

    /** One iteration of uvmcopy: duplicate page `v` of `t1`, if it is mapped, into `t2`. */
    method CopyPage(ghost t1: Shape, ghost c1: map<nat, UserPage>, oldRoot: nat,
                    ghost t2: Shape, ghost c2: map<nat, UserPage>, newRoot: nat, a: nat)
      returns (ok: bool, ghost t': Shape)
      requires Ok() && At(mem, t1, oldRoot, Free()) && At(mem, t2, newRoot, Free()) && Owned(t1) !! Owned(t2)
      requires Presents(mem, t1, c1) && Presents(mem, t2, c2)
      requires a / PGSIZE < UTOP && a / PGSIZE !in t2.view
      modifies this
      ensures Ok() && Conserves(old(mem), t2, old(Free()), mem, t', Free())
      ensures Presents(mem, t1, c1) && Presents(mem, t', CopyOf(c2, c1, a / PGSIZE, ok))
      ensures t2.view.Keys <= t'.view.Keys <= t2.view.Keys + {a / PGSIZE}
      ensures forall u :: u in t2.view ==> t'.view[u] == t2.view[u]
      ensures TookIf(t2, |old(free)|, t', |free|, c1, a / PGSIZE, ok)
    {
      hide Wf, LeavesOk, UserFrames, PagesOf, PteFlags, PteFrame, PteLeaf, PteValid, WithValid, Took, Short;
      ghost var v := a / PGSIZE;
      ConservesRefl(mem, t2, Free());
      ContentsKeys(mem, t1);
      var has, n, same := Walk(t1, oldRoot, a, false);
      if !has {
        Unmapped(mem, t1, v);
        return true, t2;
      }
      var pte := LeafEntry(t1, n, a / PGSIZE);
      if !PteValid(pte) { return true, t2; }
      LeafFacts(mem, t1, v);
      ok, t' := NewPage(t2, newRoot, a, v, mem[PteFrame(pte)].b, PteFlags(pte));
      SpaceFrame(old(mem), mem, t1, Owned(t2) + old(Free()));
    }

    /** uvmcopy: copy the first `sz` bytes of an address space, or leave none of them. */
    method Uvmcopy(ghost t1: Shape, ghost c1: map<nat, UserPage>, oldRoot: nat,
                   ghost t2: Shape, ghost c2: map<nat, UserPage>, newRoot: nat, sz: nat)
      returns (ok: bool, ghost t': Shape)
      requires Presents(mem, t1, c1) && Presents(mem, t2, c2)
      requires Ok() && At(mem, t1, oldRoot, Free()) && At(mem, t2, newRoot, Free()) && Owned(t1) !! Owned(t2)
      requires Pages(sz) <= UTOP && forall v :: 0 <= v < Pages(sz) ==> v !in t2.view
      modifies this
      ensures Ok() && Conserves(old(mem), t2, old(Free()), mem, t', Free()) && SameTop(t2, t')
      ensures Presents(mem, t1, c1) && Presents(mem, t', if ok then Overlay(c2, c1, Pages(sz)) else c2)
      ensures if ok then Took(t2, |old(free)|, t', |free|, Below(c1, Pages(sz)), |Below(c1, Pages(sz))|)
              else Short(t2, |old(free)|, Below(c1, Pages(sz)), |Below(c1, Pages(sz))|)
    {
      hide Wf, LeavesOk, UserFrames, PagesOf, Pages, Without, Overlay, SameTop, CopyOf, Took, Short, Below, TookIf;
      TookNothing(t2, |free|);
      BelowNext(c1, 0);
      ConservesRefl(mem, t1, Free());
      ConservesRefl(mem, t2, Free());
      SameTopRefl(t2);
      OverlayNone(c2, c1);
      PagesBounds(sz);
      ContentsKeys(mem, t2);
      var i := 0;
      ghost var k := 0;
      t' := t2;
      while i < sz
        invariant i == k * PGSIZE && k <= Pages(sz)
        invariant Took(t2, |old(free)|, t', |free|, Below(c1, k), |Below(c1, k)|)
        invariant Ok() && Conserves(old(mem), t2, old(Free()), mem, t', Free()) && SameTop(t2, t')
        invariant Presents(mem, t1, c1) && Presents(mem, t', Overlay(c2, c1, k)) && Owned(t1) !! (Owned(t') + Free())
        invariant forall v :: k <= v < Pages(sz) ==> v !in t'.view
        decreases Pages(sz) - k
      {
        ghost var mem1, tk, free1, n1 := mem, t', Free(), |free|;
        assert i / PGSIZE == k;
        var done;
        done, t' := CopyPage(t1, c1, oldRoot, t', Overlay(c2, c1, k), newRoot, i);
        ConservesTrans(old(mem), t2, old(Free()), mem1, tk, free1, mem, t', Free());
        SameTopGrows(t2, tk, t', k);
        OverlayStep(c2, c1, k, done);
        if !done {
          ShortCopy(t2, |old(free)|, tk, n1, t', |free|, c1, k, Pages(sz));
          ghost var mem2, tf, free2 := mem, t', Free();
          t' := Uvmunmap(t', newRoot, 0, i / PGSIZE, true);
          ConservesTrans(old(mem), t2, old(Free()), mem2, tf, free2, mem, t', Free());
          SpaceFrame(mem2, mem, t1, Owned(tf));
          SameTopShrinks(t2, tf, t', k);
          OverlayUndone(c2, c1, k);
          return false, t';
        }
        TookCopy(t2, |old(free)|, tk, n1, t', |free|, c1, k);
        i, k := i + PGSIZE, k + 1;
      }
      return true, t';
    }
  }
}
