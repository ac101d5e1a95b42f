/** The user heap: a circular, address-ordered list of free blocks (user/lib/umalloc.c). Memory is
    counted in units of one header; addresses are unit numbers. */
module Umalloc {
  import opened MachineWords

  datatype Header = Header(ptr: int, size: nat)

  type Memory = map<int, Header>

  /** `n` follows `a` in the ring: it is the next node by address, or the anchor after the last. */
  ghost predicate Follows(nodes: set<int>, base: int, a: int, n: int) {
    n in nodes &&
    (if n > a then forall b :: b in nodes ==> b <= a || n <= b else n == base && forall b :: b in nodes ==> b <= a)
  }

  /** The free list: from the anchor up through the free blocks by address, and back. */
  ghost predicate RingOk(mem: Memory, nodes: set<int>, base: int) {
    base in nodes && base in mem && mem[base].size == 0 &&
    forall a :: a in nodes ==> base <= a && a in mem && Follows(nodes, base, a, mem[a].ptr)
  }

  /** No free block ends where the next one starts, except possibly those in `e`. */
  ghost predicate Apart(mem: Memory, nodes: set<int>, e: set<int>) {
    forall a :: a in nodes && a !in e ==> a in mem && (mem[a].ptr > a ==> a + mem[a].size != mem[a].ptr)
  }

  predicate IsBlock(nodes: set<int>, alloc: set<int>, base: int, a: int) { a in alloc || (a in nodes && a != base) }

  ghost predicate Covers(cover: map<int, int>, a: int, n: nat) {
    forall u :: a <= u < a + n ==> u in cover && cover[u] == a
  }

  /** The blocks tile the memory got from sbrk: `cover` maps each of its units to its block. */
  ghost predicate Tiled(mem: Memory, nodes: set<int>, alloc: set<int>, cover: map<int, int>, base: int) {
    (forall a :: IsBlock(nodes, alloc, base, a) ==> a in mem && mem[a].size >= 1 && Covers(cover, a, mem[a].size)) &&
    alloc !! nodes &&
    (forall u :: u in cover ==> InBlock(mem, nodes, alloc, cover, base, u))
  }

  ghost predicate InBlock(mem: Memory, nodes: set<int>, alloc: set<int>, cover: map<int, int>, base: int, u: int) {
    u in cover && base < u && u in mem && IsBlock(nodes, alloc, base, cover[u]) && cover[u] in mem &&
    cover[u] <= u < cover[u] + mem[cover[u]].size
  }

  /** Two blocks of the tiling do not overlap. */
  lemma NoOverlap(mem: Memory, nodes: set<int>, alloc: set<int>, cover: map<int, int>, base: int, a: int, b: int)
    requires Tiled(mem, nodes, alloc, cover, base) && IsBlock(nodes, alloc, base, a) &&
             IsBlock(nodes, alloc, base, b) && a < b
    ensures base < a && a in mem && a + mem[a].size <= b
  {
    assert Covers(cover, a, mem[a].size) && Covers(cover, b, mem[b].size);
    assert cover[b] == b && cover[a] == a;
    assert InBlock(mem, nodes, alloc, cover, base, a);
  }

  /** A block at `bp` belongs just after node `p`. */
  ghost predicate Place(mem: Memory, nodes: set<int>, base: int, p: int, bp: int) {
    p in nodes && p in mem && p < bp && (mem[p].ptr > p ==> bp < mem[p].ptr)
  }

  function Linked(mem: Memory, p: int, bp: int): Memory
    requires p in mem && bp in mem
  {
    mem[bp := Header(mem[p].ptr, mem[bp].size)][p := Header(bp, mem[p].size)]
  }

  lemma LinkFollows(nodes: set<int>, base: int, p: int, n: int, bp: int, a: int, m: int)
    requires Follows(nodes, base, p, n) && p in nodes && base <= p < bp && (n > p ==> bp < n) && bp !in nodes
    requires a in nodes && Follows(nodes, base, a, m)
    ensures Follows(nodes + {bp}, base, bp, n) && Follows(nodes + {bp}, base, p, bp) &&
            (a != p ==> Follows(nodes + {bp}, base, a, m))
  {
  }

  /** Linking in a block keeps the ring; only it and its neighbour before may now abut the next. */
  lemma LinkRing(mem: Memory, nodes: set<int>, base: int, p: int, bp: int)
    requires RingOk(mem, nodes, base) && Place(mem, nodes, base, p, bp) && bp in mem && bp !in nodes
    ensures RingOk(Linked(mem, p, bp), nodes + {bp}, base)
    ensures Apart(mem, nodes, {}) ==> Apart(Linked(mem, p, bp), nodes + {bp}, {p, bp})
  {
    hide Follows;
    var mem', nodes' := Linked(mem, p, bp), nodes + {bp};
    forall a | a in nodes' ensures base <= a && a in mem' && Follows(nodes', base, a, mem'[a].ptr) {
      LinkFollows(nodes, base, p, mem[p].ptr, bp, if a in nodes then a else p, mem[if a in nodes then a else p].ptr);
    }
  }

  lemma LinkTiled(mem: Memory, nodes: set<int>, alloc: set<int>, cover: map<int, int>, base: int, p: int, bp: int)
    requires RingOk(mem, nodes, base) && Tiled(mem, nodes, alloc, cover, base) && bp in alloc && p in nodes &&
             p in mem && bp in mem
    ensures Tiled(Linked(mem, p, bp), nodes + {bp}, alloc - {bp}, cover, base)
  {
    hide Covers, Follows;
    var mem', nodes', alloc' := Linked(mem, p, bp), nodes + {bp}, alloc - {bp};
    assert IsBlock(nodes, alloc, base, bp);
    assert bp != base;
    forall a | IsBlock(nodes', alloc', base, a)
      ensures a in mem' && mem'[a].size >= 1 && Covers(cover, a, mem'[a].size)
    {
      assert IsBlock(nodes, alloc, base, a);
    }
    forall u | u in cover ensures InBlock(mem', nodes', alloc', cover, base, u) {
      assert InBlock(mem, nodes, alloc, cover, base, u);
    }
  }

  /** Node `a` swallows the one after it. */
  function Merged(mem: Memory, a: int): Memory
    requires a in mem && mem[a].ptr in mem
  {
    mem[a := Header(mem[mem[a].ptr].ptr, mem[a].size + mem[mem[a].ptr].size)]
  }

  lemma MergeFollows(nodes: set<int>, base: int, a: int, b: int, n: int, c: int, m: int)
    requires Follows(nodes, base, a, b) && a < b && base < b && Follows(nodes, base, b, n) && a in nodes &&
             base in nodes
    requires c in nodes && Follows(nodes, base, c, m) && c != b
    ensures Follows(nodes - {b}, base, a, n) && (c != a ==> Follows(nodes - {b}, base, c, m))
  {
  }

  lemma MergeRing(mem: Memory, nodes: set<int>, base: int, a: int, e: set<int>)
    requires RingOk(mem, nodes, base) && a in nodes && a != base && mem[a].ptr > a && a in mem && mem[a].ptr in mem &&
             mem[a].ptr in nodes
    ensures RingOk(Merged(mem, a), nodes - {mem[a].ptr}, base)
    ensures Apart(mem, nodes, e) && mem[a].ptr !in e && a + mem[a].size == mem[a].ptr ==>
              Apart(Merged(mem, a), nodes - {mem[a].ptr}, e - {a})
  {
    hide Follows;
    var b := mem[a].ptr;
    var mem', nodes' := Merged(mem, a), nodes - {b};
    assert Follows(nodes, base, a, b) && Follows(nodes, base, b, mem[b].ptr);
    FollowsUp(nodes, base, b, mem[b].ptr);
    forall c | c in nodes' ensures Follows(nodes', base, c, mem'[c].ptr) {
      MergeFollows(nodes, base, a, b, mem[b].ptr, c, mem[c].ptr);
    }
  }

  function Relabel(cover: map<int, int>, b: int, a: int): (c: map<int, int>)
    ensures c.Keys == cover.Keys && forall u :: u in cover ==> c[u] == if cover[u] == b then a else cover[u]
  {
    map u | u in cover :: if cover[u] == b then a else cover[u]
  }

  lemma MergeTiled(mem: Memory, nodes: set<int>, alloc: set<int>, cover: map<int, int>, base: int, a: int, b: int)
    requires RingOk(mem, nodes, base) && Tiled(mem, nodes, alloc, cover, base) && a in nodes && a != base && a in mem
    requires b == mem[a].ptr > a && b in mem && a + mem[a].size == b && b in nodes
    ensures Tiled(Merged(mem, a), nodes - {b}, alloc, Relabel(cover, b, a), base)
  {
    hide Follows, Relabel;
    var mem', nodes', cover' := Merged(mem, a), nodes - {b}, Relabel(cover, b, a);
    assert IsBlock(nodes, alloc, base, a) && IsBlock(nodes, alloc, base, b);
    assert Covers(cover, a, mem[a].size) && Covers(cover, b, mem[b].size);
    forall c | IsBlock(nodes', alloc, base, c)
      ensures c in mem' && mem'[c].size >= 1 && Covers(cover', c, mem'[c].size)
    {
      assert IsBlock(nodes, alloc, base, c);
      assert Covers(cover, c, mem[c].size);
    }
    forall u | u in cover' ensures InBlock(mem', nodes', alloc, cover', base, u) {
      assert InBlock(mem, nodes, alloc, cover, base, u);
    }
  }

  /** The nodes met on the way from just after `p` up to and including `k`. */
  ghost function Ahead(nodes: set<int>, p: int, k: int): set<int> {
    set b | b in nodes && (if p <= k then p < b <= k else p < b || b <= k)
  }

  lemma AheadShrinks(nodes: set<int>, base: int, p: int, n: int, k: int)
    requires Follows(nodes, base, p, n) && p in nodes && k in nodes && p != k && forall b :: b in nodes ==> base <= b
    ensures Ahead(nodes, n, k) < Ahead(nodes, p, k)
  {
    assert n in Ahead(nodes, p, k) && n !in Ahead(nodes, n, k);
  }

  /** The node after which a block at `bp` goes. */
  lemma {:induction false} Before(nodes: set<int>, base: int, bp: int) returns (k: int)
    requires base in nodes && base < bp && bp !in nodes
    ensures k in nodes && k < bp && forall b :: b in nodes ==> b <= k || bp < b
    decreases nodes
  {
    k := base;
    if exists x :: x in nodes && x != base {
      var x :| x in nodes && x != base;
      var rest := nodes - {x};
      k := Before(rest, base, bp);
      assert forall b :: b in nodes ==> b == x || b in rest;
      if k < x < bp { k := x; }
    }
  }

  /** The predecessor is where the search stops, and it does not stop elsewhere. */
  lemma SearchStops(nodes: set<int>, base: int, p: int, n: int, bp: int, k: int)
    requires Follows(nodes, base, p, n) && p in nodes && base < bp && bp !in nodes &&
             (forall b :: b in nodes ==> base <= b)
    requires k in nodes && k < bp && forall b :: b in nodes ==> b <= k || bp < b
    ensures p == k ==> (bp > p && bp < n) || (p >= n && (bp > p || bp < n))
    ensures (bp > p && bp < n) || (p >= n && (bp > p || bp < n)) ==> p < bp && (n > p ==> bp < n)
  {
  }

  lemma UnlinkRing(mem: Memory, nodes: set<int>, base: int, prev: int, p: int)
    requires RingOk(mem, nodes, base) && Apart(mem, nodes, {}) && prev in nodes && p in nodes && p != base &&
             mem[prev].ptr == p
    requires prev + mem[prev].size <= p && (mem[p].ptr > p ==> prev + mem[prev].size < mem[p].ptr)
    ensures prev < p && RingOk(mem[prev := Header(mem[p].ptr, mem[prev].size)], nodes - {p}, base)
    ensures Apart(mem[prev := Header(mem[p].ptr, mem[prev].size)], nodes - {p}, {})
  {
    hide Follows;
    var mem', nodes' := mem[prev := Header(mem[p].ptr, mem[prev].size)], nodes - {p};
    assert Follows(nodes, base, prev, p) && Follows(nodes, base, p, mem[p].ptr);
    FollowsUp(nodes, base, prev, p);
    FollowsUp(nodes, base, p, mem[p].ptr);
    forall c | c in nodes' ensures Follows(nodes', base, c, mem'[c].ptr) {
      MergeFollows(nodes, base, prev, p, mem[p].ptr, c, mem[c].ptr);
    }
  }

  lemma FollowsUp(nodes: set<int>, base: int, a: int, n: int)
    requires Follows(nodes, base, a, n)
    ensures n in nodes && (n > a || n == base)
  {
  }

  lemma UnlinkTiled(mem: Memory, nodes: set<int>, alloc: set<int>, cover: map<int, int>, base: int, prev: int, p: int)
    requires RingOk(mem, nodes, base) && Tiled(mem, nodes, alloc, cover, base) && prev in nodes && p in nodes &&
             p != base && p in mem
    ensures prev in mem && Tiled(mem[prev := Header(mem[p].ptr, mem[prev].size)], nodes - {p}, alloc + {p}, cover, base)
  {
    hide Covers, Follows;
    var mem', nodes', alloc' := mem[prev := Header(mem[p].ptr, mem[prev].size)], nodes - {p}, alloc + {p};
    forall a | IsBlock(nodes', alloc', base, a)
      ensures a in mem' && mem'[a].size >= 1 && Covers(cover, a, mem'[a].size)
    {
      assert IsBlock(nodes, alloc, base, a);
    }
    forall u | u in cover ensures InBlock(mem', nodes', alloc', cover, base, u) {
      assert InBlock(mem, nodes, alloc, cover, base, u);
    }
  }

  /** The last `n` units of block `p` cut off as a block of their own. */
  function Cut(mem: Memory, p: int, n: nat): Memory
    requires p in mem && mem[p].size > n && p + mem[p].size - n in mem
  {
    var q := p + mem[p].size - n;
    mem[p := Header(mem[p].ptr, mem[p].size - n)][q := Header(mem[q].ptr, n)]
  }

  function CutCover(cover: map<int, int>, q: int, n: nat): (c: map<int, int>)
    ensures c.Keys == cover.Keys && forall u :: u in cover ==> c[u] == if q <= u < q + n then q else cover[u]
  {
    map u | u in cover :: if q <= u < q + n then q else cover[u]
  }

  lemma CutFresh(mem: Memory, nodes: set<int>, alloc: set<int>, cover: map<int, int>, base: int, p: int, q: int)
    requires Tiled(mem, nodes, alloc, cover, base) && IsBlock(nodes, alloc, base, p) && p in mem &&
             p < q < p + mem[p].size
    ensures q in mem && q in cover && cover[q] == p && !IsBlock(nodes, alloc, base, q) && base < q
  {
    assert Covers(cover, p, mem[p].size);
    assert InBlock(mem, nodes, alloc, cover, base, q);
    if IsBlock(nodes, alloc, base, q) { NoOverlap(mem, nodes, alloc, cover, base, p, q); }
  }

  lemma CutTiled(mem: Memory, nodes: set<int>, alloc: set<int>, cover: map<int, int>, base: int, p: int, n: nat, q: int)
    requires Tiled(mem, nodes, alloc, cover, base) && p in nodes && p != base && p in mem && 1 <= n < mem[p].size &&
             q == p + mem[p].size - n
    requires q in mem && !IsBlock(nodes, alloc, base, q) && base < q
    ensures Tiled(Cut(mem, p, n), nodes, alloc + {q}, CutCover(cover, q, n), base)
  {
    hide CutCover, Covers, InBlock;
    assert IsBlock(nodes, alloc, base, p);
    var mem', alloc', cover' := Cut(mem, p, n), alloc + {q}, CutCover(cover, q, n);
    forall a | IsBlock(nodes, alloc', base, a)
      ensures a in mem' && mem'[a].size >= 1 && Covers(cover', a, mem'[a].size)
    {
      assert a != q ==> IsBlock(nodes, alloc, base, a);
      CutKeeps(cover, p, mem[p].size, if a == q then p else a, mem[if a == q then p else a].size, n);
    }
    forall u | u in cover' ensures InBlock(mem', nodes, alloc', cover', base, u) {
      CutIn(mem, nodes, alloc, cover, base, p, n, q, u);
    }
  }

  lemma CutIn(mem: Memory, nodes: set<int>, alloc: set<int>, cover: map<int, int>, base: int, p: int, n: nat, q: int,
              u: int)
    requires InBlock(mem, nodes, alloc, cover, base, u) && p in mem && 1 <= n < mem[p].size &&
             q == p + mem[p].size - n && q in mem
    requires !IsBlock(nodes, alloc, base, q)
    ensures InBlock(Cut(mem, p, n), nodes, alloc + {q}, CutCover(cover, q, n), base, u)
  {
    hide CutCover;
  }

  lemma CutKeeps(cover: map<int, int>, p: int, size: nat, a: int, m: nat, n: nat)
    requires Covers(cover, p, size) && Covers(cover, a, m) && n < size
    ensures a != p ==> Covers(CutCover(cover, p + size - n, n), a, m)
    ensures a == p && m == size ==> Covers(CutCover(cover, p + size - n, n), a, m - n)
    ensures Covers(CutCover(cover, p + size - n, n), p + size - n, n)
  {
    hide CutCover;
  }

  lemma CutRing(mem: Memory, nodes: set<int>, base: int, p: int, n: nat, q: int)
    requires RingOk(mem, nodes, base) && p in nodes && p in mem && 1 <= n < mem[p].size && q == p + mem[p].size - n &&
             q in mem && q !in nodes
    ensures RingOk(Cut(mem, p, n), nodes, base)
  {
    hide Follows;
  }

  lemma CutApart(mem: Memory, nodes: set<int>, alloc: set<int>, cover: map<int, int>, base: int, p: int, n: nat)
    requires RingOk(mem, nodes, base) && Apart(mem, nodes, {}) && Tiled(mem, nodes, alloc, cover, base)
    requires p in nodes && p in mem && 1 <= n < mem[p].size
    requires p + mem[p].size - n in mem && p + mem[p].size - n !in nodes
    ensures Apart(Cut(mem, p, n), nodes, {})
  {
    hide Follows;
    assert Follows(nodes, base, p, mem[p].ptr);
    FollowsUp(nodes, base, p, mem[p].ptr);
    assert IsBlock(nodes, alloc, base, p);
    if mem[p].ptr > p {
      assert IsBlock(nodes, alloc, base, mem[p].ptr);
      NoOverlap(mem, nodes, alloc, cover, base, p, mem[p].ptr);
    }
  }

  const NULL := 0
  const UNIT := 16
  const CHUNK := 4096
  const INT_MAX := 0x7fff_ffff

  /** Header units for a request, the header itself included. */
  function Units(nbytes: nat): (n: nat)
    ensures n >= 1 && (n - 1) * UNIT >= nbytes && (n >= 2 ==> (n - 2) * UNIT < nbytes)
  {
    (nbytes + UNIT - 1) / UNIT + 1
  }

  /** The byte count as sbrk's int argument gets it. */
  function SbrkArg(nu: nat): int {
    var low := nu * UNIT % UINT32;
    if low > INT_MAX then low - UINT32 else low
  }

  /** sbrk is asked for that many bytes just when they fit an int. */
  lemma SbrkExact(nu: nat)
    ensures SbrkArg(nu) == nu * UNIT <==> nu * UNIT <= INT_MAX
  {
  }

  /** Otherwise it can be asked to shrink memory. */
  lemma SbrkShrinks()
    ensures SbrkArg(Units(INT_MAX)) < 0
  {
  }

  /** The whole heap. */
  ghost predicate HeapOk(mem: Memory, nodes: set<int>, alloc: set<int>, cover: map<int, int>, base: int) {
    RingOk(mem, nodes, base) && Apart(mem, nodes, {}) && Tiled(mem, nodes, alloc, cover, base)
  }

  /** Units of allocated blocks other than those in `but` hold what they held, and are still theirs. */
  ghost predicate Untouched(mem: Memory, mem': Memory, alloc: set<int>, cover: map<int, int>, cover': map<int, int>,
                            but: set<int>)
  {
    forall u :: u in cover && cover[u] in alloc && cover[u] !in but ==>
      u in mem && u in mem' && mem'[u] == mem[u] && u in cover' && cover'[u] == cover[u]
  }

  lemma UntouchedTrans(m0: Memory, m1: Memory, m2: Memory, a0: set<int>, a1: set<int>, c0: map<int, int>,
                       c1: map<int, int>, c2: map<int, int>, but: set<int>)
    requires Untouched(m0, m1, a0, c0, c1, {}) && Untouched(m1, m2, a1, c1, c2, but) && a0 <= a1 && a0 !! but
    ensures Untouched(m0, m2, a0, c0, c2, {})
  {
  }

  lemma HeapBlock(mem: Memory, nodes: set<int>, alloc: set<int>, cover: map<int, int>, base: int, a: int)
    requires HeapOk(mem, nodes, alloc, cover, base) && IsBlock(nodes, alloc, base, a)
    ensures a in mem && mem[a].size >= 1 && a in cover && cover[a] == a && base < a && (a in alloc ==> a !in nodes)
  {
    hide RingOk, Apart;
    assert Covers(cover, a, mem[a].size);
    assert InBlock(mem, nodes, alloc, cover, base, a);
  }

  lemma RingNode(mem: Memory, nodes: set<int>, base: int, a: int)
    requires RingOk(mem, nodes, base) && a in nodes
    ensures base in nodes && base in mem && mem[base].size == 0 && base <= a && a in mem &&
            Follows(nodes, base, a, mem[a].ptr)
    ensures mem[a].ptr in nodes && mem[a].ptr in mem && (mem[a].ptr > a || mem[a].ptr == base)
  {
    FollowsUp(nodes, base, a, mem[a].ptr);
  }

  lemma RingBase(mem: Memory, nodes: set<int>, base: int)
    requires RingOk(mem, nodes, base)
    ensures base in nodes && base in mem && mem[base].size == 0 && forall b :: b in nodes ==> base <= b
  {
    hide Follows;
  }

  /** Only a node and the freed header are written, and neither is in another allocated block. */
  lemma WritesFree(mem: Memory, nodes: set<int>, alloc: set<int>, cover: map<int, int>, base: int, p: int, bp: int,
                   mem': Memory, cover': map<int, int>)
    requires HeapOk(mem, nodes, alloc, cover, base) && p in nodes &&
             (forall u :: u in mem && u != p && u != bp ==> u in mem' && mem'[u] == mem[u])
    requires bp in cover && (cover[bp] == bp || cover[bp] !in alloc)
    requires forall u :: u in cover && cover[u] in alloc && cover[u] != bp ==> u in cover' && cover'[u] == cover[u]
    ensures Untouched(mem, mem', alloc, cover, cover', {bp})
  {
    hide RingOk, Apart;
    forall u | u in cover && cover[u] in alloc && cover[u] != bp ensures u in mem && u in mem' && mem'[u] == mem[u] {
      assert InBlock(mem, nodes, alloc, cover, base, u);
      if u == p { HeapBlock(mem, nodes, alloc, cover, base, p); }
    }
  }

  /** The list after freeing: the block linked in, joined to the next one and to the one before. */
  function Joined(mem: Memory, p: int, bp: int): Memory
    requires p in mem && bp in mem && p < bp && mem[p].ptr in mem
  {
    var m := Linked(mem, p, bp);
    if bp + m[bp].size == m[bp].ptr then Merged(m, bp) else m
  }

  function FreeMem(mem: Memory, p: int, bp: int): Memory
    requires p in mem && bp in mem && p < bp && mem[p].ptr in mem
  {
    var m := Joined(mem, p, bp);
    if p + m[p].size == bp then Merged(m, p) else m
  }

  lemma JoinRight(mem: Memory, nodes: set<int>, alloc: set<int>, cover: map<int, int>, base: int, p: int, bp: int)
      returns (nodes': set<int>, cover': map<int, int>)
    requires HeapOk(mem, nodes, alloc, cover, base) && bp in alloc && Place(mem, nodes, base, p, bp)
    ensures bp in mem && p in mem && p < bp && mem[p].ptr in mem && RingOk(Joined(mem, p, bp), nodes', base)
    ensures Apart(Joined(mem, p, bp), nodes', {p}) && Tiled(Joined(mem, p, bp), nodes', alloc - {bp}, cover', base)
    ensures forall u :: u in cover && cover[u] in alloc && cover[u] != bp ==> u in cover' && cover'[u] == cover[u]
    ensures cover'.Keys == cover.Keys && p in nodes' && bp in nodes' && p in Joined(mem, p, bp) &&
            Joined(mem, p, bp)[p].ptr == bp
  {
    hide RingOk, Tiled, Follows, Covers;
    assert IsBlock(nodes, alloc, base, bp);
    HeapBlock(mem, nodes, alloc, cover, base, bp);
    RingNode(mem, nodes, base, p);
    LinkRing(mem, nodes, base, p, bp);
    LinkTiled(mem, nodes, alloc, cover, base, p, bp);
    var m := Linked(mem, p, bp);
    nodes', cover' := nodes + {bp}, cover;
    RingNode(m, nodes', base, bp);
    var n := m[bp].ptr;
    if bp + m[bp].size == n {
      assert IsBlock(nodes, alloc, base, n);
      HeapBlock(mem, nodes, alloc, cover, base, n);
      MergeRing(m, nodes', base, bp, {p, bp});
      MergeTiled(m, nodes', alloc - {bp}, cover, base, bp, n);
      nodes', cover' := nodes' - {n}, Relabel(cover, n, bp);
    }
  }

  lemma FreeOk(mem: Memory, nodes: set<int>, alloc: set<int>, cover: map<int, int>, base: int, p: int, bp: int)
      returns (nodes': set<int>, cover': map<int, int>)
    requires HeapOk(mem, nodes, alloc, cover, base) && bp in alloc && Place(mem, nodes, base, p, bp)
    ensures bp in mem && base <= p && p in mem && p < bp && mem[p].ptr in mem && mem[p].ptr != bp &&
            HeapOk(FreeMem(mem, p, bp), nodes', alloc - {bp}, cover', base)
    ensures cover'.Keys == cover.Keys && p in nodes' && Untouched(mem, FreeMem(mem, p, bp), alloc, cover, cover', {bp})
  {
    hide RingOk, Tiled, Follows, Covers, Joined;
    nodes', cover' := JoinRight(mem, nodes, alloc, cover, base, p, bp);
    var m := Joined(mem, p, bp);
    if p + m[p].size == bp {
      RingBase(m, nodes', base);
      RingNode(m, nodes', base, bp);
      MergeRing(m, nodes', base, p, {p});
      MergeTiled(m, nodes', alloc - {bp}, cover', base, p, bp);
      nodes', cover' := nodes' - {bp}, Relabel(cover', bp, p);
    }
    JoinedElsewhere(mem, p, bp);
    assert IsBlock(nodes, alloc, base, bp);
    HeapBlock(mem, nodes, alloc, cover, base, bp);
    RingNode(mem, nodes, base, p);
    WritesFree(mem, nodes, alloc, cover, base, p, bp, FreeMem(mem, p, bp), cover');
  }

  lemma JoinedElsewhere(mem: Memory, p: int, bp: int)
    requires p in mem && bp in mem && p < bp && mem[p].ptr in mem
    ensures forall u :: u in mem && u != p && u != bp ==> u in FreeMem(mem, p, bp) && FreeMem(mem, p, bp)[u] == mem[u]
  {
  }

  /** A block that fits exactly leaves the ring. */
  lemma TakeWhole(mem: Memory, nodes: set<int>, alloc: set<int>, cover: map<int, int>, base: int, prev: int, p: int)
    requires HeapOk(mem, nodes, alloc, cover, base) && prev in nodes && prev in mem && p in nodes && p in mem &&
             mem[prev].ptr == p && mem[p].size >= 1
    ensures var mem' := mem[prev := Header(mem[p].ptr, mem[prev].size)];
            prev in nodes - {p} && p !in alloc && mem'[p].size == mem[p].size &&
            HeapOk(mem', nodes - {p}, alloc + {p}, cover, base) && Untouched(mem, mem', alloc, cover, cover, {})
  {
    hide RingOk, Tiled, Follows, Covers;
    RingBase(mem, nodes, base);
    RingNode(mem, nodes, base, prev);
    RingNode(mem, nodes, base, p);
    assert IsBlock(nodes, alloc, base, p);
    HeapBlock(mem, nodes, alloc, cover, base, p);
    if prev != base { assert IsBlock(nodes, alloc, base, prev); NoOverlap(mem, nodes, alloc, cover, base, prev, p); }
    UnlinkRing(mem, nodes, base, prev, p);
    UnlinkTiled(mem, nodes, alloc, cover, base, prev, p);
    var mem' := mem[prev := Header(mem[p].ptr, mem[prev].size)];
    WritesFree(mem, nodes, alloc, cover, base, prev, p, mem', cover);
  }

  lemma TailIsFree(mem: Memory, nodes: set<int>, alloc: set<int>, cover: map<int, int>, base: int, p: int, u: int)
    requires Tiled(mem, nodes, alloc, cover, base) && p in nodes && p != base && p in mem && u in cover &&
             cover[u] in alloc
    ensures !(p <= u < p + mem[p].size)
  {
    assert IsBlock(nodes, alloc, base, p);
    assert Covers(cover, p, mem[p].size);
  }

  /** A larger block gives up its tail. */
  lemma TakeTail(mem: Memory, nodes: set<int>, alloc: set<int>, cover: map<int, int>, base: int, p: int, n: nat)
    requires HeapOk(mem, nodes, alloc, cover, base) && p in nodes && p in mem && 1 <= n < mem[p].size
    ensures var q := p + mem[p].size - n;
            q in mem && q !in alloc && HeapOk(Cut(mem, p, n), nodes, alloc + {q}, CutCover(cover, q, n), base) &&
            Cut(mem, p, n)[q].size == n && Untouched(mem, Cut(mem, p, n), alloc, cover, CutCover(cover, q, n), {})
  {
    hide RingOk, Tiled, Follows, Covers, CutCover;
    var q := p + mem[p].size - n;
    RingBase(mem, nodes, base);
    assert IsBlock(nodes, alloc, base, p);
    HeapBlock(mem, nodes, alloc, cover, base, p);
    CutFresh(mem, nodes, alloc, cover, base, p, q);
    CutRing(mem, nodes, base, p, n, q);
    CutTiled(mem, nodes, alloc, cover, base, p, n, q);
    CutApart(mem, nodes, alloc, cover, base, p, n);
    forall u | u in cover && cover[u] in alloc ensures !(q <= u < q + n) {
      TailIsFree(mem, nodes, alloc, cover, base, p, u);
    }
    WritesFree(mem, nodes, alloc, cover, base, p, q, Cut(mem, p, n), CutCover(cover, q, n));
  }

  /** Fresh memory from sbrk, taken as one allocated block. */
  function Fresh(mem: Memory, r: int, n: nat): Memory {
    map u | u in mem.Keys + Range(r, n) :: if u == r then Header(0, n)
      else if r < u < r + n then Header(0, 0) else mem[u]
  }

  function FreshCover(cover: map<int, int>, r: int, n: nat): map<int, int> {
    map u | u in cover.Keys + Range(r, n) :: if r <= u < r + n then r else cover[u]
  }

  function Range(r: int, n: nat): (s: set<int>)
    ensures forall u :: u in s <==> r <= u < r + n
  {
    if n == 0 then {} else Range(r, n - 1) + {r + n - 1}
  }

  lemma FreshTiled(mem: Memory, nodes: set<int>, alloc: set<int>, cover: map<int, int>, base: int, r: int, n: nat)
    requires Tiled(mem, nodes, alloc, cover, base) && n >= 1 && base < r && r !in nodes &&
             forall u :: u in mem ==> u < r
    ensures Tiled(Fresh(mem, r, n), nodes, alloc + {r}, FreshCover(cover, r, n), base)
  {
    hide Range, Covers, InBlock, FreshCover;
    var mem', alloc', cover' := Fresh(mem, r, n), alloc + {r}, FreshCover(cover, r, n);
    forall u | u in cover ensures u in mem { InMemory(mem, nodes, alloc, cover, base, u); }
    FreshCovers(cover, r, n, r, 0);
    forall a | IsBlock(nodes, alloc', base, a)
      ensures a in mem' && mem'[a].size >= 1 && Covers(cover', a, mem'[a].size)
    {
      if a != r {
        assert IsBlock(nodes, alloc, base, a);
        FreshCovers(cover, r, n, a, mem[a].size);
      }
    }
    forall u | u in cover' ensures InBlock(mem', nodes, alloc', cover', base, u) {
      FreshIn(mem, nodes, alloc, cover, base, r, n, u);
    }
  }

  lemma FreshCovers(cover: map<int, int>, r: int, n: nat, a: int, m: nat)
    requires (m == 0 || Covers(cover, a, m)) && forall u :: u in cover ==> u < r
    ensures Covers(FreshCover(cover, r, n), r, n) && Covers(FreshCover(cover, r, n), a, m)
    ensures forall u :: u in FreshCover(cover, r, n) ==> u in cover || r <= u < r + n
  {
    hide Range;
  }

  lemma FreshIn(mem: Memory, nodes: set<int>, alloc: set<int>, cover: map<int, int>, base: int, r: int, n: nat, u: int)
    requires base < r && (forall v :: v in mem ==> v < r) && u in FreshCover(cover, r, n)
    requires u in cover ==> InBlock(mem, nodes, alloc, cover, base, u)
    ensures InBlock(Fresh(mem, r, n), nodes, alloc + {r}, FreshCover(cover, r, n), base, u)
  {
    hide Range;
  }

  lemma FreshOk(mem: Memory, nodes: set<int>, alloc: set<int>, cover: map<int, int>, base: int, r: int, n: nat)
    requires HeapOk(mem, nodes, alloc, cover, base) && n >= 1 && forall u :: u in mem ==> u < r
    ensures r !in nodes && r !in alloc && HeapOk(Fresh(mem, r, n), nodes, alloc + {r}, FreshCover(cover, r, n), base)
    ensures r in Fresh(mem, r, n) && Fresh(mem, r, n)[r].size == n &&
            Untouched(mem, Fresh(mem, r, n), alloc, cover, FreshCover(cover, r, n), {}) && base < r
    ensures FreshCover(cover, r, n).Keys == cover.Keys + Range(r, n)
  {
    hide Follows, Tiled, Range;
    RingBase(mem, nodes, base);
    if IsBlock(nodes, alloc, base, r) { HeapBlock(mem, nodes, alloc, cover, base, r); }
    FreshTiled(mem, nodes, alloc, cover, base, r, n);
    forall u | u in cover ensures u in mem { InMemory(mem, nodes, alloc, cover, base, u); }
  }

  lemma InMemory(mem: Memory, nodes: set<int>, alloc: set<int>, cover: map<int, int>, base: int, u: int)
    requires Tiled(mem, nodes, alloc, cover, base) && u in cover
    ensures u in mem
  {
    assert InBlock(mem, nodes, alloc, cover, base, u);
  }

  lemma UntouchedInit(m0: Memory, m1: Memory, nodes: set<int>, alloc: set<int>, cover: map<int, int>, base: int,
                      first: bool)
    requires HeapOk(m1, nodes, alloc, cover, base) &&
             if first then Untouched(m0, m1, alloc, cover, cover, {}) else m0 == m1
    ensures Untouched(m0, m1, alloc, cover, cover, {})
  {
    UntouchedSame(m1, nodes, alloc, cover, base);
  }

  lemma HeapNode(mem: Memory, nodes: set<int>, alloc: set<int>, cover: map<int, int>, base: int, a: int)
    requires HeapOk(mem, nodes, alloc, cover, base) && a in nodes
    ensures base <= a && a in mem && Follows(nodes, base, a, mem[a].ptr) && mem[a].ptr in nodes && mem[a].ptr in mem
    ensures forall b :: b in nodes ==> base <= b
  {
    RingNode(mem, nodes, base, a);
    RingBase(mem, nodes, base);
  }

  lemma AheadAll(nodes: set<int>, base: int, f: int, p: int)
    requires Follows(nodes, base, f, p) && f in nodes && forall b :: b in nodes ==> base <= b
    ensures forall b :: b in nodes ==> b == p || b in Ahead(nodes, p, f)
  {
  }

  lemma AheadNone(nodes: set<int>, p: int)
    ensures Ahead(nodes, p, p) == {}
  {
  }

  lemma AheadNext(nodes: set<int>, base: int, p: int, n: int, k: int)
    requires Follows(nodes, base, p, n) && p in nodes && k in nodes && p != k && forall b :: b in nodes ==> base <= b
    ensures Ahead(nodes, n, k) < Ahead(nodes, p, k) == Ahead(nodes, n, k) + {n}
  {
    AheadShrinks(nodes, base, p, n, k);
  }

  lemma NearIs(mem: Memory, f: int, bp: int, n: nat)
    requires Nearby(mem, f, bp, n)
    ensures f in mem && (mem[f].size >= n || (mem[f].ptr == bp && bp in mem && mem[bp].size >= n))
  {
  }

  /** No node has room for `n` units. */
  ghost predicate TooSmall(mem: Memory, nodes: set<int>, n: nat) {
    forall a :: a in nodes ==> a in mem && mem[a].size < n
  }

  /** What morecore asks sbrk for. */
  function AtLeast(nu: nat): (n: nat)
    ensures n >= nu && n >= 1
  {
    if nu < CHUNK then CHUNK else nu
  }

  lemma UntouchedSame(mem: Memory, nodes: set<int>, alloc: set<int>, cover: map<int, int>, base: int)
    requires HeapOk(mem, nodes, alloc, cover, base)
    ensures Untouched(mem, mem, alloc, cover, cover, {})
  {
    hide RingOk, Apart;
    forall u | u in cover ensures u in mem { InMemory(mem, nodes, alloc, cover, base, u); }
  }

  /** A block of at least `n` units, the freed one or what it was joined to, is at node `f` or
      just after it. */
  ghost predicate Nearby(mem: Memory, f: int, bp: int, n: nat) {
    f in mem && (mem[f].size >= n || (mem[f].ptr == bp && bp in mem && mem[bp].size >= n))
  }

  lemma FoundNear(mem: Memory, p: int, bp: int)
    requires p in mem && bp in mem && p < bp && mem[p].ptr in mem
    ensures Nearby(FreeMem(mem, p, bp), p, bp, mem[bp].size)
  {
  }

  lemma HeapParts(mem: Memory, nodes: set<int>, alloc: set<int>, cover: map<int, int>, base: int)
    requires HeapOk(mem, nodes, alloc, cover, base)
    ensures RingOk(mem, nodes, base) && Apart(mem, nodes, {}) && Tiled(mem, nodes, alloc, cover, base)
  {
  }

  lemma CoverIn(mem: Memory, nodes: set<int>, alloc: set<int>, cover: map<int, int>, base: int)
    requires HeapOk(mem, nodes, alloc, cover, base)
    ensures forall u :: u in cover ==> u in mem
  {
    hide RingOk, Apart;
    forall u | u in cover ensures u in mem { assert InBlock(mem, nodes, alloc, cover, base, u); }
  }

  /** A unit inside a block is not the start of one. */
  lemma NoHeader(mem: Memory, nodes: set<int>, alloc: set<int>, cover: map<int, int>, base: int, a: int, u: int)
    requires HeapOk(mem, nodes, alloc, cover, base) && a in alloc && a in mem && a < u < a + mem[a].size
    ensures u in mem && u in cover && cover[u] == a && u != base && !IsBlock(nodes, alloc, base, u)
  {
    hide RingOk, Apart;
    assert Covers(cover, a, mem[a].size);
    assert InBlock(mem, nodes, alloc, cover, base, u);
  }

  lemma TiledWrite(mem: Memory, nodes: set<int>, alloc: set<int>, cover: map<int, int>, base: int, u: int, x: Header)
    requires Tiled(mem, nodes, alloc, cover, base) && !IsBlock(nodes, alloc, base, u) && u in mem
    ensures Tiled(mem[u := x], nodes, alloc, cover, base)
  {
    var mem' := mem[u := x];
    forall v | v in cover ensures InBlock(mem', nodes, alloc, cover, base, v) {
      assert InBlock(mem, nodes, alloc, cover, base, v);
    }
  }

  lemma RingWrite(mem: Memory, nodes: set<int>, base: int, u: int, x: Header)
    requires RingOk(mem, nodes, base) && Apart(mem, nodes, {}) && u !in nodes
    ensures RingOk(mem[u := x], nodes, base) && Apart(mem[u := x], nodes, {})
  {
    hide Follows;
  }

  /** Writing inside an allocated block, after its header, disturbs no header. */
  lemma WriteOk(mem: Memory, nodes: set<int>, alloc: set<int>, cover: map<int, int>, base: int, a: int, u: int,
                x: Header)
    requires HeapOk(mem, nodes, alloc, cover, base) && a in alloc && a in mem && a < u < a + mem[a].size
    ensures HeapOk(mem[u := x], nodes, alloc, cover, base) && u in cover && cover[u] == a
  {
    hide Tiled, RingOk, Apart;
    NoHeader(mem, nodes, alloc, cover, base, a, u);
    TiledWrite(mem, nodes, alloc, cover, base, u, x);
    RingWrite(mem, nodes, base, u, x);
  }

  class Heap {
    var mem: Memory
    var freep: int
    const base: int
    /** How often sbrk was called. */
    var calls: nat
    ghost var nodes: set<int>
    ghost var alloc: set<int>
    ghost var cover: map<int, int>

    /** The list is set up by the first allocation. */
    ghost predicate Valid()
      reads this
    {
      base > NULL && (freep == NULL ==> alloc == {} && cover == map[] && mem.Keys == {base}) &&
      (freep != NULL ==> freep in nodes && HeapOk(mem, nodes, alloc, cover, base))
    }

    constructor (base: int)
      requires base > NULL
      ensures Valid() && alloc == {} && cover == map[] && calls == 0 && freep == NULL
    {
      this.base, mem, freep, calls := base, map[base := Header(0, 0)], NULL, 0;
      nodes, alloc, cover := {}, {}, map[];
    }

    /** Returns a block to the list; the search for its place ends. */
    method Free(ap: int)
      requires Valid() && ap - 1 in alloc
      modifies this`mem, this`freep, this`nodes, this`alloc, this`cover
      ensures Valid() && freep != NULL && alloc == old(alloc) - {ap - 1} && cover.Keys == old(cover).Keys &&
              mem.Keys == old(mem).Keys
      ensures Untouched(old(mem), mem, old(alloc), old(cover), cover, {ap - 1})
      ensures ap - 1 in old(mem) && Nearby(mem, freep, ap - 1, old(mem)[ap - 1].size)
    {
      hide HeapOk, RingOk, Follows, Untouched, FreeMem;
      var bp := ap - 1;
      var p := Search(bp);
      ghost var nodes', cover' := FreeOk(mem, nodes, alloc, cover, base, p, bp);
      FoundNear(mem, p, bp);
      Splice(p, bp);
      freep := p;
      nodes, alloc, cover := nodes', alloc - {bp}, cover';
    }

    /** The node after which `bp` goes. */
    method Search(bp: int) returns (p: int)
      requires Valid() && bp in alloc
      ensures freep != NULL && Place(mem, nodes, base, p, bp)
    {
      hide HeapOk, RingOk, Follows;
      HeapParts(mem, nodes, alloc, cover, base);
      assert IsBlock(nodes, alloc, base, bp);
      HeapBlock(mem, nodes, alloc, cover, base, bp);
      RingBase(mem, nodes, base);
      ghost var k := Before(nodes, base, bp);
      p := freep;
      RingNode(mem, nodes, base, p);
      while !(bp > p && bp < mem[p].ptr)
        invariant p in nodes && p in mem && Follows(nodes, base, p, mem[p].ptr)
        decreases Ahead(nodes, p, k)
      {
        SearchStops(nodes, base, p, mem[p].ptr, bp, k);
        if p >= mem[p].ptr && (bp > p || bp < mem[p].ptr) {
          break;
        }
        AheadShrinks(nodes, base, p, mem[p].ptr, k);
        RingNode(mem, nodes, base, p);
        p := mem[p].ptr;
        RingNode(mem, nodes, base, p);
      }
      SearchStops(nodes, base, p, mem[p].ptr, bp, k);
    }

    method Splice(p: int, bp: int)
      requires p in mem && bp in mem && p < bp && mem[p].ptr in mem && mem[p].ptr != bp
      modifies this`mem
      ensures mem == FreeMem(old(mem), p, bp) && mem.Keys == old(mem).Keys
    {
      var next := mem[p].ptr;
      if bp + mem[bp].size == next {
        mem := mem[bp := Header(mem[next].ptr, mem[bp].size + mem[next].size)];
      } else {
        mem := mem[bp := Header(next, mem[bp].size)];
      }
      if p + mem[p].size == bp {
        mem := mem[p := Header(mem[bp].ptr, mem[p].size + mem[bp].size)];
      } else {
        mem := mem[p := Header(bp, mem[p].size)];
      }
    }

    /** Gets memory from sbrk, which returns address `room`, or fails if that is negative, and
        frees it into the list. */
    method Morecore(nu: nat, room: int) returns (f: int)
      requires Valid() && freep != NULL && nu >= 1 && (room < 0 || forall u :: u in mem ==> u < room)
      modifies this
      ensures Valid() && freep != NULL && calls == old(calls) + 1 && alloc == old(alloc)
      ensures f == NULL <==> room < 0
      ensures f == NULL ==> freep == old(freep) && mem == old(mem) && cover == old(cover) && nodes == old(nodes)
      ensures f != NULL ==>
                f == freep && cover.Keys == old(cover).Keys + Range(room, AtLeast(nu)) && Nearby(mem, freep, room, nu)
      ensures Untouched(old(mem), mem, old(alloc), old(cover), cover, {})
    {
      hide HeapOk, FreeMem, Fresh, FreshCover, Untouched;
      var n := AtLeast(nu);
      calls := calls + 1;
      UntouchedSame(mem, nodes, alloc, cover, base);
      if room < 0 { return NULL; }
      FreshOk(mem, nodes, alloc, cover, base, room, n);
      mem := Fresh(mem, room, n);
      alloc, cover := alloc + {room}, FreshCover(cover, room, n);
      ghost var m1, c1 := mem, cover;
      Free(room + 1);
      UntouchedTrans(old(mem), m1, mem, old(alloc), old(alloc) + {room}, old(cover), c1, cover, {room});
      assert alloc == old(alloc);
      f := freep;
    }

    /** The first allocation links the anchor to itself. */
    method Init()
      requires Valid()
      modifies this`mem, this`freep, this`nodes
      ensures Valid() && freep != NULL && mem.Keys == old(mem).Keys
      ensures old(freep) != NULL ==> freep == old(freep) && mem == old(mem) && nodes == old(nodes)
      ensures old(freep) == NULL ==> nodes == {base} && Untouched(old(mem), mem, alloc, cover, cover, {})
      ensures old(freep) == NULL ==> base in mem && mem[base].size == 0
    {
      if freep == NULL {
        mem := mem[base := Header(base, 0)];
        freep := base;
        nodes := {base};
      }
    }

    /** Takes `n` units from block `p`, which follows `prevp`. */
    method Carve(prevp: int, p: int, n: nat) returns (r: int)
      requires freep != NULL && Valid() && prevp in nodes && p in nodes && prevp in mem && mem[prevp].ptr == p &&
               p in mem && 1 <= n <= mem[p].size
      modifies this`mem, this`freep, this`nodes, this`alloc, this`cover
      ensures Valid() && freep == prevp && r - 1 !in old(alloc) && alloc == old(alloc) + {r - 1} && r - 1 in mem &&
              mem[r - 1].size == n
      ensures r > NULL && cover.Keys == old(cover).Keys && mem.Keys == old(mem).Keys &&
              Untouched(old(mem), mem, old(alloc), old(cover), cover, {})
    {
      hide HeapOk, Untouched, CutCover, RingOk, Tiled, Follows;
      HeapParts(mem, nodes, alloc, cover, base);
      RingBase(mem, nodes, base);
      assert IsBlock(nodes, alloc, base, p);
      HeapBlock(mem, nodes, alloc, cover, base, p);
      var b := p;
      if mem[p].size == n {
        TakeWhole(mem, nodes, alloc, cover, base, prevp, p);
        mem := mem[prevp := Header(mem[p].ptr, mem[prevp].size)];
        nodes := nodes - {p};
      } else {
        TakeTail(mem, nodes, alloc, cover, base, p, n);
        mem := mem[p := Header(mem[p].ptr, mem[p].size - n)];
        b := p + mem[p].size;
        mem := mem[b := Header(mem[b].ptr, n)];
        cover := CutCover(cover, b, n);
      }
      alloc := alloc + {b};
      freep := prevp;
      r := b + 1;
    }

    /** The loop over the list, which is set up. */
    method Seek(n: nat, room: int) returns (r: int, cut: bool)
      requires Valid() && freep != NULL && n >= 1 && (room < 0 || forall u :: u in mem ==> u < room)
      modifies this
      ensures cut <==> AtLeast(n) * UNIT > INT_MAX && TooSmall(old(mem), old(nodes), n)
      ensures cut ==> r == NULL && calls == old(calls) && alloc == old(alloc) && cover == old(cover)
      ensures Valid() && calls <= old(calls) + 1 && Untouched(old(mem), mem, old(alloc), old(cover), cover, {})
      ensures calls > old(calls) ==> TooSmall(old(mem), old(nodes), n)
      ensures r == NULL && !cut ==> room < 0 && calls > old(calls) && alloc == old(alloc) && cover == old(cover)
      ensures r != NULL ==>
                r - 1 !in old(alloc) && alloc == old(alloc) + {r - 1} && r - 1 in mem && mem[r - 1].size == n
      ensures r != NULL ==>
                cover.Keys == old(cover).Keys + (if calls > old(calls) then Range(room, AtLeast(n)) else {})
    {
      hide HeapOk, Untouched, Ahead, Follows, Nearby, Range, AtLeast;
      cut := false;
      UntouchedSame(mem, nodes, alloc, cover, base);
      var prevp := freep;
      HeapNode(mem, nodes, alloc, cover, base, prevp);
      var p := mem[prevp].ptr;
      AheadAll(nodes, base, prevp, p);
      ghost var grown := false;
      while true
        invariant Valid() && freep != NULL && prevp in nodes && prevp in mem && mem[prevp].ptr == p && p in nodes &&
                  p in mem
        invariant alloc == old(alloc) && Untouched(old(mem), mem, old(alloc), old(cover), cover, {})
        invariant calls == old(calls) + (if grown then 1 else 0) && !cut && (grown ==> AtLeast(n) * UNIT <= INT_MAX)
        invariant !grown ==> mem == old(mem) && nodes == old(nodes) && cover == old(cover)
        invariant !grown ==>
                    forall a :: a in nodes ==> a == p || a in Ahead(nodes, p, freep) || (a in mem && mem[a].size < n)
        invariant grown ==>
                    cover.Keys == old(cover).Keys + Range(room, AtLeast(n)) && freep in mem &&
                    (mem[freep].size >= n || mem[p].size >= n)
        invariant grown ==> TooSmall(old(mem), old(nodes), n)
        decreases if grown then 0 else 1, Ahead(nodes, p, freep)
      {
        HeapNode(mem, nodes, alloc, cover, base, p);
        HeapNode(mem, nodes, alloc, cover, base, freep);
        if mem[p].size >= n {
          ghost var m1, c1 := mem, cover;
          r := Carve(prevp, p, n);
          UntouchedTrans(old(mem), m1, mem, old(alloc), old(alloc), old(cover), c1, cover, {});
          return;
        }
        if p == freep {
          AheadNone(nodes, p);
          SbrkExact(AtLeast(n));
          if SbrkArg(AtLeast(n)) != AtLeast(n) * UNIT { return NULL, true; }
          ghost var m1, c1 := mem, cover;
          p := Morecore(n, room);
          grown := true;
          UntouchedTrans(old(mem), m1, mem, old(alloc), old(alloc), old(cover), c1, cover, {});
          if p == NULL { return NULL, cut; }
          HeapNode(mem, nodes, alloc, cover, base, p);
          NearIs(mem, p, room, n);
          prevp := p;
          p := mem[p].ptr;
        } else {
          AheadNext(nodes, base, p, mem[p].ptr, freep);
          prevp := p;
          p := mem[p].ptr;
        }
      }
    }

    /** Allocates `nbytes`: a block that no one else has, of as many units as asked. sbrk, which
        returns `room` or fails if that is negative, is called at most once, and only when no free
        block is large enough; without it the list is searched at most once around. `cut` tells
        that sbrk would have to be asked for more than its argument holds: the model stops there,
        where the source asks for something else. */
    method Malloc(nbytes: nat, room: int) returns (r: int, cut: bool)
      requires Valid() && nbytes < UINT32 && (room < 0 || forall u :: u in mem ==> u < room)
      modifies this
      ensures cut <==> AtLeast(Units(nbytes)) * UNIT > INT_MAX &&
                         (old(freep) == NULL || TooSmall(old(mem), old(nodes), Units(nbytes)))
      ensures cut ==> r == NULL && calls == old(calls) && alloc == old(alloc) && cover == old(cover)
      ensures Valid() && calls <= old(calls) + 1 && Untouched(old(mem), mem, old(alloc), old(cover), cover, {})
      ensures calls > old(calls) && old(freep) != NULL ==> TooSmall(old(mem), old(nodes), Units(nbytes))
      ensures r == NULL && !cut ==> room < 0 && calls > old(calls) && alloc == old(alloc) && cover == old(cover)
      ensures r != NULL ==>
                r - 1 !in old(alloc) && alloc == old(alloc) + {r - 1} && r - 1 in mem &&
                mem[r - 1].size == Units(nbytes)
      ensures r != NULL ==>
                cover.Keys == old(cover).Keys + (if calls > old(calls) then Range(room, AtLeast(Units(nbytes))) else {})
    {
      hide HeapOk, Untouched, Range, AtLeast;
      Init();
      UntouchedInit(old(mem), mem, nodes, alloc, cover, base, old(freep) == NULL);
      ghost var m1, c1 := mem, cover;
      r, cut := Seek(Units(nbytes), room);
      UntouchedTrans(old(mem), m1, mem, old(alloc), old(alloc), old(cover), c1, cover, {});
    }

    /** The program writes to unit `k` of a block it has. */
    method Write(ap: int, k: nat, x: Header)
      requires Valid() && ap - 1 in alloc && ap - 1 in mem && k + 1 < mem[ap - 1].size
      modifies this`mem
      ensures Valid() && mem == old(mem)[ap + k := x] && Untouched(old(mem), mem, alloc, cover, cover, {ap - 1})
    {
      hide HeapOk;
      WriteOk(mem, nodes, alloc, cover, base, ap - 1, ap + k, x);
      CoverIn(mem, nodes, alloc, cover, base);
      mem := mem[ap + k := x];
    }
  }
}
