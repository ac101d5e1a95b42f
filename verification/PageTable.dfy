/** What a page table in physical memory means: a three-level radix tree of table pages
    that stands for a finite map from page number to page-table entry. */
module PageTable {
  import opened Sv39
  import opened MachineWords

  /** A physical page, seen the way its current owner uses it: 512 entries, 4096 bytes, or
      a link of the allocator's free list (the word at its start). */
  datatype Page = Table(e: seq<nat>) | Data(b: seq<Byte>) | Run(next: nat)

  type Mem = map<nat, Page>

  /** The place of a table page in the tree. `Mid(i)` covers the pages v with
      v / 262144 == i and `Bot(k)` those with v / 512 == k. */
  datatype Pos = Root | Mid(i: nat) | Bot(k: nat)

  /** What a table in memory stands for: which frame sits at which place of the tree (and
      the inverse), and the finite map from page number to valid entry. */
  datatype Shape = Shape(node: map<Pos, nat>, pos: map<nat, Pos>, view: map<nat, nat>)

  ghost function Nodes(t: Shape): set<nat> { t.pos.Keys }

  ghost function Child(p: Pos, i: nat): Pos
    requires !p.Bot?
  {
    if p.Root? then Mid(i) else Bot(p.i * 512 + i)
  }

  ghost predicate ShapeOk(t: Shape) {
    && Root in t.node
    && (forall p :: p in t.node ==> t.node[p] in t.pos && t.pos[t.node[p]] == p && t.node[p] != 0)
    && (forall f :: f in t.pos ==> t.pos[f] in t.node && t.node[t.pos[f]] == f)
    && (forall p :: p in t.node && p.Mid? ==> p.i < 256)
    && (forall p :: p in t.node && p.Bot? ==> Mid(p.k / 512) in t.node)
  }

  ghost predicate EntryOk(t: Shape, p: Pos, i: nat, w: nat) {
    if p.Bot? then PteValid(w) ==> PteLeaf(w)
    else if Child(p, i) in t.node then w == MakePte(t.node[Child(p, i)], 0)
    else w == 0
  }

  ghost predicate NodeOk(mem: Mem, t: Shape, p: Pos)
    requires p in t.node
  {
    var f := t.node[p];
    && f in mem && mem[f].Table? && |mem[f].e| == 512
    && forall i :: 0 <= i < 512 ==> EntryOk(t, p, i, mem[f].e[i])
  }

  ghost predicate NodesOk(mem: Mem, t: Shape) {
    && ShapeOk(t)
    && forall p :: p in t.node ==> NodeOk(mem, t, p)
  }

  /** The entry for page `v`, 0 when the tree has no bottom table for it. */
  ghost function Entry(mem: Mem, t: Shape, v: nat): nat
    requires NodesOk(mem, t)
  {
    if Bot(v / 512) in t.node then
      assert NodeOk(mem, t, Bot(v / 512));
      mem[t.node[Bot(v / 512)]].e[v % 512]
    else 0
  }

  /** Memory holds a well-formed table that stands for `t`. */
  ghost predicate Wf(mem: Mem, t: Shape) {
    && NodesOk(mem, t)
    && (forall v :: v in t.view ==> v < NVPN && PteValid(t.view[v]) && Entry(mem, t, v) == t.view[v])
    && (forall v: nat :: v < NVPN && PteValid(Entry(mem, t, v)) ==> v in t.view)
  }

  datatype Translation = Fault | Hit(pte: nat)

  /** The hardware's address translation, reading nothing but memory. */
  function Translate(mem: Mem, table: nat, level: nat, va: nat): Translation
    requires level < 3
    decreases level
  {
    if table !in mem || !mem[table].Table? || |mem[table].e| != 512 then Fault
    else
      var pte := mem[table].e[Px(level, va)];
      if !PteValid(pte) then Fault
      else if level == 0 then Hit(pte)
      else if PteLeaf(pte) then Fault
      else Translate(mem, PteFrame(pte), level - 1, va)
  }

  lemma TranslateFrom(mem: Mem, t: Shape, level: nat, va: nat)
    requires Wf(mem, t) && level < 3 && va < MAXVA && PosAt(level, va) in t.node
    ensures Translate(mem, t.node[PosAt(level, va)], level, va) ==
            if va / PGSIZE in t.view then Hit(t.view[va / PGSIZE]) else Fault
    decreases level
  {
    var p, i, v := PosAt(level, va), Px(level, va), va / PGSIZE;
    assert NodeOk(mem, t, p);
    if level == 0 {
      assert Entry(mem, t, v) == mem[t.node[p]].e[i];
    } else {
      PosAtStep(level, va);
      assert EntryOk(t, p, i, mem[t.node[p]].e[i]);
      if Child(p, i) in t.node {
        PteRoundTrip(t.node[Child(p, i)], 0);
        TranslateFrom(mem, t, level - 1, va);
      } else {
        assert Bot(v / 512) !in t.node;
        assert Entry(mem, t, v) == 0;
      }
    }
  }

  /** The map a table stands for is exactly what the hardware finds in it, page by page. */
  lemma ViewIsTranslation(mem: Mem, t: Shape, va: nat)
    requires Wf(mem, t) && va < MAXVA
    ensures Translate(mem, t.node[Root], 2, va) ==
            if va / PGSIZE in t.view then Hit(t.view[va / PGSIZE]) else Fault
  {
    TranslateFrom(mem, t, 2, va);
  }

  /** A table reads only its own nodes. */
  lemma WfFrame(mem: Mem, mem': Mem, t: Shape)
    requires Wf(mem, t)
    requires forall f :: f in Nodes(t) ==> f in mem' && mem'[f] == mem[f]
    ensures Wf(mem', t)
  {
    forall p | p in t.node ensures NodeOk(mem', t, p) {
      assert NodeOk(mem, t, p);
      assert t.node[p] in Nodes(t);
    }
    forall v: nat ensures Entry(mem', t, v) == Entry(mem, t, v) {
      if Bot(v / 512) in t.node {
        assert t.node[Bot(v / 512)] in Nodes(t);
      }
    }
  }

  ghost function ZeroTable(): Page { Table(seq(512, _ => 0)) }

  ghost function AddNode(t: Shape, q: Pos, f: nat): Shape {
    Shape(t.node[q := f], t.pos[f := q], t.view)
  }

  ghost function LinkNode(mem: Mem, t: Shape, p: Pos, i: nat, f: nat): Mem
    requires Wf(mem, t) && p in t.node && i < 512
  {
    assert NodeOk(mem, t, p);
    mem[f := ZeroTable()][t.node[p] := Table(mem[t.node[p]].e[i := MakePte(f, 0)])]
  }

  lemma AddNodeShape(t: Shape, p: Pos, i: nat, f: nat)
    requires ShapeOk(t) && p in t.node && !p.Bot? && i < 512
    requires Child(p, i) !in t.node && f !in t.pos && f != 0
    requires p.Root? ==> i < 256
    ensures ShapeOk(AddNode(t, Child(p, i), f))
  {
    var q := Child(p, i);
    var t' := AddNode(t, q, f);
    assert q.Bot? ==> q.k / 512 == p.i;
    forall g | g in t'.pos ensures t'.pos[g] in t'.node && t'.node[t'.pos[g]] == g {
      if g != f {
        assert t.pos[g] in t.node;
      }
    }
  }

  /** Growing the tree by one zeroed table page changes no binding. */
  lemma LinkNodeOk(mem: Mem, t: Shape, p: Pos, i: nat, f: nat)
    requires Wf(mem, t) && p in t.node && !p.Bot? && i < 512
    requires Child(p, i) !in t.node && f !in t.pos && f != 0
    requires p.Root? ==> i < 256
    ensures Wf(LinkNode(mem, t, p, i, f), AddNode(t, Child(p, i), f))
  {
    var q := Child(p, i);
    var t', mem' := AddNode(t, q, f), LinkNode(mem, t, p, i, f);
    AddNodeShape(t, p, i, f);
    forall r | r in t'.node ensures NodeOk(mem', t', r) {
      LinkNodeAt(mem, t, p, i, f, r);
    }
    forall v: nat ensures Entry(mem', t', v) == Entry(mem, t, v) {
      LinkNodeEntry(mem, t, p, i, f, v);
    }
  }

  lemma LinkNodeAt(mem: Mem, t: Shape, p: Pos, i: nat, f: nat, r: Pos)
    requires Wf(mem, t) && p in t.node && !p.Bot? && i < 512
    requires Child(p, i) !in t.node && f !in t.pos && f != 0
    requires r in AddNode(t, Child(p, i), f).node
    requires p.Root? ==> i < 256
    ensures NodeOk(LinkNode(mem, t, p, i, f), AddNode(t, Child(p, i), f), r)
  {
    var q := Child(p, i);
    var t', mem' := AddNode(t, q, f), LinkNode(mem, t, p, i, f);
    if r == q {
      forall j | 0 <= j < 512 ensures EntryOk(t', r, j, mem'[t'.node[r]].e[j]) {
        if r.Mid? {
          assert (r.i * 512 + j) / 512 == r.i;
          assert Child(r, j) !in t.node;
        }
      }
    } else {
      assert NodeOk(mem, t, r);
      forall j | 0 <= j < 512 ensures EntryOk(t', r, j, mem'[t'.node[r]].e[j]) {
        assert EntryOk(t, r, j, mem[t.node[r]].e[j]);
        if !r.Bot? && Child(r, j) == q {
          ChildInjective(r, j, p, i);
        }
      }
    }
  }

  lemma ChildInjective(p: Pos, i: nat, q: Pos, j: nat)
    requires !p.Bot? && !q.Bot? && i < 512 && j < 512
    requires Child(p, i) == Child(q, j)
    ensures p == q && i == j
  {
  }

  lemma LinkNodeEntry(mem: Mem, t: Shape, p: Pos, i: nat, f: nat, v: nat)
    requires Wf(mem, t) && p in t.node && !p.Bot? && i < 512
    requires Child(p, i) !in t.node && f !in t.pos && f != 0
    requires NodesOk(LinkNode(mem, t, p, i, f), AddNode(t, Child(p, i), f))
    ensures Entry(LinkNode(mem, t, p, i, f), AddNode(t, Child(p, i), f), v) == Entry(mem, t, v)
  {
    var b := Bot(v / 512);
    if b in t.node {
      assert NodeOk(mem, t, b);
      assert t.node[b] != t.node[p];
    }
  }

  ghost function SetEntry(mem: Mem, t: Shape, v: nat, w: nat): Mem
    requires Wf(mem, t) && Bot(v / 512) in t.node
  {
    assert NodeOk(mem, t, Bot(v / 512));
    var f := t.node[Bot(v / 512)];
    mem[f := Table(mem[f].e[v % 512 := w])]
  }

  ghost function Rebind(t: Shape, v: nat, w: nat): Shape {
    t.(view := if PteValid(w) then t.view[v := w] else t.view - {v})
  }

  /** Writing one bottom-level entry changes exactly that page's binding. */
  lemma SetEntryNode(mem: Mem, t: Shape, v: nat, w: nat, p: Pos)
    requires Wf(mem, t) && Bot(v / 512) in t.node && v < NVPN && p in t.node
    requires PteValid(w) ==> PteLeaf(w)
    ensures NodeOk(SetEntry(mem, t, v, w), Rebind(t, v, w), p)
  {
    var mem', t' := SetEntry(mem, t, v, w), Rebind(t, v, w);
    assert NodeOk(mem, t, p);
    forall i | 0 <= i < 512 ensures EntryOk(t', p, i, mem'[t.node[p]].e[i]) {
      if p != Bot(v / 512) || i != v % 512 {
        assert EntryOk(t, p, i, mem[t.node[p]].e[i]);
      }
    }
  }

  lemma SetEntryAt(mem: Mem, t: Shape, v: nat, w: nat, u: nat)
    requires Wf(mem, t) && Bot(v / 512) in t.node && v < NVPN && NodesOk(SetEntry(mem, t, v, w), Rebind(t, v, w))
    ensures Entry(SetEntry(mem, t, v, w), Rebind(t, v, w), u) == if u == v then w else Entry(mem, t, u)
  {
    hide EntryOk;
    if Bot(u / 512) in t.node && u / 512 != v / 512 {
      assert t.node[Bot(u / 512)] != t.node[Bot(v / 512)];
    }
  }

  lemma SetEntryOk(mem: Mem, t: Shape, v: nat, w: nat)
    requires Wf(mem, t) && Bot(v / 512) in t.node && v < NVPN
    requires PteValid(w) ==> PteLeaf(w)
    ensures Wf(SetEntry(mem, t, v, w), Rebind(t, v, w))
  {
    hide EntryOk, NodeOk, Entry, SetEntry;
    var mem', t' := SetEntry(mem, t, v, w), Rebind(t, v, w);
    forall p | p in t'.node ensures NodeOk(mem', t', p) { SetEntryNode(mem, t, v, w, p); }
    forall u: nat ensures Entry(mem', t', u) == if u == v then w else Entry(mem, t, u) { SetEntryAt(mem, t, v, w, u); }
  }

  /** The node that covers `va` at a level, as `walk` reaches it. */
  ghost function PosAt(level: nat, va: nat): Pos
    requires level < 3
  {
    if level == 2 then Root
    else if level == 1 then Mid(va / PGSIZE / 262144)
    else Bot(va / PGSIZE / 512)
  }

  lemma PosAtStep(level: nat, va: nat)
    requires 0 < level < 3 && va < MAXVA
    ensures PosAt(level - 1, va) == Child(PosAt(level, va), Px(level, va))
    ensures level == 2 ==> Px(level, va) < 256
  {
    PxRebuilds(va);
  }
}
