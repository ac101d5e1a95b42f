/** A user address space as a value: the user part of a page table's view, the frames it
    owns, and the memory (flags and bytes per page) it presents to the process. */
module Space {
  import opened Sv39
  import opened PageTable
  import opened MachineWords

  datatype UserPage = UserPage(flags: nat, bytes: seq<Byte>)

  /** The frames behind the user pages of a view. */
  ghost function UserFrames(w: map<nat, nat>): set<nat> {
    set v | v in w && v < UTOP :: PteFrame(w[v])
  }

  ghost predicate LeafOk(mem: Mem, nodes: set<nat>, pte: nat) {
    var f := PteFrame(pte);
    f != 0 && f in mem && mem[f].Data? && |mem[f].b| == PGSIZE && f !in nodes && PteLeaf(pte)
  }

  /** Every user page has a private frame holding bytes. */
  ghost predicate LeavesOk(mem: Mem, nodes: set<nat>, w: map<nat, nat>) {
    && (forall v :: v in w && v < UTOP ==> LeafOk(mem, nodes, w[v]))
    && (forall u, v :: u in w && v in w && u < UTOP && v < UTOP && PteFrame(w[u]) == PteFrame(w[v]) ==> u == v)
  }

  ghost predicate SpaceOk(mem: Mem, t: Shape) {
    Wf(mem, t) && LeavesOk(mem, Nodes(t), t.view)
  }

  ghost function Owned(t: Shape): set<nat> {
    Nodes(t) + UserFrames(t.view)
  }

  ghost function PagesOf(mem: Mem, nodes: set<nat>, w: map<nat, nat>): map<nat, UserPage>
    requires LeavesOk(mem, nodes, w)
  {
    map v | v in w && v < UTOP :: assert LeafOk(mem, nodes, w[v]); UserPage(PteFlags(w[v]), mem[PteFrame(w[v])].b)
  }

  /** What user code can see: flags and bytes of each user page. */
  ghost function Contents(mem: Mem, t: Shape): map<nat, UserPage>
    requires SpaceOk(mem, t)
  {
    PagesOf(mem, Nodes(t), t.view)
  }

  /** Memory agrees with `mem` everywhere outside `foot`. */
  ghost predicate Keeps(mem: Mem, mem': Mem, foot: set<nat>) {
    forall f :: f in mem && f !in foot ==> f in mem' && mem'[f] == mem[f]
  }

  /** User pages survive writes that miss their frames. */
  lemma LeavesKept(mem: Mem, mem': Mem, nodes: set<nat>, nodes': set<nat>, w: map<nat, nat>)
    requires LeavesOk(mem, nodes, w) && nodes' !! UserFrames(w)
    requires forall f :: f in UserFrames(w) && f in mem ==> f in mem' && mem'[f] == mem[f]
    ensures LeavesOk(mem', nodes', w) && PagesOf(mem', nodes', w) == PagesOf(mem, nodes, w)
  {
    forall v | v in w && v < UTOP ensures LeafOk(mem', nodes', w[v]) && mem'[PteFrame(w[v])] == mem[PteFrame(w[v])] {
      assert LeafOk(mem, nodes, w[v]);
      assert PteFrame(w[v]) in UserFrames(w);
    }
  }

  lemma NodesInMem(mem: Mem, t: Shape)
    requires Wf(mem, t)
    ensures forall f :: f in Nodes(t) ==> f in mem && mem[f].Table?
  {
    forall f | f in Nodes(t) ensures f in mem && mem[f].Table? {
      assert NodeOk(mem, t, t.pos[f]);
    }
  }

  /** An address space is unaffected by writes outside the frames it owns. */
  lemma SpaceFrame(mem: Mem, mem': Mem, t: Shape, foot: set<nat>)
    requires SpaceOk(mem, t) && Keeps(mem, mem', foot) && Owned(t) !! foot
    ensures SpaceOk(mem', t) && Contents(mem', t) == Contents(mem, t)
  {
    NodesInMem(mem, t);
    forall f | f in Nodes(t) ensures f in mem' && mem'[f] == mem[f] {
      assert f in Owned(t);
    }
    WfFrame(mem, mem', t);
    LeavesDisjoint(mem, Nodes(t), t.view);
    LeavesKept(mem, mem', Nodes(t), Nodes(t), t.view);
  }

  lemma LeavesDisjoint(mem: Mem, nodes: set<nat>, w: map<nat, nat>)
    requires LeavesOk(mem, nodes, w)
    ensures nodes !! UserFrames(w)
    ensures forall f :: f in UserFrames(w) ==> f in mem && mem[f].Data? && f != 0
  {
  }

  /** The tree may grow without disturbing the user pages. */
  lemma SpaceGrow(mem: Mem, mem': Mem, t: Shape, t': Shape)
    requires SpaceOk(mem, t) && Wf(mem', t') && t'.view == t.view
    requires Keeps(mem, mem', Nodes(t')) && Nodes(t') !! UserFrames(t.view)
    ensures SpaceOk(mem', t') && Contents(mem', t') == Contents(mem, t)
  {
    LeavesKept(mem, mem', Nodes(t), Nodes(t'), t.view);
  }

  lemma UserFramesAdd(w: map<nat, nat>, v: nat, pte: nat)
    requires v !in w && v < UTOP
    ensures UserFrames(w[v := pte]) == UserFrames(w) + {PteFrame(pte)}
  {
    var w' := w[v := pte];
    assert w'[v] == pte;
    forall f | f in UserFrames(w) ensures f in UserFrames(w') {
      var u :| u in w && u < UTOP && PteFrame(w[u]) == f;
      assert w'[u] == w[u];
    }
  }

  lemma UserFramesDrop(mem: Mem, nodes: set<nat>, w: map<nat, nat>, v: nat)
    requires LeavesOk(mem, nodes, w) && v in w
    ensures UserFrames(w - {v}) == UserFrames(w) - Backing(w, v)
    ensures Backing(w, v) <= UserFrames(w)
  {
    var w' := w - {v};
    forall f | f in UserFrames(w) - Backing(w, v) ensures f in UserFrames(w') {
      var u :| u in w && u < UTOP && PteFrame(w[u]) == f;
      assert u in w';
    }
  }

  /** The user frame behind page `v`, if it is a user page. */
  ghost function Backing(w: map<nat, nat>, v: nat): set<nat>
    requires v in w
  {
    if v < UTOP then {PteFrame(w[v])} else {}
  }

  /** A user page backed by a frame nobody else uses may be added. */
  lemma AddLeaf(mem: Mem, nodes: set<nat>, w: map<nat, nat>, v: nat, pte: nat)
    requires LeavesOk(mem, nodes, w) && v < UTOP && v !in w
    requires LeafOk(mem, nodes, pte) && PteFrame(pte) !in UserFrames(w)
    ensures LeavesOk(mem, nodes, w[v := pte])
    ensures PagesOf(mem, nodes, w[v := pte]) == PagesOf(mem, nodes,
                                                        w)[v := UserPage(PteFlags(pte), mem[PteFrame(pte)].b)]
  {
    var w' := w[v := pte];
    forall u | u in w' && u < UTOP ensures LeafOk(mem, nodes, w'[u]) {
      if u != v { assert LeafOk(mem, nodes, w[u]); }
    }
    forall u | u in w && u < UTOP ensures PteFrame(w[u]) in UserFrames(w) && w[u] == w'[u] {}
  }

  /** A user page may be removed, and its frame overwritten. */
  lemma DropLeaf(mem: Mem, mem': Mem, nodes: set<nat>, w: map<nat, nat>, v: nat)
    requires LeavesOk(mem, nodes, w) && v in w
    requires forall f :: f in mem && f !in nodes && f !in Backing(w, v) ==> f in mem' && mem'[f] == mem[f]
    ensures LeavesOk(mem', nodes, w - {v})
    ensures PagesOf(mem', nodes, w - {v}) == PagesOf(mem, nodes, w) - {v}
  {
    var w' := w - {v};
    forall u | u in w' && u < UTOP ensures LeafOk(mem', nodes, w'[u]) && mem'[PteFrame(w[u])] == mem[PteFrame(w[u])] {
      assert LeafOk(mem, nodes, w[u]);
    }
  }
}
