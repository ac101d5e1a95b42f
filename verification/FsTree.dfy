/** Which block belongs to which place of which file, and what allocating or writing one
    block does to every file of the image (tools/mkfs.c). */
module FsTree {
  import opened FsFormat
  import opened MachineWords

  datatype Role = Role(inum: nat, slot: Slot)

  type Owners = map<nat, Role>

  /** An inode as read from disk. */
  datatype Node = Node(head0: nat, head1: nat, size: nat, addrs: seq<nat>)

  type Nodes = map<nat, Node>

  /** Every pointer of the inode is to an allocated block recorded as serving that place. */
  ghost predicate Owns(disk: Disk, free: nat, owner: Owners, inum: nat, addrs: seq<nat>)
    requires DiskOk(disk)
  {
    |addrs| == NDIRECT + 2 &&
    forall s :: SlotOk(s) && Ptr(disk, addrs, s) != 0 ==>
      NMETA <= Ptr(disk, addrs, s) < free && Ptr(disk, addrs, s) in owner &&
      owner[Ptr(disk, addrs, s)] == Role(inum, s)
  }

  /** Stores pointer `b` in slot `s`: in the inode, or in the block of the slot's parent. */
  function SetPtr(disk: Disk, addrs: seq<nat>, s: Slot, b: nat): (r: (Disk, seq<nat>))
    requires DiskOk(disk) && |addrs| == NDIRECT + 2 && SlotOk(s)
    requires Top(s) || 0 < Ptr(disk, addrs, Parent(s)) < FSSIZE
    ensures DiskOk(r.0) && |r.1| == NDIRECT + 2
  {
    if Top(s) then (disk, addrs[Idx(s) := b])
    else
      var pp := Ptr(disk, addrs, Parent(s));
      (disk[pp := PutU32(disk[pp], 4 * Idx(s), b)], addrs)
  }

  /** The slot can be given the next free block. */
  ghost predicate CanSet(disk: Disk, free: nat, owner: Owners, inum: nat, addrs: seq<nat>, slot: Slot) {
    DiskOk(disk) && NMETA <= free < FSSIZE && Owns(disk, free, owner, inum, addrs) && disk[free] == ZeroBlock() &&
    SlotOk(slot) && Ptr(disk, addrs, slot) == 0 && (Top(slot) || Ptr(disk, addrs, Parent(slot)) != 0)
  }

  lemma ZeroWord(at: nat)
    requires at + 4 <= BSIZE
    ensures GetU32(ZeroBlock(), at) == 0
  {
  }

  /** Storing a fresh zeroed block in an empty slot changes that pointer and no other one. */
  lemma {:induction false} SetPtrAt(disk: Disk, free: nat, owner: Owners, inum: nat, addrs: seq<nat>, slot: Slot,
                                    s: Slot)
    requires CanSet(disk, free, owner, inum, addrs, slot) && SlotOk(s)
    ensures var (d, a) := SetPtr(disk, addrs, slot, free);
            Ptr(d, a, s) == if s == slot then free else Ptr(disk, addrs, s)
    decreases Depth(s)
  {
    hide GetU32, PutU32, ZeroBlock, Parent, Idx;
    if Top(s) {
      if s != slot && Top(slot) && Idx(s) == Idx(slot) { SlotByPlace(s, slot); }
    } else {
      SlotDeeper(s);
      SetPtrAt(disk, free, owner, inum, addrs, slot, Parent(s));
      SetPtrBelow(disk, free, owner, inum, addrs, slot, s);
    }
  }

  lemma SetPtrBelow(disk: Disk, free: nat, owner: Owners, inum: nat, addrs: seq<nat>, slot: Slot, s: Slot)
    requires CanSet(disk, free, owner, inum, addrs, slot) && SlotOk(s) && !Top(s)
    requires var (d, a) := SetPtr(disk, addrs, slot, free);
             Ptr(d, a, Parent(s)) == if Parent(s) == slot then free else Ptr(disk, addrs, Parent(s))
    ensures var (d, a) := SetPtr(disk, addrs, slot, free);
            Ptr(d, a, s) == if s == slot then free else Ptr(disk, addrs, s)
  {
    hide GetU32, PutU32, ZeroBlock, Parent, Idx, Ptr;
    var (d, a) := SetPtr(disk, addrs, slot, free);
    var p := Parent(s);
    Below(disk, addrs, s);
    Below(d, a, s);
    if p == slot {
      ZeroWord(4 * Idx(s));
      SlotDeeper(s);
    } else if !Top(slot) && Ptr(disk, addrs, p) == Ptr(disk, addrs, Parent(slot)) {
      var pp := Ptr(disk, addrs, p);
      assert p == Parent(slot);
      GetPutU32(disk[pp], 4 * Idx(slot), free, 4 * Idx(s));
      if Idx(s) == Idx(slot) { SlotByPlace(s, slot); }
    } else if s == slot {
      assert false;
    }
  }

  lemma Below(disk: Disk, addrs: seq<nat>, s: Slot)
    requires DiskOk(disk) && |addrs| == NDIRECT + 2 && SlotOk(s) && !Top(s)
    ensures Ptr(disk, addrs, s) == Entry(disk, Ptr(disk, addrs, Parent(s)), Idx(s))
  {
  }

  lemma SlotDeeper(s: Slot)
    requires SlotOk(s) && !Top(s)
    ensures Depth(Parent(s)) < Depth(s)
  {
  }

  lemma SetPtrOwns(disk: Disk, free: nat, owner: Owners, inum: nat, addrs: seq<nat>, slot: Slot)
    requires CanSet(disk, free, owner, inum, addrs, slot)
    ensures var (d, a) := SetPtr(disk, addrs, slot, free);
            Owns(d, free + 1, owner[free := Role(inum, slot)], inum, a)
  {
    hide Ptr, SetPtr;
    var (d, a) := SetPtr(disk, addrs, slot, free);
    forall s | SlotOk(s) ensures Ptr(d, a, s) == if s == slot then free else Ptr(disk, addrs, s) {
      SetPtrAt(disk, free, owner, inum, addrs, slot, s);
    }
  }

  /** What changed on disk is at most one index block of the inode. */
  lemma SetPtrDisk(disk: Disk, free: nat, owner: Owners, inum: nat, addrs: seq<nat>, slot: Slot, b: nat)
    requires CanSet(disk, free, owner, inum, addrs, slot) && b < FSSIZE
    requires SetPtr(disk, addrs, slot, free).0[b] != disk[b]
    ensures NMETA <= b < free && b in owner && owner[b].inum == inum && !owner[b].slot.Data?
  {
    hide Ptr, PutU32;
    assert !Top(slot) && b == Ptr(disk, addrs, Parent(slot));
  }

  /** A change of blocks that are not the inode's index blocks leaves its tree alone. */
  lemma OwnsFrame(disk: Disk, disk': Disk, free: nat, free': nat, owner: Owners, owner': Owners, inum: nat,
                  addrs: seq<nat>)
    requires DiskOk(disk) && DiskOk(disk') && free <= free' && Owns(disk, free, owner, inum, addrs)
    requires forall b :: b in owner && b < free ==> b in owner' && owner'[b] == owner[b]
    requires forall b ::
               NMETA <= b < free && b < FSSIZE && b in owner && owner[b].inum == inum && !owner[b].slot.Data? ==>
               disk'[b] == disk[b]
    requires free <= FSSIZE
    ensures Owns(disk', free', owner', inum, addrs)
    ensures forall s :: SlotOk(s) ==> Ptr(disk', addrs, s) == Ptr(disk, addrs, s)
  {
    hide Ptr;
    forall s | SlotOk(s) ensures Ptr(disk', addrs, s) == Ptr(disk, addrs, s) {
      PtrFrame(disk, disk', addrs, s);
    }
  }

  /** Blocks from `free` on are unused; those before it each serve one place of one inode. */
  ghost predicate Tree(disk: Disk, free: nat, owner: Owners, nodes: Nodes) {
    DiskOk(disk) && NMETA <= free <= FSSIZE &&
    (forall b :: free <= b < FSSIZE ==> disk[b] == ZeroBlock()) &&
    (forall i :: i in nodes ==> Owns(disk, free, owner, i, nodes[i].addrs)) &&
    (forall b :: NMETA <= b < free ==> Serves(disk, owner, nodes, b))
  }

  ghost predicate Serves(disk: Disk, owner: Owners, nodes: Nodes, b: nat)
    requires DiskOk(disk)
  {
    b in owner && owner[b].inum in nodes && SlotOk(owner[b].slot) && |nodes[owner[b].inum].addrs| == NDIRECT + 2 &&
    Ptr(disk, nodes[owner[b].inum].addrs, owner[b].slot) == b
  }

  /** Two places never share a block, within an inode or between inodes. */
  lemma NoSharing(disk: Disk, free: nat, owner: Owners, nodes: Nodes, i: nat, s: Slot, j: nat, t: Slot)
    requires Tree(disk, free, owner, nodes) && i in nodes && j in nodes && SlotOk(s) && SlotOk(t)
    requires Owns(disk, free, owner, i, nodes[i].addrs) && Owns(disk, free, owner, j, nodes[j].addrs)
    requires Ptr(disk, nodes[i].addrs, s) == Ptr(disk, nodes[j].addrs, t) != 0
    ensures i == j && s == t
  {
    hide Ptr;
  }

  /** Allocating the next free block for one empty slot: that pointer is set, every other pointer
      of every inode is as before, and the image is still a tree. */
  lemma AllocTree(disk: Disk, free: nat, owner: Owners, nodes: Nodes, inum: nat, slot: Slot)
    requires Tree(disk, free, owner, nodes) && inum in nodes
    requires CanSet(disk, free, owner, inum, nodes[inum].addrs, slot)
    ensures var (d, a) := SetPtr(disk, nodes[inum].addrs, slot, free);
            Tree(d, free + 1, owner[free := Role(inum, slot)], nodes[inum := nodes[inum].(addrs := a)])
  {
    hide Ptr, SetPtr, Serves;
    var (d, a) := SetPtr(disk, nodes[inum].addrs, slot, free);
    var owner' := owner[free := Role(inum, slot)];
    var nodes' := nodes[inum := nodes[inum].(addrs := a)];
    SetPtrOwns(disk, free, owner, inum, nodes[inum].addrs, slot);
    forall i | i in nodes' ensures Owns(d, free + 1, owner', i, nodes'[i].addrs) {
      if i != inum { AllocOther(disk, free, owner, nodes, inum, slot, i); }
    }
    forall b | free + 1 <= b < FSSIZE ensures d[b] == ZeroBlock() {
      if d[b] != disk[b] { SetPtrDisk(disk, free, owner, inum, nodes[inum].addrs, slot, b); }
    }
    forall b | NMETA <= b < free + 1 ensures Serves(d, owner', nodes', b) {
      AllocServes(disk, free, owner, nodes, inum, slot, b);
    }
  }

  lemma AllocOther(disk: Disk, free: nat, owner: Owners, nodes: Nodes, inum: nat, slot: Slot, i: nat)
    requires Tree(disk, free, owner, nodes) && inum in nodes && i in nodes && i != inum
    requires CanSet(disk, free, owner, inum, nodes[inum].addrs, slot)
    ensures var (d, a) := SetPtr(disk, nodes[inum].addrs, slot, free);
            Owns(d, free + 1, owner[free := Role(inum, slot)], i, nodes[i].addrs) &&
            forall s :: SlotOk(s) ==> Ptr(d, nodes[i].addrs, s) == Ptr(disk, nodes[i].addrs, s)
  {
    hide Ptr, SetPtr;
    var (d, a) := SetPtr(disk, nodes[inum].addrs, slot, free);
    forall b | NMETA <= b < free && b in owner && owner[b].inum == i ensures d[b] == disk[b] {
      if d[b] != disk[b] { SetPtrDisk(disk, free, owner, inum, nodes[inum].addrs, slot, b); }
    }
    OwnsFrame(disk, d, free, free + 1, owner, owner[free := Role(inum, slot)], i, nodes[i].addrs);
  }

  lemma AllocServes(disk: Disk, free: nat, owner: Owners, nodes: Nodes, inum: nat, slot: Slot, b: nat)
    requires Tree(disk, free, owner, nodes) && inum in nodes && NMETA <= b <= free
    requires CanSet(disk, free, owner, inum, nodes[inum].addrs, slot)
    ensures var (d, a) := SetPtr(disk, nodes[inum].addrs, slot, free);
            Serves(d, owner[free := Role(inum, slot)], nodes[inum := nodes[inum].(addrs := a)], b)
  {
    hide Ptr, SetPtr, Owns;
    if b == free {
      SetPtrAt(disk, free, owner, inum, nodes[inum].addrs, slot, slot);
    } else {
      assert Serves(disk, owner, nodes, b);
      var r := owner[b];
      if r.inum == inum {
        SetPtrAt(disk, free, owner, inum, nodes[inum].addrs, slot, r.slot);
      } else {
        AllocOther(disk, free, owner, nodes, inum, slot, r.inum);
      }
    }
  }

  /** Rewriting a data block of one inode moves no pointer of any inode. */
  lemma WriteTree(disk: Disk, free: nat, owner: Owners, nodes: Nodes, inum: nat, f: nat, data: seq<Byte>)
    requires Tree(disk, free, owner, nodes) && inum in nodes && f < MAXFILE && |data| == BSIZE
    requires Owns(disk, free, owner, inum, nodes[inum].addrs) && Ptr(disk, nodes[inum].addrs, Data(f)) != 0
    ensures var d := disk[Ptr(disk, nodes[inum].addrs, Data(f)) := data];
            Tree(d, free, owner, nodes) &&
            forall i, s :: i in nodes && SlotOk(s) ==>
              |nodes[i].addrs| == NDIRECT + 2 && Ptr(d, nodes[i].addrs, s) == Ptr(disk, nodes[i].addrs, s)
  {
    hide Ptr, ZeroBlock;
    var x := Ptr(disk, nodes[inum].addrs, Data(f));
    var d := disk[x := data];
    forall i | i in nodes
      ensures Owns(d, free, owner, i, nodes[i].addrs)
      ensures forall s :: SlotOk(s) ==> Ptr(d, nodes[i].addrs, s) == Ptr(disk, nodes[i].addrs, s)
    {
      OwnsFrame(disk, d, free, free, owner, owner, i, nodes[i].addrs);
    }
    forall b | NMETA <= b < free ensures Serves(d, owner, nodes, b) {
      assert Serves(disk, owner, nodes, b);
    }
  }
}
