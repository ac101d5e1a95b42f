/** Sv39 address arithmetic (section 4.4 of the RISC-V Privileged Architecture):
    the macros of kernel/riscv/riscv.h, with `>> k` as division and `& mask` as remainder.
    Physical addresses are represented by frame numbers (address / PGSIZE). */
module Sv39 {

  const PGSIZE := 4096
  const MAXVA := 0x40_0000_0000
  const TRAMPOLINE := MAXVA - PGSIZE
  const TRAPFRAME := TRAMPOLINE - PGSIZE

  /** Number of pages below MAXVA, and of those the first that is not user memory. */
  const NVPN := MAXVA / PGSIZE
  const UTOP := TRAPFRAME / PGSIZE

  const PTE_R := 2
  const PTE_W := 4
  const PTE_X := 8
  const PTE_U := 16

  function PageRoundUp(sz: nat): nat { (sz + PGSIZE - 1) / PGSIZE * PGSIZE }
  function PageRoundDown(a: nat): nat { a / PGSIZE * PGSIZE }

  /** Number of pages that `sz` bytes of user memory occupy. */
  function Pages(sz: nat): nat { (sz + PGSIZE - 1) / PGSIZE }

  function Px(level: nat, va: nat): (i: nat)
    requires level < 3
    ensures i < 512
  {
    if level == 0 then va / PGSIZE % 512
    else if level == 1 then va / PGSIZE / 512 % 512
    else va / PGSIZE / 262144 % 512
  }

  /** perm | PTE_V */
  function WithValid(perm: nat): nat { if perm % 2 == 0 then perm + 1 else perm }

  /** PA2PTE(pa) | perm | PTE_V */
  function MakePte(frame: nat, perm: nat): nat { frame * 1024 + WithValid(perm) }
  function PteFrame(pte: nat): nat { pte / 1024 }
  function PteFlags(pte: nat): nat { pte % 1024 }
  predicate PteValid(pte: nat) { PteFlags(pte) % 2 == 1 }
  predicate PteWrite(pte: nat) { PteFlags(pte) / 4 % 2 == 1 }
  predicate PteUser(pte: nat) { PteFlags(pte) / 16 % 2 == 1 }

  /** pte & (PTE_R | PTE_W | PTE_X) != 0: the entry maps a page rather than a table. */
  predicate PteLeaf(pte: nat) { PteFlags(pte) / 2 % 8 != 0 }

  /** pte & ~PTE_U */
  function ClearUser(pte: nat): nat { if PteUser(pte) then pte - 16 else pte }

  /** Distinct pages below MAXVA select distinct slots of the radix tree, and the slot
      determines the page. */
  lemma SlotsAreDistinct(va: nat, vb: nat)
    requires va < MAXVA && vb < MAXVA
    ensures va / PGSIZE == vb / PGSIZE <==>
            Px(2, va) == Px(2, vb) && Px(1, va) == Px(1, vb) && Px(0, va) == Px(0, vb)
    ensures va / PGSIZE == Px(2, va) * 262144 + Px(1, va) * 512 + Px(0, va)
  {
    PxRebuilds(va);
    PxRebuilds(vb);
  }

  lemma PxRebuilds(va: nat)
    requires va < MAXVA
    ensures Px(2, va) == va / PGSIZE / 262144 < 256
    ensures Px(2, va) * 512 + Px(1, va) == va / PGSIZE / 512
    ensures va / PGSIZE == Px(2, va) * 262144 + Px(1, va) * 512 + Px(0, va)
  {
    var v := va / PGSIZE;
    assert v < NVPN;
    assert v / 512 / 512 == v / 262144;
  }

  /** Building an entry and taking it apart again loses nothing. */
  lemma PteRoundTrip(frame: nat, perm: nat)
    requires perm < 1024
    ensures PteFrame(MakePte(frame, perm)) == frame
    ensures PteFlags(MakePte(frame, perm)) == WithValid(perm)
    ensures PteValid(MakePte(frame, perm))
    ensures PteLeaf(MakePte(frame, perm)) <==> PteLeaf(perm)
    ensures PteUser(MakePte(frame, perm)) <==> PteUser(perm)
    ensures PteWrite(MakePte(frame, perm)) <==> PteWrite(perm)
  {
    Split(0, perm);
    if perm % 2 == 0 {
      SetValid(perm);
      Split(frame, perm + 1);
    } else {
      Split(frame, perm);
    }
  }

  lemma Split(frame: nat, flags: nat)
    requires flags < 1024
    ensures (frame * 1024 + flags) / 1024 == frame
    ensures (frame * 1024 + flags) % 1024 == flags
  {
  }

  lemma SetValid(perm: nat)
    requires perm < 1024 && perm % 2 == 0
    ensures perm + 1 < 1024 && (perm + 1) % 2 == 1
    ensures (perm + 1) / 4 == perm / 4 && (perm + 1) / 16 == perm / 16 && (perm + 1) / 2 == perm / 2
  {
  }

  lemma ClearUserKeeps(pte: nat)
    ensures PteFrame(ClearUser(pte)) == PteFrame(pte)
    ensures PteFlags(ClearUser(pte)) == ClearUser(PteFlags(pte))
    ensures PteValid(ClearUser(pte)) == PteValid(pte)
    ensures PteLeaf(ClearUser(pte)) == PteLeaf(pte)
    ensures !PteUser(ClearUser(pte))
  {
    if PteUser(pte) {
      var frame, flags := pte / 1024, pte % 1024;
      assert flags < 1024 && flags >= 16 && pte == frame * 1024 + flags;
      Split(frame, flags);
      Split(frame, flags - 16);
      Split(0, flags);
      ClearBit(flags);
    } else {
      Split(0, pte % 1024);
    }
  }

  lemma ClearBit(flags: nat)
    requires 16 <= flags < 1024 && flags / 16 % 2 == 1
    ensures (flags - 16) / 16 % 2 == 0 && (flags - 16) % 2 == flags % 2
    ensures (flags - 16) / 2 % 8 == flags / 2 % 8
  {
    var sixteenths, half := flags / 16, flags / 2;
    assert (flags - 16) / 16 == sixteenths - 1;
    assert (sixteenths - 1) % 2 == 0;
    assert (flags - 16) / 2 == half - 8;
    assert (half - 8) % 8 == half % 8;
  }
}
