/** A machine in which every process has a memory and a trapframe of its own and all share only the number
    of free pages, and what its operations do. */
module PrivateMemory {
  import opened Sv39
  import opened PageTable
  import opened Space
  import opened Vm
  import opened CopyUser
  import opened AddressSpace
  import opened Exec
  import opened MachineWords

  /** What can happen to the address spaces. */
  datatype Op =
    | Create(p: nat)
    | Grow(p: nat, n: int)
    | Fork(p: nat, q: nat)
    | Exec(p: nat, elf: bool, entry: nat, phs: seq<Segment>, file: seq<Byte>, args: seq<seq<Byte>>)
    | Store(p: nat, va: nat, src: seq<Byte>)
    | Free(p: nat)

  /** The values are of the C types and sizes the system calls deliver. */
  ghost predicate OpOk(op: Op) {
    match op
    case Grow(_, n) => -0x8000_0000 <= n < 0x8000_0000
    case Exec(_, _, entry, phs, file, args) =>
      && entry < UINT64 && (forall s :: s in phs ==> s.vaddr < UINT64 && s.memsz < UINT64) && |file| <= MAXFILE_BYTES
      && |args| < 32 && (forall a :: a in args ==> |a| < PGSIZE)
    case _ => true
  }

  /** A process: its size, its memory and the bytes of its trapframe. */
  datatype Priv = Priv(sz: nat, mem: Memory, frame: seq<Byte>)

  datatype World = World(procs: map<nat, Priv>, free: nat)

  /** Memory of size `sz` brought to size `sz'`: cut, or extended with zeroed pages. */
  ghost function Resized(c: Memory, sz: nat, sz': nat): Memory {
    if sz' <= sz then (if Pages(sz') <= Pages(sz) then Without(c, Pages(sz'), Pages(sz) - Pages(sz')) else c)
    else if Pages(sz) <= Pages(sz') then Fill(c, Pages(sz), Pages(sz') - Pages(sz), ZeroPage(PTE_W)) else c
  }

  /** The saved registers, byte for byte, but for a0, which is 0. */
  ghost predicate FrameCopied(b: seq<Byte>, b': seq<Byte>) {
    && |b| == |b'| == PGSIZE && (forall k :: 112 <= k < 120 ==> b'[k] == 0)
    && forall k :: 0 <= k < PGSIZE && !(112 <= k < 120) ==> b'[k] == b[k]
  }

  /** The bytes of epc, sp and a1 in a trapframe. */
  predicate StartByte(k: int) { 24 <= k < 32 || 48 <= k < 56 || 120 <= k < 128 }

  /** User code will start at `entry` with its stack and argv at `sp`; the other registers are those of
      before. */
  ghost predicate FrameStarted(b: seq<Byte>, b': seq<Byte>, entry: nat, sp: nat) {
    && |b| == |b'| == PGSIZE
    && Number(b'[24..32]) == entry && Number(b'[48..56]) == sp && Number(b'[120..128]) == sp
    && forall k :: 0 <= k < PGSIZE && !StartByte(k) ==> b'[k] == b[k]
  }

  /** The longest prefix of `src` that the process may write at `va` is written. */
  ghost predicate PrefixStored(c: Memory, c': Memory, va: nat, src: seq<Byte>, n: nat, ok: bool) {
    && n <= |src| && Written(c, c', va, src[..n]) && (ok <==> n == |src|)
    && (forall x: nat :: va <= x < va + n ==> WritableAt(c, x)) && (!ok ==> !WritableAt(c, va + n))
  }

  /** A process that runs a new program. */
  ghost predicate Runs(x: Priv, x': Priv, entry: nat, phs: seq<Segment>, file: seq<Byte>, args: seq<seq<Byte>>) {
    && x'.sz == (Pages(SizeOf(phs, |phs|)) + 2) * PGSIZE
    && exists sp, ptrs :: LoadedIn(x'.mem, ptrs, args, sp, phs, file) && FrameStarted(x.frame, x'.frame, entry, sp)
  }

  /** `x'` in the place of `p`, and every other process as before. */
  ghost predicate Only(w: World, w': World, p: nat) {
    p in w'.procs && w'.procs == w.procs[p := w'.procs[p]]
  }

  /** What an operation does, and when it succeeds. */
  ghost predicate Does(op: Op, ok: bool, w: World, w': World) {
    match op
    case Create(p) =>
      && (ok <==> p !in w.procs && w.free >= 4)
      && (if ok then Only(w, w', p) && w'.procs[p].sz == 0 && w'.procs[p].mem == map[] else w'.procs == w.procs)
    case Grow(p, n) =>
      && (!ok ==> w'.procs == w.procs && (p in w.procs ==> n > 0))
      && (ok ==>
            && p in w.procs && Only(w, w', p) && w'.procs[p].frame == w.procs[p].frame
            && w'.procs[p].sz == (if w.procs[p].sz + n < 0 then w.procs[p].sz else w.procs[p].sz + n)
            && w'.procs[p].mem == Resized(w.procs[p].mem, w.procs[p].sz, w'.procs[p].sz))
    case Fork(p, q) =>
      && (ok <==> p in w.procs && q !in w.procs && w.free >= 1 + ImagePages(Pages(w.procs[p].sz)))
      && (if !ok then w'.procs == w.procs else
            && Only(w, w', q) && w'.procs[q].sz == w.procs[p].sz && w'.procs[q].mem == w.procs[p].mem
            && FrameCopied(w.procs[p].frame, w'.procs[q].frame))
    case Exec(p, elf, entry, phs, file, args) =>
      && (ok <==> p in w.procs && elf && Buildable(phs, file, args, w.free))
      && (if !ok then w'.procs == w.procs else
            Only(w, w', p) && Runs(w.procs[p], w'.procs[p], entry, phs, file, args))
    case Store(p, va, src) =>
      if p !in w.procs then !ok && w'.procs == w.procs else
        && Only(w, w', p) && w'.procs[p].sz == w.procs[p].sz && w'.procs[p].frame == w.procs[p].frame
        && exists n :: PrefixStored(w.procs[p].mem, w'.procs[p].mem, va, src, n, ok)
    case Free(p) => (ok <==> p in w.procs) && w'.procs == w.procs - {p}
  }

  /** The operations that may change process `q`. */
  predicate Changes(op: Op, q: nat) {
    match op
    case Create(_) => false
    case Grow(p, _) => p == q
    case Fork(_, _) => false
    case Exec(p, _, _, _, _, _) => p == q
    case Store(p, _, _) => p == q
    case Free(p) => p == q
  }

  /** A run: the worlds before and after each operation, and whether it succeeded. */
  ghost predicate IsRun(ops: seq<Op>, oks: seq<bool>, ws: seq<World>) {
    && |oks| == |ops| && |ws| == |ops| + 1
    && forall i :: 0 <= i < |ops| ==> Does(ops[i], oks[i], ws[i], ws[i + 1])
  }

  lemma StepKeeps(op: Op, ok: bool, w: World, w': World, q: nat)
    requires Does(op, ok, w, w') && q in w.procs && !Changes(op, q)
    ensures q in w'.procs && w'.procs[q] == w.procs[q]
  {
  }

  /** In every run a process changes only by operations on it. */
  lemma {:induction false} RunKeeps(ops: seq<Op>, oks: seq<bool>, ws: seq<World>, i: nat, j: nat, q: nat)
    requires IsRun(ops, oks, ws) && i <= j < |ws| && q in ws[i].procs
    requires forall k :: i <= k < j ==> !Changes(ops[k], q)
    ensures q in ws[j].procs && ws[j].procs[q] == ws[i].procs[q]
  {
    if i < j {
      hide Does;
      RunKeeps(ops, oks, ws, i, j - 1, q);
      assert Does(ops[j - 1], oks[j - 1], ws[j - 1], ws[j - 1 + 1]);
      StepKeeps(ops[j - 1], oks[j - 1], ws[j - 1], ws[j], q);
    }
  }

  /** After a fork the two processes part: as long as nothing is done to one of them it has the memory of
      the moment of the fork, whatever is done to the other. */
  lemma ForkParts(ops: seq<Op>, oks: seq<bool>, ws: seq<World>, i: nat, j: nat, p: nat, q: nat)
    requires IsRun(ops, oks, ws) && i < j < |ws| && ops[i] == Fork(p, q) && oks[i]
    ensures p in ws[i].procs
    ensures (forall k :: i < k < j ==> !Changes(ops[k], q)) ==>
              q in ws[j].procs && ws[j].procs[q].mem == ws[i].procs[p].mem
    ensures (forall k :: i < k < j ==> !Changes(ops[k], p)) ==>
              p in ws[j].procs && ws[j].procs[p] == ws[i].procs[p]
  {
    assert Does(ops[i], oks[i], ws[i], ws[i + 1]);
    hide IsRun;
    if forall k :: i < k < j ==> !Changes(ops[k], q) { RunKeeps(ops, oks, ws, i + 1, j, q); }
    if forall k :: i < k < j ==> !Changes(ops[k], p) { RunKeeps(ops, oks, ws, i, j, p); }
  }
}
