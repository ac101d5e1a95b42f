/** Reference counts of open files and in-memory inodes (kernel/fs/file.c, kernel/fs/sysfile.c,
    kernel/fs/fs.c, kernel/proc/proc.c). Counts are compared with the descriptor slots, files and
    working directories that hold them; references a call holds for a moment are counted apart. */
module FileRefs {

  const NFILE := 100
  const NINODE := 50
  const NOFILE := 16

  datatype Kind = None | OnInode | OnDevice

  datatype File = File(ref: nat, kind: Kind, ip: nat, major: int, readable: bool, writable: bool)

  /** The bits of open's second argument: O_WRONLY, O_RDWR, and the others but those that create. */
  datatype Mode = Mode(wronly: bool, rdwr: bool, other: bool)

  predicate ReadOnly(mode: Mode) { !mode.wronly && !mode.rdwr && !mode.other }

  datatype Inode = Inode(ref: nat, dev: nat, inum: nat)

  datatype Fd = NoFile | To(f: nat)

  datatype Cwd = NoDir | In(i: nat)

  datatype Proc = Proc(ofile: seq<Fd>, cwd: Cwd)

  /** A slot without a process. */
  function Blank(): Proc { Proc(seq(NOFILE, _ => NoFile), NoDir) }

  /** What keeps an inode: an open file or a working directory. */
  datatype Holder = FileHolder(f: nat) | CwdHolder(p: nat)

  /** The tables, and who holds what: `slots` are the descriptors of each file, `holders` those of
      each inode; `xf` and `xi` count references a call holds at the moment. */
  datatype State = State(files: seq<File>, inodes: seq<Inode>, procs: seq<Proc>,
                         slots: seq<set<(nat, nat)>>, holders: seq<set<Holder>>, xf: seq<nat>, xi: seq<nat>)

  ghost predicate Sized(s: State) {
    |s.files| == |s.slots| == |s.xf| == NFILE && |s.inodes| == |s.holders| == |s.xi| == NINODE &&
    forall p :: 0 <= p < |s.procs| ==> |s.procs[p].ofile| == NOFILE
  }

  ghost predicate FileOk(s: State, f: nat)
    requires Sized(s) && f < NFILE
  {
    s.files[f].ref == |s.slots[f]| + s.xf[f] && (s.files[f].ref == 0 ==> s.files[f].kind == None) &&
    (s.files[f].kind != None ==> s.files[f].ip < NINODE && FileHolder(f) in s.holders[s.files[f].ip]) &&
    forall p: nat, fd: nat :: (p, fd) in s.slots[f] ==> p < |s.procs| && fd < NOFILE && s.procs[p].ofile[fd] == To(f)
  }

  ghost predicate InodeOk(s: State, i: nat)
    requires Sized(s) && i < NINODE
  {
    s.inodes[i].ref == |s.holders[i]| + s.xi[i] &&
    (forall f: nat :: FileHolder(f) in s.holders[i] ==> f < NFILE && s.files[f].kind != None && s.files[f].ip == i) &&
    (forall p: nat :: CwdHolder(p) in s.holders[i] ==> p < |s.procs| && s.procs[p].cwd == In(i))
  }

  ghost predicate ProcOk(s: State, p: nat)
    requires Sized(s) && p < |s.procs|
  {
    (forall fd ::
       0 <= fd < NOFILE && s.procs[p].ofile[fd].To? ==>
         s.procs[p].ofile[fd].f < NFILE && (p, fd) in s.slots[s.procs[p].ofile[fd].f]) &&
    (s.procs[p].cwd.In? ==> s.procs[p].cwd.i < NINODE && CwdHolder(p) in s.holders[s.procs[p].cwd.i])
  }

  predicate Same(a: Inode, b: Inode) { a.dev == b.dev && a.inum == b.inum }

  /** At most one entry in use per inode. */
  ghost predicate Unique(inodes: seq<Inode>) {
    forall i, j ::
      0 <= i < |inodes| && 0 <= j < |inodes| && i != j && inodes[i].ref > 0 && inodes[j].ref > 0 ==>
        !Same(inodes[i], inodes[j])
  }

  ghost predicate Inv(s: State) {
    Sized(s) && Unique(s.inodes) && (forall f :: 0 <= f < NFILE ==> FileOk(s, f)) &&
    (forall i :: 0 <= i < NINODE ==> InodeOk(s, i)) && forall p :: 0 <= p < |s.procs| ==> ProcOk(s, p)
  }

  /** Between calls nothing is held in passing, and every file in use is on an inode. */
  ghost predicate Quiet(s: State) {
    Inv(s) && (forall f :: 0 <= f < NFILE ==> s.xf[f] == 0 && (s.files[f].ref > 0 ==> s.files[f].kind != None)) &&
    forall i :: 0 <= i < NINODE ==> s.xi[i] == 0
  }

  /** Then a file's count is the number of descriptors naming it, and an inode's count the number
      of files in use on it plus the working directories. */
  lemma Counts(s: State, f: nat, i: nat)
    requires Quiet(s) && f < NFILE && i < NINODE
    ensures s.files[f].ref == |s.slots[f]| && s.inodes[i].ref == |s.holders[i]|
    ensures forall p: nat, fd: nat ::
              (p, fd) in s.slots[f] <==> p < |s.procs| && fd < NOFILE && s.procs[p].ofile[fd] == To(f)
    ensures forall g: nat :: FileHolder(g) in s.holders[i] <==> g < NFILE && s.files[g].ref > 0 && s.files[g].ip == i
    ensures forall p: nat :: CwdHolder(p) in s.holders[i] <==> p < |s.procs| && s.procs[p].cwd == In(i)
  {
    hide Unique;
    assert FileOk(s, f) && InodeOk(s, i);
    forall p: nat, fd: nat | p < |s.procs| && fd < NOFILE && s.procs[p].ofile[fd] == To(f)
      ensures (p, fd) in s.slots[f]
    {
      assert ProcOk(s, p);
    }
    forall g: nat | g < NFILE ensures FileHolder(g) in s.holders[i] <==> s.files[g].ref > 0 && s.files[g].ip == i {
      assert FileOk(s, g);
    }
    forall p: nat | p < |s.procs| && s.procs[p].cwd == In(i) ensures CwdHolder(p) in s.holders[i] {
      assert ProcOk(s, p);
    }
  }

  /** Outside files `fs`, inodes `ns` and processes `ps` nothing changes, and what changes in these
      only concerns each other. */
  ghost predicate Touches(s: State, s': State, fs: set<nat>, ns: set<nat>, ps: set<nat>) {
    Sized(s) && Sized(s') && |s'.procs| == |s.procs| &&
    (forall f ::
       0 <= f < NFILE && f !in fs ==> s'.files[f] == s.files[f] && s'.slots[f] == s.slots[f] && s'.xf[f] == s.xf[f]) &&
    (forall i ::
       0 <= i < NINODE && i !in ns ==>
         s'.inodes[i] == s.inodes[i] && s'.holders[i] == s.holders[i] && s'.xi[i] == s.xi[i]) &&
    (forall p :: 0 <= p < |s.procs| && p !in ps ==> s'.procs[p] == s.procs[p]) &&
    (forall f: nat, p: nat, fd: nat :: f < NFILE && p !in ps ==> ((p, fd) in s'.slots[f] <==> (p, fd) in s.slots[f])) &&
    (forall i: nat, f: nat ::
       i < NINODE && f !in fs ==> (FileHolder(f) in s'.holders[i] <==> FileHolder(f) in s.holders[i])) &&
    (forall i: nat, p: nat ::
       i < NINODE && p !in ps ==> (CwdHolder(p) in s'.holders[i] <==> CwdHolder(p) in s.holders[i])) &&
    (forall p: nat, fd: nat ::
       p < |s.procs| && fd < NOFILE && s'.procs[p].ofile[fd] != s.procs[p].ofile[fd] ==>
         s.procs[p].ofile[fd].NoFile? || s.procs[p].ofile[fd].f in fs) &&
    (forall p: nat ::
       p < |s.procs| && s'.procs[p].cwd != s.procs[p].cwd ==> s.procs[p].cwd.NoDir? || s.procs[p].cwd.i in ns) &&
    (forall f: nat ::
       f < NFILE && (s'.files[f].kind, s'.files[f].ip) != (s.files[f].kind, s.files[f].ip) ==>
         s.files[f].kind == None || s.files[f].ip in ns)
  }

  lemma OtherFile(s: State, s': State, fs: set<nat>, ns: set<nat>, ps: set<nat>, f: nat)
    requires Touches(s, s', fs, ns, ps) && f < NFILE && f !in fs && FileOk(s, f)
    ensures FileOk(s', f)
  {
  }

  lemma OtherInode(s: State, s': State, fs: set<nat>, ns: set<nat>, ps: set<nat>, i: nat)
    requires Touches(s, s', fs, ns, ps) && i < NINODE && i !in ns && InodeOk(s, i)
    ensures InodeOk(s', i)
  {
  }

  lemma OtherProc(s: State, s': State, fs: set<nat>, ns: set<nat>, ps: set<nat>, p: nat)
    requires Touches(s, s', fs, ns, ps) && p < |s.procs| && p !in ps && ProcOk(s, p)
    ensures ProcOk(s', p)
  {
  }

  /** Such a change keeps the counts right if it does so for what it touches. */
  lemma TouchOk(s: State, s': State, fs: set<nat>, ns: set<nat>, ps: set<nat>)
    requires Inv(s) && Touches(s, s', fs, ns, ps) && Unique(s'.inodes)
    requires forall f :: f in fs && f < NFILE ==> FileOk(s', f)
    requires forall i :: i in ns && i < NINODE ==> InodeOk(s', i)
    requires forall p :: p in ps && p < |s.procs| ==> ProcOk(s', p)
    ensures Inv(s')
  {
    hide FileOk, InodeOk, ProcOk, Unique;
    forall f | 0 <= f < NFILE ensures FileOk(s', f) {
      if f !in fs { OtherFile(s, s', fs, ns, ps, f); }
    }
    forall i | 0 <= i < NINODE ensures InodeOk(s', i) {
      if i !in ns { OtherInode(s, s', fs, ns, ps, i); }
    }
    forall p | 0 <= p < |s.procs| ensures ProcOk(s', p) {
      if p !in ps { OtherProc(s, s', fs, ns, ps, p); }
    }
  }

  lemma UniqueKeep(inodes: seq<Inode>, i: nat, n: Inode)
    requires Unique(inodes) && i < |inodes|
    requires n.ref == 0 || (Same(n, inodes[i]) && inodes[i].ref > 0) ||
             forall j :: 0 <= j < |inodes| ==> !(inodes[j].ref > 0 && Same(inodes[j], n))
    ensures Unique(inodes[i := n])
  {
    var inodes' := inodes[i := n];
    forall j, k | 0 <= j < |inodes| && 0 <= k < |inodes| && j != k && inodes'[j].ref > 0 && inodes'[k].ref > 0
      ensures !Same(inodes'[j], inodes'[k])
    {
      assert j != i && k != i ==> !Same(inodes[j], inodes[k]);
      assert j == i && n.ref > 0 && inodes[i].ref > 0 ==> !Same(inodes[i], inodes[k]);
      assert k == i && n.ref > 0 && inodes[i].ref > 0 ==> !Same(inodes[j], inodes[i]);
    }
  }

  /** One more reference to an inode, held by the running call. */
  ghost function Held(s: State, i: nat, n: Inode): State
    requires Sized(s) && i < NINODE
  {
    s.(inodes := s.inodes[i := n], xi := s.xi[i := s.xi[i] + 1])
  }

  lemma HeldOk(s: State, i: nat, n: Inode)
    requires Inv(s) && i < NINODE && n.ref == s.inodes[i].ref + 1
    requires (s.inodes[i].ref > 0 && Same(n, s.inodes[i])) ||
             forall j :: 0 <= j < NINODE ==> !(s.inodes[j].ref > 0 && Same(s.inodes[j], n))
    ensures Inv(Held(s, i, n))
  {
    hide Inv, Unique;
    Facts(s, {}, {i}, {});
    UniqueKeep(s.inodes, i, n);
    TouchOk(s, Held(s, i, n), {}, {i}, {});
  }

  /** The running call gives one up. */
  ghost function Put(s: State, i: nat): State
    requires Sized(s) && i < NINODE && s.xi[i] > 0 && s.inodes[i].ref > 0
  {
    s.(inodes := s.inodes[i := s.inodes[i].(ref := s.inodes[i].ref - 1)], xi := s.xi[i := s.xi[i] - 1])
  }

  lemma PutOk(s: State, i: nat)
    requires Inv(s) && i < NINODE && Sized(s) && s.xi[i] > 0
    ensures s.inodes[i].ref > 0 && Inv(Put(s, i))
  {
    hide Inv, Unique;
    Facts(s, {}, {i}, {});
    UniqueKeep(s.inodes, i, s.inodes[i].(ref := s.inodes[i].ref - 1));
    TouchOk(s, Put(s, i), {}, {i}, {});
  }

  /** One more reference to a file, held by the running call. */
  ghost function Duped(s: State, f: nat): State
    requires Sized(s) && f < NFILE
  {
    s.(files := s.files[f := s.files[f].(ref := s.files[f].ref + 1)], xf := s.xf[f := s.xf[f] + 1])
  }

  lemma DupedOk(s: State, f: nat)
    requires Inv(s) && f < NFILE
    ensures Inv(Duped(s, f))
  {
    hide Inv, Unique;
    Facts(s, {f}, {}, {});
    TouchOk(s, Duped(s, f), {f}, {}, {});
  }

  /** The running call gives one up, not the last. */
  ghost function Undup(s: State, f: nat): State
    requires Sized(s) && f < NFILE && s.xf[f] > 0 && s.files[f].ref > 0
  {
    s.(files := s.files[f := s.files[f].(ref := s.files[f].ref - 1)], xf := s.xf[f := s.xf[f] - 1])
  }

  /** The last reference to a file goes, and its hold on its inode passes to the running call. */
  ghost function Closed(s: State, f: nat): State
    requires Sized(s) && f < NFILE && s.xf[f] > 0 && (s.files[f].kind != None ==> s.files[f].ip < NINODE)
  {
    var i := s.files[f].ip;
    var t := s.(files := s.files[f := s.files[f].(ref := 0, kind := None)], xf := s.xf[f := s.xf[f] - 1]);
    if s.files[f].kind == None then t
    else t.(holders := s.holders[i := s.holders[i] - {FileHolder(f)}], xi := s.xi[i := s.xi[i] + 1])
  }

  lemma UndupOk(s: State, f: nat)
    requires Inv(s) && f < NFILE && Sized(s) && s.xf[f] > 0 && s.files[f].ref > 1
    ensures Inv(Undup(s, f))
  {
    hide Inv, Unique;
    Facts(s, {f}, {}, {});
    TouchOk(s, Undup(s, f), {f}, {}, {});
  }

  lemma ClosedOk(s: State, f: nat)
    requires Inv(s) && f < NFILE && Sized(s) && s.xf[f] > 0 && s.files[f].ref == 1
    ensures (s.files[f].kind != None ==> s.files[f].ip < NINODE) && Inv(Closed(s, f))
  {
    hide Inv, Unique;
    Facts(s, {f}, {}, {});
    var i := s.files[f].ip;
    if s.files[f].kind == None {
      TouchOk(s, Closed(s, f), {f}, {}, {});
    } else {
      Facts(s, {f}, {i}, {});
      TouchOk(s, Closed(s, f), {f}, {i}, {});
    }
  }

  /** The call's reference to an inode becomes that of a new file. */
  ghost function Attached(s: State, f: nat, ff: File): State
    requires Sized(s) && f < NFILE && ff.ip < NINODE && s.xi[ff.ip] > 0
  {
    var i := ff.ip;
    s.(files := s.files[f := ff], holders := s.holders[i := s.holders[i] + {FileHolder(f)}],
       xi := s.xi[i := s.xi[i] - 1])
  }

  lemma AttachedOk(s: State, f: nat, ff: File)
    requires Inv(s) && Sized(s) && f < NFILE && ff.ip < NINODE && s.xi[ff.ip] > 0 && s.files[f].ref == ff.ref > 0 &&
             s.files[f].kind == None && ff.kind != None
    ensures Inv(Attached(s, f, ff))
  {
    hide Inv, Unique;
    Facts(s, {f}, {ff.ip}, {});
    TouchOk(s, Attached(s, f, ff), {f}, {ff.ip}, {});
  }

  /** The call's reference to a file becomes that of a descriptor. */
  ghost function Placed(s: State, p: nat, fd: nat, f: nat): State
    requires Sized(s) && f < NFILE && s.xf[f] > 0 && p < |s.procs| && fd < NOFILE
  {
    s.(procs := s.procs[p := s.procs[p].(ofile := s.procs[p].ofile[fd := To(f)])],
       slots := s.slots[f := s.slots[f] + {(p, fd)}], xf := s.xf[f := s.xf[f] - 1])
  }

  lemma PlacedOk(s: State, p: nat, fd: nat, f: nat)
    requires Inv(s) && Sized(s) && f < NFILE && s.xf[f] > 0 && p < |s.procs| && fd < NOFILE &&
             s.procs[p].ofile[fd] == NoFile
    ensures Inv(Placed(s, p, fd, f))
  {
    hide Inv, Unique;
    Facts(s, {f}, {}, {p});
    assert (p, fd) !in s.slots[f];
    TouchOk(s, Placed(s, p, fd, f), {f}, {}, {p});
  }

  /** A descriptor's reference passes to the running call. */
  ghost function Cleared(s: State, p: nat, fd: nat, f: nat): State
    requires Sized(s) && f < NFILE && p < |s.procs| && fd < NOFILE
  {
    s.(procs := s.procs[p := s.procs[p].(ofile := s.procs[p].ofile[fd := NoFile])],
       slots := s.slots[f := s.slots[f] - {(p, fd)}], xf := s.xf[f := s.xf[f] + 1])
  }

  lemma ClearedOk(s: State, p: nat, fd: nat, f: nat)
    requires Inv(s) && Sized(s) && p < |s.procs| && fd < NOFILE && s.procs[p].ofile[fd] == To(f)
    ensures f < NFILE && Inv(Cleared(s, p, fd, f))
  {
    hide Inv, Unique;
    Facts(s, {}, {}, {p});
    Facts(s, {f}, {}, {p});
    TouchOk(s, Cleared(s, p, fd, f), {f}, {}, {p});
  }

  /** The call's reference to an inode becomes that of a working directory, and back. */
  ghost function Entered(s: State, p: nat, i: nat): State
    requires Sized(s) && i < NINODE && s.xi[i] > 0 && p < |s.procs|
  {
    s.(procs := s.procs[p := s.procs[p].(cwd := In(i))], holders := s.holders[i := s.holders[i] + {CwdHolder(p)}],
       xi := s.xi[i := s.xi[i] - 1])
  }

  lemma EnteredOk(s: State, p: nat, i: nat)
    requires Inv(s) && Sized(s) && i < NINODE && s.xi[i] > 0 && p < |s.procs| && s.procs[p].cwd == NoDir
    ensures Inv(Entered(s, p, i))
  {
    hide Inv, Unique;
    Facts(s, {}, {i}, {p});
    TouchOk(s, Entered(s, p, i), {}, {i}, {p});
  }

  ghost function Departed(s: State, p: nat, i: nat): State
    requires Sized(s) && i < NINODE && p < |s.procs|
  {
    s.(procs := s.procs[p := s.procs[p].(cwd := NoDir)], holders := s.holders[i := s.holders[i] - {CwdHolder(p)}],
       xi := s.xi[i := s.xi[i] + 1])
  }

  lemma DepartedOk(s: State, p: nat, i: nat)
    requires Inv(s) && Sized(s) && p < |s.procs| && s.procs[p].cwd == In(i)
    ensures i < NINODE && Inv(Departed(s, p, i))
  {
    hide Inv, Unique;
    Facts(s, {}, {}, {p});
    Facts(s, {}, {i}, {p});
    TouchOk(s, Departed(s, p, i), {}, {i}, {p});
  }

  /** The invariant at the things a step touches. */
  lemma Facts(s: State, fs: set<nat>, ns: set<nat>, ps: set<nat>)
    requires Inv(s)
    ensures Sized(s) && Unique(s.inodes) && (forall f :: f in fs && f < NFILE ==> FileOk(s, f))
    ensures (forall i :: i in ns && i < NINODE ==> InodeOk(s, i)) &&
            forall p :: p in ps && p < |s.procs| ==> ProcOk(s, p)
  {
    hide FileOk, InodeOk, ProcOk, Unique;
  }

  const ROOTDEV := 1
  const ROOTINO := 1

  type Name = seq<int>

  datatype Type = Dir | Plain | Device(major: int)

  /** The image: the type of each inode that has one, the directories' entries, and the directories
      whose size passes their last block, where the search for a missing name reads too far. */
  datatype Image = Image(types: map<nat, Type>, entries: map<(nat, Name), nat>, long: set<nat>)

  datatype Found = Missing | Halts | At(inum: nat)

  /** Where a path leads. ilock panics at an inode without a type, dirlookup at a short read. */
  function Resolve(g: Image, inum: nat, names: seq<Name>): Found
    decreases |names|
  {
    if names == [] then At(inum)
    else if inum !in g.types then Halts
    else if g.types[inum] != Dir then Missing
    else if (inum, names[0]) !in g.entries then (if inum in g.long then Halts else Missing)
    else Resolve(g, g.entries[(inum, names[0])], names[1..])
  }

  datatype Walk = Panic | NoEntry | Got(i: nat)

  /** Every count of `ns` is as in `ms`, but for one more at `i`. */
  ghost predicate OneMore(ms: seq<Inode>, ns: seq<Inode>, i: nat) {
    |ms| == |ns| == NINODE && forall j :: 0 <= j < NINODE ==> ns[j].ref == ms[j].ref + if j == i then 1 else 0
  }

  /** There is no entry for the inode and no unused one. */
  ghost predicate Full(inodes: seq<Inode>, dev: nat, inum: nat) {
    forall j :: 0 <= j < |inodes| ==> inodes[j].ref > 0 && !(inodes[j].dev == dev && inodes[j].inum == inum)
  }

  /** Every path can be followed: the root and whatever an entry leads to have a type, and no directory
      reads short. */
  ghost predicate Sound(g: Image) {
    ROOTINO in g.types && (forall d :: d in g.entries ==> g.entries[d] in g.types) && g.long == {}
  }

  /** Entries in use stay those of their inodes; one newly in use is for an inode of the image. */
  ghost predicate Steady(ms: seq<Inode>, ns: seq<Inode>, g: Image) {
    |ms| == |ns| == NINODE &&
    forall j :: 0 <= j < NINODE ==>
      (ms[j].ref > 0 ==> Same(ns[j], ms[j])) &&
      (ms[j].ref == 0 && ns[j].ref > 0 ==> ns[j].dev == ROOTDEV && (Sound(g) ==> ns[j].inum in g.types))
  }

  /** Entries stay those of their inodes, and none comes into use. */
  ghost predicate Kept(ms: seq<Inode>, ns: seq<Inode>) {
    |ms| == |ns| == NINODE &&
    forall j :: 0 <= j < NINODE ==> Same(ns[j], ms[j]) && (ms[j].ref == 0 ==> ns[j].ref == 0)
  }

  lemma KeptSteady(ms: seq<Inode>, ns: seq<Inode>, g: Image)
    requires Kept(ms, ns)
    ensures Steady(ms, ns, g)
  {
  }

  /** The table is full, and of other inodes than one that is asked for. */
  ghost predicate Crowded(inodes: seq<Inode>, g: Image) {
    exists x: nat :: Full(inodes, ROOTDEV, x) && (Sound(g) ==> x in g.types)
  }

  lemma FromRoot(ms: seq<Inode>, ns: seq<Inode>, g: Image, ok: bool, i: nat)
    requires |ms| == |ns| == NINODE && (!ok ==> ns == ms && Full(ms, ROOTDEV, ROOTINO))
    requires ok ==> i < NINODE && ns == ms[i := ns[i]] && ns[i].dev == ROOTDEV && ns[i].inum == ROOTINO
    requires ok && ms[i].ref > 0 ==> Same(ns[i], ms[i])
    ensures Steady(ms, ns, g) && (!ok ==> Crowded(ns, g))
  {
  }

  lemma SteadyPut(ms: seq<Inode>, ns: seq<Inode>, os: seq<Inode>, g: Image)
    requires Steady(ms, ns, g) && Kept(ns, os) && forall j :: 0 <= j < NINODE && ms[j].ref > 0 ==> ns[j].ref > 0
    ensures Steady(ms, os, g)
  {
  }

  lemma Leads(g: Image, d: (nat, Name))
    requires d in g.entries
    ensures Sound(g) ==> g.entries[d] in g.types
  {
  }

  lemma IsCrowded(inodes: seq<Inode>, g: Image, x: nat)
    requires Full(inodes, ROOTDEV, x) && (Sound(g) ==> x in g.types)
    ensures Crowded(inodes, g)
  {
  }

  ghost predicate AllInUse(inodes: seq<Inode>) { forall j :: 0 <= j < |inodes| ==> inodes[j].ref > 0 }

  const NDEV := 10

  /** The walk, or locking the inode it leads to, panics. */
  predicate Broken(found: Found, g: Image) { found.Halts? || (found.At? && found.inum !in g.types) }

  /** The path leads nowhere, or to something that cannot be opened so. */
  predicate Refused(found: Found, mode: Mode, g: Image) {
    found.Missing? ||
    (found.At? && found.inum in g.types &&
     var t := g.types[found.inum]; (t.Dir? && !ReadOnly(mode)) || (t.Device? && !(0 <= t.major < NDEV)))
  }

  /** Every file, or every descriptor, is in use. */
  ghost predicate NoRoom(files: seq<File>, ofile: seq<Fd>) {
    (forall f :: 0 <= f < |files| ==> files[f].ref > 0) || forall k :: 0 <= k < |ofile| ==> ofile[k].To?
  }

  datatype Opened = Stopped | Failed | Fd(fd: nat)

  /** The lowest file not in use, from `k` on. */
  function FirstFree(files: seq<File>, k: nat): (f: nat)
    requires k <= |files|
    ensures k <= f <= |files| && (f < |files| ==> files[f].ref == 0) && forall g :: k <= g < f ==> files[g].ref > 0
    decreases |files| - k
  {
    if k == |files| || files[k].ref == 0 then k else FirstFree(files, k + 1)
  }

  lemma FirstIs(files: seq<File>, f: nat, k: nat)
    requires k <= f < |files| && files[f].ref == 0 && forall g :: k <= g < f ==> files[g].ref > 0
    ensures FirstFree(files, k) == f
  {
  }

  /** A file on an inode of type `t`: a device's file is the device's, any other an inode's, and only a
      device's can be written. */
  predicate FitsType(ff: File, t: Type) {
    && (ff.kind == OnDevice <==> t.Device?) && (ff.kind == OnInode <==> !t.Device?)
    && (t.Device? ==> ff.major == t.major) && (ff.writable ==> t.Device?)
  }

  /** What may be done with a file opened so. */
  predicate FitsMode(ff: File, t: Type, mode: Mode) {
    ff.readable == !mode.wronly && ff.writable == (t.Device? && (mode.wronly || mode.rdwr))
  }

  /** What open fills in. */
  function Opening(ff: File, ip: nat, t: Type, mode: Mode): (r: File)
    ensures r.ref == ff.ref && r.ip == ip && r.kind != None && FitsType(r, t) && FitsMode(r, t, mode)
  {
    var r := ff.(ip := ip, readable := !mode.wronly, writable := t.Device? && (mode.wronly || mode.rdwr));
    if t.Device? then r.(kind := OnDevice, major := t.major) else r.(kind := OnInode)
  }

  /** The first free file is now in use, on inode `ip` of type `t`. */
  ghost predicate NewFile(files: seq<File>, files': seq<File>, ip: nat, t: Type, mode: Mode) {
    |files| == |files'| == NFILE && FirstFree(files, 0) < NFILE &&
    files'[FirstFree(files, 0)].ref == 1 && files'[FirstFree(files, 0)].ip == ip &&
    FitsType(files'[FirstFree(files, 0)], t) && FitsMode(files'[FirstFree(files, 0)], t, mode) &&
    forall f :: 0 <= f < NFILE && f != FirstFree(files, 0) ==> files'[f] == files[f]
  }

  /** The lowest unused descriptor. */
  ghost predicate Lowest(ofile: seq<Fd>, fd: int) {
    0 <= fd < |ofile| && ofile[fd] == NoFile && forall k :: 0 <= k < fd ==> ofile[k].To?
  }

  /** An open that succeeds: a new file in the lowest unused descriptor, on the inode the path leads to,
      which has one more reference, and of the kind of that inode's type. */
  ghost predicate OpenedAs(files: seq<File>, files': seq<File>, inodes: seq<Inode>, inodes': seq<Inode>,
                           procs: seq<Proc>, procs': seq<Proc>, p: nat, fd: nat, found: Found, mode: Mode, g: Image)
  {
    p < |procs| && Lowest(procs[p].ofile, fd) && found.At? && found.inum in g.types &&
    (exists ip: nat ::
       ip < NINODE && OneMore(inodes, inodes', ip) && NewFile(files, files', ip, g.types[found.inum], mode) &&
       found.inum == inodes'[ip].inum) &&
    procs' == procs[p := procs[p].(ofile := procs[p].ofile[fd := To(FirstFree(files, 0))])]
  }

  lemma SameCounts(inodes: seq<Inode>, g: Image)
    ensures |inodes| == NINODE ==> OneMore(inodes, inodes, NINODE) && Steady(inodes, inodes, g)
  {
  }

  /** A descriptor's file is in use. */
  lemma LiveFd(s: State, p: nat, fd: nat)
    requires Inv(s) && p < |s.procs| && Sized(s) && fd < NOFILE && s.procs[p].ofile[fd].To?
    ensures s.procs[p].ofile[fd].f < NFILE && s.files[s.procs[p].ofile[fd].f].ref > 0
  {
    hide Inv, Unique;
    Facts(s, {}, {}, {p});
    Facts(s, {s.procs[p].ofile[fd].f}, {}, {});
    assert s.slots[s.procs[p].ofile[fd].f] != {};
  }

  /** A working directory is referenced. */
  lemma CwdRef(s: State, p: nat)
    requires Inv(s) && p < |s.procs| && s.procs[p].cwd.In?
    ensures s.procs[p].cwd.i < NINODE && Sized(s) && s.inodes[s.procs[p].cwd.i].ref > 0
  {
    hide Inv, Unique;
    Facts(s, {}, {}, {p});
    Facts(s, {}, {s.procs[p].cwd.i}, {});
    assert s.holders[s.procs[p].cwd.i] != {};
  }

  /** Every file in use is of the kind of the inode it is on. */
  ghost predicate Kinds(files: seq<File>, inodes: seq<Inode>, g: Image) {
    forall f :: 0 <= f < |files| && files[f].ref > 0 && files[f].kind != None ==>
      files[f].ip < |inodes| && inodes[files[f].ip].inum in g.types &&
      FitsType(files[f], g.types[inodes[files[f].ip].inum])
  }

  /** Only counts of files changed, and files went out of use. */
  ghost predicate FilesKept(fs: seq<File>, gs: seq<File>) {
    |fs| == |gs| == NFILE &&
    forall f :: 0 <= f < NFILE && gs[f].ref > 0 ==> fs[f].ref > 0 && gs[f] == fs[f].(ref := gs[f].ref)
  }

  /** An inode with a file on it is referenced. */
  lemma FileRef(s: State, f: nat)
    requires Inv(s) && f < |s.files| && s.files[f].kind != None
    ensures s.files[f].ip < |s.inodes| && s.inodes[s.files[f].ip].ref > 0
  {
    hide Inv, Unique;
    Facts(s, {f}, {}, {});
    Facts(s, {}, {s.files[f].ip}, {});
    assert s.holders[s.files[f].ip] != {};
  }

  lemma KindsKept(s: State, s': State, g: Image)
    requires Inv(s) && Kinds(s.files, s.inodes, g) && FilesKept(s.files, s'.files) && Steady(s.inodes, s'.inodes, g)
    ensures Kinds(s'.files, s'.inodes, g)
  {
    hide Inv;
    forall f | 0 <= f < |s'.files| && s'.files[f].ref > 0 && s'.files[f].kind != None
      ensures s'.files[f].ip < |s'.inodes| && s'.inodes[s'.files[f].ip].inum in g.types &&
              FitsType(s'.files[f], g.types[s'.inodes[s'.files[f].ip].inum])
    {
      FileRef(s, f);
    }
  }

  lemma KindsOpened(s: State, s': State, p: nat, fd: nat, found: Found, mode: Mode, g: Image)
    requires Inv(s) && Kinds(s.files, s.inodes, g) && Steady(s.inodes, s'.inodes, g)
    requires OpenedAs(s.files, s'.files, s.inodes, s'.inodes, s.procs, s'.procs, p, fd, found, mode, g)
    ensures Kinds(s'.files, s'.inodes, g)
  {
    hide Inv;
    var n := FirstFree(s.files, 0);
    hide FirstFree;
    forall f | 0 <= f < |s'.files| && s'.files[f].ref > 0 && s'.files[f].kind != None
      ensures s'.files[f].ip < |s'.inodes| && s'.inodes[s'.files[f].ip].inum in g.types &&
              FitsType(s'.files[f], g.types[s'.inodes[s'.files[f].ip].inum])
    {
      if f != n { FileRef(s, f); }
    }
  }

  lemma Opens(s: State, s': State, p: nat, fd: nat, found: Found, mode: Mode, g: Image)
    requires Inv(s) && Steady(s.inodes, s'.inodes, g)
    requires OpenedAs(s.files, s'.files, s.inodes, s'.inodes, s.procs, s'.procs, p, fd, found, mode, g)
    ensures p < |s.procs| && p < |s'.procs| && s'.procs == s.procs[p := s'.procs[p]]
    ensures s'.procs[p].cwd == s.procs[p].cwd
    ensures Kinds(s.files, s.inodes, g) ==> Kinds(s'.files, s'.inodes, g)
  {
    hide Inv, Steady, Kinds, NewFile, FirstFree, OneMore;
    if Kinds(s.files, s.inodes, g) { KindsOpened(s, s', p, fd, found, mode, g); }
  }

  lemma FilesSame(fs: seq<File>)
    ensures |fs| == NFILE ==> FilesKept(fs, fs)
  {
  }

  /** What a process can ask for. */
  datatype Call =
    | OpenCall(p: nat, absolute: bool, names: seq<Name>, mode: Mode, creates: bool)
    | ExecCall(p: nat, absolute: bool, names: seq<Name>)
    | DupCall(p: nat, fd: int) | CloseCall(p: nat, fd: int) | ForkCall(p: nat, child: nat) | ExitCall(p: nat)

  /** A slot has a process with a working directory, or nothing. */
  ghost predicate Lives(procs: seq<Proc>) {
    forall p :: 0 <= p < |procs| ==> procs[p].cwd.In? || procs[p] == Blank()
  }

  /** There is no chdir: every process is in the root directory. */
  ghost predicate Rooted(procs: seq<Proc>, inodes: seq<Inode>) {
    forall p :: 0 <= p < |procs| && procs[p].cwd.In? ==>
      procs[p].cwd.i < |inodes| && inodes[procs[p].cwd.i].dev == ROOTDEV && inodes[procs[p].cwd.i].inum == ROOTINO
  }

  /** What holds between calls. */
  ghost predicate Settled(s: State) { Quiet(s) && Lives(s.procs) && Rooted(s.procs, s.inodes) }

  /** The call follows a path that panics. */
  predicate Breaks(call: Call, g: Image) {
    match call
    case OpenCall(_, _, names, _, creates) => !creates && Broken(Resolve(g, ROOTINO, names), g)
    case ExecCall(_, _, names) => Broken(Resolve(g, ROOTINO, names), g)
    case _ => false
  }

  ghost predicate SameFiles(s: State, s': State) { s'.procs == s.procs && s'.files == s.files }

  /** What a call that returns `r` has done to the descriptors and the files they name. */
  ghost predicate Effect(call: Call, r: int, s: State, s': State, g: Image) {
    if call.p >= |s.procs| || s.procs[call.p].cwd == NoDir || |s.procs[call.p].ofile| != NOFILE then
      r == -1 && SameFiles(s, s')
    else
      var x := s.procs[call.p];
      match call
      case OpenCall(p, _, names, mode, creates) =>
        var found := Resolve(g, ROOTINO, names);
        if r == -1 then SameFiles(s, s') && (creates || Refused(found, mode, g) || NoRoom(s.files, x.ofile))
        else
          && r >= 0 && !creates && !Refused(found, mode, g)
          && OpenedAs(s.files, s'.files, s.inodes, s'.inodes, s.procs, s'.procs, p, r, found, mode, g)
      case ExecCall(_, _, names) => SameFiles(s, s') && (r == -1 <==> Resolve(g, ROOTINO, names).Missing?)
      case DupCall(p, fd) =>
        if r == -1 then SameFiles(s, s') && !(0 <= fd < NOFILE && x.ofile[fd].To? && NoFile in x.ofile)
        else
          && FilesKept(s.files, s'.files) && 0 <= fd < NOFILE && x.ofile[fd].To? && Lowest(x.ofile, r)
          && s'.procs == s.procs[p := x.(ofile := x.ofile[r := x.ofile[fd]])]
      case CloseCall(p, fd) =>
        if r == -1 then SameFiles(s, s') && !(0 <= fd < NOFILE && x.ofile[fd].To?)
        else
          && FilesKept(s.files, s'.files) && 0 <= fd < NOFILE && x.ofile[fd].To?
          && s'.procs == s.procs[p := x.(ofile := x.ofile[fd := NoFile])]
      case ForkCall(p, child) =>
        if r == -1 then SameFiles(s, s') && !(child < |s.procs| && s.procs[child].cwd == NoDir)
        else FilesKept(s.files, s'.files) && child < |s.procs| && s'.procs == s.procs[child := x]
      case ExitCall(p) => r == 0 && FilesKept(s.files, s'.files) && s'.procs == s.procs[p := Blank()]
  }

  /** A run of calls that return: their results, and the tables before and after each. */
  ghost predicate IsRun(calls: seq<Call>, rs: seq<int>, states: seq<State>, g: Image) {
    && |rs| == |calls| && |states| == |calls| + 1 && (forall i :: 0 <= i < |states| ==> Settled(states[i]))
    && forall i :: 0 <= i < |calls| ==> Effect(calls[i], rs[i], states[i], states[i + 1], g)
  }

  lemma AtRoot(s: State, p: nat)
    requires Settled(s) && p < |s.procs| && s.procs[p].cwd.In?
    ensures s.procs[p].cwd.i < |s.inodes| && s.inodes[s.procs[p].cwd.i].inum == ROOTINO
  {
  }

  /** One slot changed, to nothing or to a process with the working directory of another. */
  lemma StillSettled(s: State, s': State, g: Image, p: nat, q: nat, x: Proc)
    requires Settled(s) && Quiet(s') && Steady(s.inodes, s'.inodes, g) && p < |s.procs| && q < |s.procs|
    requires s'.procs == s.procs[q := x] && (x == Blank() || (x.cwd.In? && x.cwd == s.procs[p].cwd))
    ensures Settled(s')
  {
    hide Inv;
    forall k | 0 <= k < |s'.procs| && s'.procs[k].cwd.In?
      ensures var i := s'.procs[k].cwd.i;
              i < |s'.inodes| && s'.inodes[i].dev == ROOTDEV && s'.inodes[i].inum == ROOTINO
    {
      CwdRef(s, if k == q then p else k);
    }
  }

  /** Entries in use are of inodes of the image. */
  ghost predicate Typed(inodes: seq<Inode>, g: Image) {
    forall j :: 0 <= j < |inodes| && inodes[j].ref > 0 ==> inodes[j].dev == ROOTDEV && inodes[j].inum in g.types
  }

  lemma StaysTyped(ms: seq<Inode>, ns: seq<Inode>, g: Image)
    requires Sound(g) && Typed(ms, g) && Steady(ms, ns, g)
    ensures Typed(ns, g)
  {
  }

  /** On a sound image no path panics. */
  lemma {:induction false} SoundWalk(g: Image, inum: nat, names: seq<Name>)
    requires Sound(g) && inum in g.types
    ensures !Broken(Resolve(g, inum, names), g)
    decreases |names|
  {
    if names != [] && g.types[inum] == Dir && (inum, names[0]) in g.entries {
      SoundWalk(g, g.entries[(inum, names[0])], names[1..]);
    }
  }

  lemma SoundCall(g: Image, call: Call)
    requires Sound(g)
    ensures !Breaks(call, g)
  {
    hide Resolve, Broken;
    match call
    case OpenCall(_, _, names, _, _) => SoundWalk(g, ROOTINO, names);
    case ExecCall(_, _, names) => SoundWalk(g, ROOTINO, names);
    case _ =>
  }

  ghost function Inums(inodes: seq<Inode>): set<nat> {
    if inodes == [] then {} else Inums(inodes[..|inodes| - 1]) + {inodes[|inodes| - 1].inum}
  }

  lemma {:induction false} InumsAre(inodes: seq<Inode>, g: Image)
    requires Unique(inodes) && AllInUse(inodes) && Typed(inodes, g)
    ensures |Inums(inodes)| == |inodes| && Inums(inodes) <= g.types.Keys
    ensures forall x :: x in Inums(inodes) ==> exists j :: 0 <= j < |inodes| && inodes[j].inum == x
    decreases |inodes|
  {
    if inodes != [] {
      var n := |inodes| - 1;
      var ms, x := inodes[..n], inodes[n].inum;
      forall j | 0 <= j < n ensures ms[j].inum != x { assert !Same(inodes[j], inodes[n]); }
      InumsAre(ms, g);
      hide Unique, AllInUse, Typed;
      assert x !in Inums(ms) && Inums(inodes) == Inums(ms) + {x};
      assert forall y :: y in Inums(ms) ==> exists j :: 0 <= j < n && inodes[j].inum == y;
    }
  }

  /** A full table of distinct inodes of the image, and one more asked for. */
  lemma CrowdedIs(inodes: seq<Inode>, g: Image)
    requires |inodes| == NINODE && Unique(inodes) && Sound(g) && Typed(inodes, g) && Crowded(inodes, g)
    ensures |g.types| > NINODE
  {
    var x: nat :| Full(inodes, ROOTDEV, x) && x in g.types;
    InumsAre(inodes, g);
    assert x !in Inums(inodes);
    assert Inums(inodes) + {x} <= g.types.Keys;
    Subset(Inums(inodes) + {x}, g.types.Keys);
  }

  lemma {:induction false} Subset(a: set<nat>, b: set<nat>)
    requires a <= b
    ensures |a| <= |b|
    decreases a
  {
    if a != {} {
      var x :| x in a;
      Subset(a - {x}, b - {x});
    }
  }

  /** With no process left, nothing is referenced. */
  lemma NothingLeft(s: State, f: nat, i: nat)
    requires Quiet(s) && Lives(s.procs) && f < NFILE && i < NINODE
    requires forall p :: 0 <= p < |s.procs| ==> s.procs[p].cwd == NoDir
    ensures s.files[f].ref == 0 && s.inodes[i].ref == 0
  {
    forall g: nat | g < NFILE ensures s.files[g].ref == 0 {
      Counts(s, g, i);
      forall x: (nat, nat) ensures x !in s.slots[g] {
        assert x == (x.0, x.1);
      }
      assert s.slots[g] == {};
    }
    Counts(s, f, i);
    forall h ensures h !in s.holders[i] {
      assert if h.FileHolder? then h == FileHolder(h.f) else h == CwdHolder(h.p);
    }
    assert s.holders[i] == {};
  }

  lemma QuietInv(s: State)
    requires Quiet(s)
    ensures Inv(s)
  {
  }

  class Tables {
    var files: seq<File>
    var inodes: seq<Inode>
    var procs: seq<Proc>
    ghost var slots: seq<set<(nat, nat)>>
    ghost var holders: seq<set<Holder>>
    ghost var xf: seq<nat>
    ghost var xi: seq<nat>

    ghost function St(): State
      reads this
    {
      State(files, inodes, procs, slots, holders, xf, xi)
    }

    constructor (n: nat)
      ensures Quiet(St()) && procs == seq(n, _ => Blank())
      ensures (forall i :: 0 <= i < NINODE ==> inodes[i].ref == 0) && forall f :: 0 <= f < |files| ==> files[f].ref == 0
    {
      files, inodes := seq(NFILE, _ => File(0, None, 0, 0, false, false)), seq(NINODE, _ => Inode(0, 0, 0));
      procs := seq(n, _ => Blank());
      slots, holders := seq(NFILE, _ => {}), seq(NINODE, _ => {});
      xf, xi := seq(NFILE, _ => 0), seq(NINODE, _ => 0);
    }

    /** The entry for an inode, with a reference for the caller; panics just when there is none and
        no free entry. */
    method Iget(dev: nat, inum: nat) returns (ok: bool, i: nat)
      requires Inv(St())
      modifies this`inodes, this`xi
      ensures Inv(St()) && |old(xi)| == NINODE
      ensures ok ==> i < NINODE && OneMore(old(inodes), inodes, i) && xi == old(xi)[i := old(xi)[i] + 1]
      ensures ok ==>
                inodes[i].dev == dev && inodes[i].inum == inum &&
                forall j :: 0 <= j < NINODE && j != i ==> inodes[j] == old(inodes)[j]
      ensures ok ==>
                i < |old(inodes)| &&
                (old(inodes)[i].ref > 0 ==> old(inodes)[i].dev == dev && old(inodes)[i].inum == inum)
      ensures !ok ==> inodes == old(inodes) && xi == old(xi) && Full(inodes, dev, inum)
    {
      hide Inv, Unique;
      Facts(St(), {}, {}, {});
      var empty: nat := NINODE;
      i := 0;
      while i < NINODE
        invariant i <= NINODE && inodes == old(inodes) && xi == old(xi) && empty <= NINODE &&
                  (empty < NINODE ==> inodes[empty].ref == 0)
        invariant forall j :: 0 <= j < i ==> !(inodes[j].ref > 0 && inodes[j].dev == dev && inodes[j].inum == inum)
        invariant empty == NINODE ==> forall j :: 0 <= j < i ==> inodes[j].ref > 0
      {
        if inodes[i].ref > 0 && inodes[i].dev == dev && inodes[i].inum == inum {
          HeldOk(St(), i, inodes[i].(ref := inodes[i].ref + 1));
          inodes := inodes[i := inodes[i].(ref := inodes[i].ref + 1)];
          xi := xi[i := xi[i] + 1];
          return true, i;
        }
        if empty == NINODE && inodes[i].ref == 0 { empty := i; }
        i := i + 1;
      }
      if empty == NINODE { return false, 0; }
      HeldOk(St(), empty, Inode(1, dev, inum));
      inodes := inodes[empty := Inode(1, dev, inum)];
      xi := xi[empty := xi[empty] + 1];
      return true, empty;
    }

    method Idup(i: nat)
      requires Inv(St()) && i < NINODE && i < |inodes| && inodes[i].ref > 0
      modifies this`inodes, this`xi
      ensures Inv(St()) && |old(xi)| == |old(inodes)| == NINODE && xi == old(xi)[i := old(xi)[i] + 1]
      ensures inodes == old(inodes)[i := old(inodes)[i].(ref := old(inodes)[i].ref + 1)] && Kept(old(inodes), inodes)
    {
      hide Inv, Unique;
      Facts(St(), {}, {}, {});
      HeldOk(St(), i, inodes[i].(ref := inodes[i].ref + 1));
      inodes := inodes[i := inodes[i].(ref := inodes[i].ref + 1)];
      xi := xi[i := xi[i] + 1];
    }

    method Iput(i: nat)
      requires Inv(St()) && i < |xi| && xi[i] > 0
      modifies this`inodes, this`xi
      ensures Inv(St()) && |old(xi)| == |old(inodes)| == NINODE && i < NINODE && old(inodes)[i].ref > 0 &&
              xi == old(xi)[i := old(xi)[i] - 1]
      ensures inodes == old(inodes)[i := old(inodes)[i].(ref := old(inodes)[i].ref - 1)] && Kept(old(inodes), inodes)
    {
      hide Inv, Unique;
      Facts(St(), {}, {}, {});
      PutOk(St(), i);
      inodes := inodes[i := inodes[i].(ref := inodes[i].ref - 1)];
      xi := xi[i := xi[i] - 1];
    }

    /** A reference to one inode traded for one to another. */
    method Exchange(ip: nat, inum: nat, ghost g: Image, ghost inodes0: seq<Inode>, ghost xi0: seq<nat>)
      returns (ok: bool, next: nat)
      requires Steady(inodes0, inodes, g) && (Sound(g) ==> inum in g.types)
      requires Inv(St()) && ip < NINODE && |xi0| == |xi| == NINODE && xi == xi0[ip := xi0[ip] + 1] &&
               OneMore(inodes0, inodes, ip)
      modifies this`inodes, this`xi
      ensures Inv(St()) && Steady(inodes0, inodes, g) && (!ok ==> Full(inodes, ROOTDEV, inum))
      ensures ok ==>
                next < NINODE && xi == xi0[next := xi0[next] + 1] && OneMore(inodes0, inodes, next) &&
                inodes[next].inum == inum
    {
      hide Inv, Sound;
      ok, next := Iget(ROOTDEV, inum);
      assert Steady(inodes0, inodes, g);
      if ok { Iput(ip); }
    }

    /** Where a walk begins: the root for an absolute path, else the process's directory. */
    method Start(p: nat, absolute: bool, g: Image) returns (ok: bool, ip: nat)
      requires Inv(St()) && p < |procs| && procs[p].cwd.In?
      modifies this`inodes, this`xi
      ensures Inv(St()) && |old(xi)| == |old(inodes)| == |inodes| == NINODE && old(procs)[p].cwd.i < NINODE
      ensures Steady(old(inodes), inodes, g) && (!ok ==> Crowded(inodes, g))
      ensures ok ==> ip < NINODE && xi == old(xi)[ip := old(xi)[ip] + 1] && OneMore(old(inodes), inodes, ip)
      ensures ok ==> inodes[ip].inum == if absolute then ROOTINO else old(inodes)[old(procs)[p].cwd.i].inum
    {
      hide Inv, Steady, Crowded, Sound;
      Facts(St(), {}, {}, {p});
      if absolute {
        ok, ip := Iget(ROOTDEV, ROOTINO);
        FromRoot(old(inodes), inodes, g, ok, ip);
      } else {
        ok, ip := true, procs[p].cwd.i;
        CwdRef(St(), p);
        Idup(ip);
        KeptSteady(old(inodes), inodes, g);
      }
    }

    /** Walks a path: the caller gets a reference to the inode it leads to; if it leads nowhere no
        count has changed. */
    method Namex(p: nat, absolute: bool, names: seq<Name>, g: Image) returns (r: Walk)
      requires Inv(St()) && p < |procs| && procs[p].cwd.In?
      modifies this`inodes, this`xi
      ensures Inv(St()) && |old(xi)| == |old(inodes)| == NINODE && old(procs)[p].cwd.i < NINODE
      ensures r.NoEntry? ==> xi == old(xi) && OneMore(old(inodes), inodes, NINODE)
      ensures r.Got? ==> r.i < NINODE && xi == old(xi)[r.i := old(xi)[r.i] + 1] && OneMore(old(inodes), inodes, r.i)
      ensures var start := if absolute then ROOTINO else old(inodes)[old(procs)[p].cwd.i].inum;
              && (r.Panic? ==> Crowded(inodes, g) || Resolve(g, start, names) == Halts)
              && (r.NoEntry? ==> Resolve(g, start, names) == Missing)
              && (r.Got? ==> r.i < |inodes| && Resolve(g, start, names) == At(inodes[r.i].inum))
      ensures Steady(old(inodes), inodes, g)
    {
      hide Inv, Steady, Crowded, Sound;
      var ok: bool, ip: nat := Start(p, absolute, g);
      if !ok { return Panic; }
      ghost var start := inodes[ip].inum;
      var k := 0;
      assert names[0..] == names;
      while k < |names|
        invariant 0 <= k <= |names| && Inv(St()) && ip < NINODE && |xi| == NINODE &&
                  xi == old(xi)[ip := old(xi)[ip] + 1] && OneMore(old(inodes), inodes, ip)
        invariant Resolve(g, start, names) == Resolve(g, inodes[ip].inum, names[k..]) && Steady(old(inodes), inodes, g)
      {
        var inum := inodes[ip].inum;
        if inum !in g.types { return Panic; }
        ghost var inodes1 := inodes;
        if g.types[inum] != Dir {
          Iput(ip);
          SteadyPut(old(inodes), inodes1, inodes, g);
          return NoEntry;
        }
        if (inum, names[k]) !in g.entries {
          if inum in g.long { return Panic; }
          Iput(ip);
          SteadyPut(old(inodes), inodes1, inodes, g);
          return NoEntry;
        }
        Leads(g, (inum, names[k]));
        assert names[k..][1..] == names[k + 1..];
        ok, ip := Exchange(ip, g.entries[(inum, names[k])], g, old(inodes), old(xi));
        if !ok {
          IsCrowded(inodes, g, g.entries[(inum, names[k])]);
          return Panic;
        }
        k := k + 1;
      }
      return Got(ip);
    }

    /** The first unused file, with a reference for the caller. */
    method Filealloc() returns (ok: bool, f: nat)
      requires Inv(St())
      modifies this`files, this`xf
      ensures Inv(St()) && |old(files)| == |old(xf)| == NFILE
      ensures ok ==> f < NFILE && forall g :: 0 <= g < f ==> old(files)[g].ref > 0
      ensures ok ==>
                old(files)[f].ref == 0 && old(files)[f].kind == None &&
                files == old(files)[f := old(files)[f].(ref := 1)] && xf == old(xf)[f := old(xf)[f] + 1]
      ensures !ok ==> files == old(files) && xf == old(xf) && forall g :: 0 <= g < NFILE ==> files[g].ref > 0
    {
      hide Inv;
      Facts(St(), {}, {}, {});
      f := 0;
      while f < NFILE
        invariant f <= NFILE && files == old(files) && xf == old(xf) && forall g :: 0 <= g < f ==> files[g].ref > 0
      {
        if files[f].ref == 0 {
          Facts(St(), {f}, {}, {});
          DupedOk(St(), f);
          files := files[f := files[f].(ref := 1)];
          xf := xf[f := xf[f] + 1];
          return true, f;
        }
        f := f + 1;
      }
      return false, 0;
    }

    /** The lowest unused descriptor. */
    method FreeFd(p: nat) returns (fd: int)
      requires p < |procs| && |procs[p].ofile| == NOFILE
      ensures fd == -1 ==> forall k :: 0 <= k < NOFILE ==> procs[p].ofile[k].To?
      ensures fd != -1 ==>
                0 <= fd < NOFILE && procs[p].ofile[fd] == NoFile && forall k :: 0 <= k < fd ==> procs[p].ofile[k].To?
    {
      fd := 0;
      while fd < NOFILE
        invariant 0 <= fd <= NOFILE && forall k :: 0 <= k < fd ==> procs[p].ofile[k].To?
      {
        if procs[p].ofile[fd] == NoFile { return; }
        fd := fd + 1;
      }
      fd := -1;
    }

    /** Drops a reference to a file the caller holds; the last one releases the inode. */
    method Fileclose(f: nat)
      requires Inv(St()) && f < |xf| && xf[f] > 0
      modifies this`files, this`xf, this`inodes, this`xi, this`holders
      ensures Inv(St()) && |old(files)| == |old(xf)| == NFILE && f < NFILE && old(files)[f].ref > 0
      ensures xf == old(xf)[f := old(xf)[f] - 1] && xi == old(xi)
      ensures var ff := old(files)[f];
              files == old(files)[f := if ff.ref > 1 then ff.(ref := ff.ref - 1) else ff.(ref := 0, kind := None)]
      ensures old(files)[f].ref > 1 || old(files)[f].kind == None ==> inodes == old(inodes)
      ensures old(files)[f].ref == 1 && old(files)[f].kind != None ==>
                old(files)[f].ip < NINODE && OneMore(inodes, old(inodes), old(files)[f].ip)
      ensures Kept(old(inodes), inodes)
    {
      hide Inv;
      Facts(St(), {f}, {}, {});
      if files[f].ref > 1 {
        UndupOk(St(), f);
        files := files[f := files[f].(ref := files[f].ref - 1)];
        xf := xf[f := xf[f] - 1];
        return;
      }
      ClosedOk(St(), f);
      var ff := files[f];
      files := files[f := ff.(ref := 0, kind := None)];
      xf := xf[f := xf[f] - 1];
      if ff.kind != None {
        holders := holders[ff.ip := holders[ff.ip] - {FileHolder(f)}];
        xi := xi[ff.ip := xi[ff.ip] + 1];
        assert St() == Closed(old(St()), f);
        Iput(ff.ip);
      }
    }

    /** sys_dup. */
    method Dup(p: nat, fd: int) returns (r: int)
      requires Quiet(St()) && p < |procs|
      modifies this
      ensures Quiet(St()) && |old(procs)[p].ofile| == NOFILE && |procs| == |old(procs)| && FilesKept(old(files), files)
      ensures r == -1 ==>
                St() == old(St()) &&
                (0 <= fd < NOFILE && procs[p].ofile[fd].To? ==> forall k :: 0 <= k < NOFILE ==> procs[p].ofile[k].To?)
      ensures r != -1 ==> 0 <= fd < NOFILE && Lowest(old(procs)[p].ofile, r) && old(procs)[p].ofile[fd].To?
      ensures r != -1 ==>
                procs == old(procs)[p := old(procs)[p].(ofile := old(procs)[p].ofile[r := old(procs)[p].ofile[fd]])] &&
                inodes == old(inodes)
    {
      hide Inv;
      Facts(St(), {}, {}, {p});
      if fd < 0 || fd >= NOFILE || procs[p].ofile[fd] == NoFile { return -1; }
      var f := procs[p].ofile[fd].f;
      r := FreeFd(p);
      if r < 0 { return -1; }
      LiveFd(St(), p, fd);
      DupedOk(St(), f);
      PlacedOk(Duped(St(), f), p, r, f);
      procs := procs[p := procs[p].(ofile := procs[p].ofile[r := To(f)])];
      files := files[f := files[f].(ref := files[f].ref + 1)];
      slots := slots[f := slots[f] + {(p, r)}];
      assert St() == Placed(Duped(old(St()), f), p, r, f);
    }

    /** sys_close. */
    method Close(p: nat, fd: int) returns (r: int)
      requires Quiet(St()) && p < |procs|
      modifies this
      ensures Quiet(St()) && |old(procs)[p].ofile| == NOFILE && FilesKept(old(files), files)
      ensures r == -1 ==> St() == old(St()) && !(0 <= fd < NOFILE && procs[p].ofile[fd].To?)
      ensures r != -1 ==>
                0 <= fd < NOFILE && old(procs)[p].ofile[fd].To? &&
                procs == old(procs)[p := old(procs)[p].(ofile := old(procs)[p].ofile[fd := NoFile])]
      ensures Kept(old(inodes), inodes)
    {
      hide Inv;
      Facts(St(), {}, {}, {p});
      if fd < 0 || fd >= NOFILE || procs[p].ofile[fd] == NoFile { return -1; }
      var f := procs[p].ofile[fd].f;
      ClearedOk(St(), p, fd, f);
      procs := procs[p := procs[p].(ofile := procs[p].ofile[fd := NoFile])];
      slots := slots[f := slots[f] - {(p, fd)}];
      xf := xf[f := xf[f] + 1];
      assert St() == Cleared(old(St()), p, fd, f);
      Fileclose(f);
      r := 0;
    }

    /** sys_open, after its arguments are read: a failed open changes no count, a successful one
        hands the walk's reference to the new file. */
    method Open(p: nat, absolute: bool, names: seq<Name>, mode: Mode, creates: bool, g: Image) returns (r: Opened)
      requires Quiet(St()) && p < |procs| && procs[p].cwd.In?
      modifies this
      ensures Inv(St()) && (!r.Stopped? ==> Quiet(St()))
      ensures |old(inodes)| == NINODE && |old(procs)[p].ofile| == NOFILE && old(procs)[p].cwd.i < NINODE
      ensures r.Failed? ==> files == old(files) && procs == old(procs) && OneMore(old(inodes), inodes, NINODE)
      ensures var found := Resolve(g, if absolute then ROOTINO else old(inodes)[old(procs)[p].cwd.i].inum, names);
              (r.Failed? ==> creates || Refused(found, mode, g) || NoRoom(old(files), old(procs)[p].ofile)) &&
              (r.Stopped? ==> !creates && (Crowded(inodes, g) || Broken(found, g))) &&
              (!r.Stopped? ==> creates || !Broken(found, g)) &&
              (r.Fd? ==> !creates && !Refused(found, mode, g))
      ensures r.Fd? ==>
                var found := Resolve(g, if absolute then ROOTINO else old(inodes)[old(procs)[p].cwd.i].inum, names);
                OpenedAs(old(files), files, old(inodes), inodes, old(procs), procs, p, r.fd, found, mode, g)
      ensures Steady(old(inodes), inodes, g)
    {
      hide Inv, Steady, Crowded, Kept;
      Facts(St(), {}, {}, {p});
      CwdRef(St(), p);
      if creates { SameCounts(inodes, g); return Failed; }
      var w := Namex(p, absolute, names, g);
      ghost var inodes1 := inodes;
      if w.Panic? { return Stopped; }
      if w.NoEntry? { return Failed; }
      var ip := w.i;
      Facts(St(), {}, {}, {p});
      var inum := inodes[ip].inum;
      if inum !in g.types { return Stopped; }
      var t := g.types[inum];
      if (t.Dir? && !ReadOnly(mode)) || (t.Device? && !(0 <= t.major < NDEV)) {
        Iput(ip);
        SteadyPut(old(inodes), inodes1, inodes, g);
        return Failed;
      }
      r := Install(p, ip, t, mode);
      SteadyPut(old(inodes), inodes1, inodes, g);
    }

    /** The end of sys_open: a file and a descriptor for the inode, or its reference given up. */
    method Install(p: nat, ip: nat, t: Type, mode: Mode) returns (r: Opened)
      requires Inv(St()) && p < |procs| && ip < NINODE && |xi| == NINODE && xi[ip] == 1 &&
               (forall i :: 0 <= i < NINODE && i != ip ==> xi[i] == 0)
      requires |xf| == |files| == NFILE &&
               forall f :: 0 <= f < NFILE ==> xf[f] == 0 && (files[f].ref > 0 ==> files[f].kind != None)
      modifies this
      ensures !r.Stopped? && Quiet(St()) && |old(inodes)| == NINODE && Kept(old(inodes), inodes)
      ensures r.Failed? ==> files == old(files) && procs == old(procs) && OneMore(inodes, old(inodes), ip)
      ensures r.Failed? ==> NoRoom(files, procs[p].ofile)
      ensures r.Fd? ==>
                |old(procs)[p].ofile| == NOFILE && Lowest(old(procs)[p].ofile, r.fd) && inodes == old(inodes)
      ensures r.Fd? ==>
                NewFile(old(files), files, ip, t, mode) &&
                var f := FirstFree(old(files), 0);
                procs == old(procs)[p := old(procs)[p].(ofile := old(procs)[p].ofile[r.fd := To(f)])]
    {
      hide Inv, FitsType, FitsMode, Opening;
      Facts(St(), {}, {}, {p});
      var ok, f := Filealloc();
      if !ok {
        Iput(ip);
        return Failed;
      }
      var fd := FreeFd(p);
      if fd < 0 {
        Fileclose(f);
        Iput(ip);
        return Failed;
      }
      FirstIs(old(files), f, 0);
      Bind(p, fd, f, Opening(files[f], ip, t, mode));
      return Fd(fd);
    }

    /** The new file goes on the inode and into the descriptor. */
    method Bind(p: nat, fd: nat, f: nat, ff: File)
      requires Inv(St()) && Sized(St()) && p < |procs| && fd < NOFILE && procs[p].ofile[fd] == NoFile && f < NFILE &&
               xf[f] > 0
      requires ff.ip < NINODE && xi[ff.ip] > 0 && files[f].kind == None && files[f].ref == ff.ref > 0 && ff.kind != None
      modifies this`procs, this`slots, this`xf, this`files, this`holders, this`xi
      ensures Inv(St()) && files == old(files)[f := ff] && xf == old(xf)[f := old(xf)[f] - 1] &&
              xi == old(xi)[ff.ip := old(xi)[ff.ip] - 1]
      ensures procs == old(procs)[p := old(procs)[p].(ofile := old(procs)[p].ofile[fd := To(f)])]
    {
      hide Inv;
      PlacedOk(St(), p, fd, f);
      ghost var s1 := Placed(St(), p, fd, f);
      AttachedOk(s1, f, ff);
      procs := procs[p := procs[p].(ofile := procs[p].ofile[fd := To(f)])];
      slots := slots[f := slots[f] + {(p, fd)}];
      xf := xf[f := xf[f] - 1];
      files := files[f := ff];
      holders := holders[ff.ip := holders[ff.ip] + {FileHolder(f)}];
      xi := xi[ff.ip := xi[ff.ip] - 1];
      assert St() == Attached(s1, f, ff);
    }

    /** kfork's part: the child gets the parent's descriptors and working directory, each with a
        reference of its own. */
    method Fork(p: nat, child: nat)
      requires Quiet(St()) && p < |procs| && child < |procs| && p != child && procs[p].cwd.In?
      requires procs[child] == Blank()
      modifies this
      ensures Quiet(St()) && procs == old(procs)[child := old(procs)[p]] && Kept(old(inodes), inodes)
      ensures FilesKept(old(files), files)
    {
      hide Inv;
      Facts(St(), {}, {}, {p});
      var fd := 0;
      while fd < NOFILE
        invariant 0 <= fd <= NOFILE && Quiet(St()) && |procs| == |old(procs)| && |old(procs)[p].ofile| == NOFILE &&
                  |procs[child].ofile| == NOFILE
        invariant procs == old(procs)[child := procs[child]] && procs[child].cwd == NoDir && inodes == old(inodes)
        invariant FilesKept(old(files), files)
        invariant forall k ::
                    0 <= k < NOFILE ==> procs[child].ofile[k] == if k < fd then old(procs)[p].ofile[k] else NoFile
      {
        Facts(St(), {}, {}, {});
        if procs[p].ofile[fd].To? { Share(p, child, fd); }
        fd := fd + 1;
      }
      CwdRef(St(), p);
      var i := procs[p].cwd.i;
      Idup(i);
      EnteredOk(St(), child, i);
      ghost var s1 := St();
      procs := procs[child := procs[child].(cwd := In(i))];
      holders := holders[i := holders[i] + {CwdHolder(child)}];
      xi := xi[i := xi[i] - 1];
      assert St() == Entered(s1, child, i);
      assert procs[child].ofile == old(procs)[p].ofile;
    }

    method Share(p: nat, child: nat, fd: nat)
      requires Quiet(St()) && p < |procs| && child < |procs| && p != child && fd < NOFILE &&
               |procs[p].ofile| == |procs[child].ofile| == NOFILE
      requires procs[p].ofile[fd].To? && procs[child].ofile[fd] == NoFile
      modifies this`procs, this`files, this`slots
      ensures Quiet(St()) && FilesKept(old(files), files) &&
              procs ==
                old(procs)[child := old(procs)[child].(ofile := old(procs)[child].ofile[fd := old(procs)[p].ofile[fd]])]
    {
      hide Inv;
      Facts(St(), {}, {}, {});
      var f := procs[p].ofile[fd].f;
      LiveFd(St(), p, fd);
      DupedOk(St(), f);
      PlacedOk(Duped(St(), f), child, fd, f);
      files := files[f := files[f].(ref := files[f].ref + 1)];
      procs := procs[child := procs[child].(ofile := procs[child].ofile[fd := To(f)])];
      slots := slots[f := slots[f] + {(child, fd)}];
      assert St() == Placed(Duped(old(St()), f), child, fd, f);
    }

    /** kexit's part: every descriptor is closed and the working directory released. */
    method Exit(p: nat)
      requires Quiet(St()) && p < |procs| && procs[p].cwd.In?
      modifies this
      ensures Quiet(St()) && procs == old(procs)[p := Blank()] && Kept(old(inodes), inodes)
      ensures FilesKept(old(files), files)
    {
      hide Inv;
      Facts(St(), {}, {}, {p});
      var fd := 0;
      while fd < NOFILE
        invariant 0 <= fd <= NOFILE && Quiet(St()) && |procs| == |old(procs)| &&
                  |old(procs)[p].ofile| == |procs[p].ofile| == NOFILE
        invariant procs == old(procs)[p := procs[p]] && procs[p].cwd == old(procs)[p].cwd && Kept(old(inodes), inodes)
        invariant FilesKept(old(files), files)
        invariant forall k :: 0 <= k < NOFILE ==> procs[p].ofile[k] == if k < fd then NoFile else old(procs)[p].ofile[k]
      {
        if procs[p].ofile[fd].To? { var _ := Close(p, fd); }
        fd := fd + 1;
      }
      CwdRef(St(), p);
      var i := procs[p].cwd.i;
      DepartedOk(St(), p, i);
      ghost var s1 := St();
      procs := procs[p := procs[p].(cwd := NoDir)];
      holders := holders[i := holders[i] - {CwdHolder(p)}];
      xi := xi[i := xi[i] + 1];
      assert St() == Departed(s1, p, i);
      Iput(i);
      assert procs[p].ofile == Blank().ofile;
    }

    /** userinit's part: the first process starts in the root directory. */
    method Userinit(p: nat) returns (ok: bool)
      requires Quiet(St()) && p < |procs| && procs[p].cwd == NoDir
      modifies this
      ensures |old(inodes)| == NINODE
      ensures ok ==> Quiet(St()) && |procs| == |old(procs)| && procs[p].cwd.In? && procs[p].cwd.i < NINODE
      ensures ok ==> procs == old(procs)[p := old(procs)[p].(cwd := procs[p].cwd)] && files == old(files)
      ensures ok ==> OneMore(old(inodes), inodes, procs[p].cwd.i) && forall g :: Steady(old(inodes), inodes, g)
      ensures ok ==> inodes[procs[p].cwd.i].dev == ROOTDEV && inodes[procs[p].cwd.i].inum == ROOTINO
      ensures !ok ==> St() == old(St()) && Full(inodes, ROOTDEV, ROOTINO)
    {
      hide Inv, Unique;
      Facts(St(), {}, {}, {});
      var i;
      ok, i := Iget(ROOTDEV, ROOTINO);
      Facts(St(), {}, {}, {});
      if ok {
        EnteredOk(St(), p, i);
        ghost var s1 := St();
        procs := procs[p := procs[p].(cwd := In(i))];
        holders := holders[i := holders[i] + {CwdHolder(p)}];
        xi := xi[i := xi[i] - 1];
        assert St() == Entered(s1, p, i);
      }
    }

    /** kexec's part: the walk's reference is given up once the program is read. */
    method Exec(p: nat, absolute: bool, names: seq<Name>, g: Image) returns (r: Opened)
      requires Quiet(St()) && p < |procs| && procs[p].cwd.In?
      modifies this`inodes, this`xi
      ensures |old(inodes)| == NINODE && old(procs)[p].cwd.i < NINODE
      ensures !r.Stopped? ==> Quiet(St()) && OneMore(old(inodes), inodes, NINODE)
      ensures var found := Resolve(g, if absolute then ROOTINO else old(inodes)[old(procs)[p].cwd.i].inum, names);
              (r.Stopped? ==> Crowded(inodes, g) || Broken(found, g)) && (!r.Stopped? ==> !Broken(found, g)) &&
              (r.Failed? <==> !r.Stopped? && found.Missing?)
      ensures Inv(St()) && Steady(old(inodes), inodes, g)
    {
      hide Inv, Steady, Crowded, Kept;
      Facts(St(), {}, {}, {p});
      var w := Namex(p, absolute, names, g);
      ghost var inodes1 := inodes;
      if w.Panic? { return Stopped; }
      if w.NoEntry? { return Failed; }
      Facts(St(), {}, {}, {p});
      if inodes[w.i].inum !in g.types { return Stopped; }
      Iput(w.i);
      SteadyPut(old(inodes), inodes1, inodes, g);
      Facts(St(), {}, {}, {});
      return Fd(0);
    }

    /** One call, if its process exists: it panics only over a path or a full table, and over such a
        path for sure. */
    method Apply(call: Call, g: Image) returns (halted: bool, r: int)
      requires Settled(St())
      modifies this
      ensures Inv(St()) && Steady(old(inodes), inodes, g)
      ensures !halted ==> Settled(St()) && |procs| == |old(procs)|
      ensures halted ==> Breaks(call, g) || Crowded(inodes, g)
      ensures Breaks(call, g) && call.p < |old(procs)| && old(procs)[call.p].cwd.In? ==> halted
      ensures !halted && Kinds(old(files), old(inodes), g) ==> Kinds(files, inodes, g)
      ensures !halted ==> Effect(call, r, old(St()), St(), g)
    {
      hide Inv, Unique, OneMore, Refused, NoRoom, OpenedAs, Resolve, Broken, Steady, Kept, Crowded, Lives, Rooted,
           Kinds, FilesKept;
      Facts(St(), {}, {}, {});
      FilesSame(files);
      SameCounts(inodes, g);
      halted, r := false, -1;
      if call.p >= |procs| || procs[call.p].cwd == NoDir { return; }
      AtRoot(St(), call.p);
      match call {
        case OpenCall(p, absolute, names, mode, creates) =>
          var got := Open(p, absolute, names, mode, creates, g);
          halted := got.Stopped?;
          if got.Fd? {
            r := got.fd;
            ghost var start := if absolute then ROOTINO else old(inodes)[old(procs)[p].cwd.i].inum;
            Opens(old(St()), St(), p, got.fd, Resolve(g, start, names), mode, g);
          }
          if !halted { StillSettled(old(St()), St(), g, p, p, procs[p]); }
          if !got.Failed? { return; }
        case ExecCall(p, absolute, names) =>
          var got := Exec(p, absolute, names, g);
          halted := got.Stopped?;
          r := if got.Failed? then -1 else 0;
          if !halted { StillSettled(old(St()), St(), g, p, p, procs[p]); }
        case DupCall(p, fd) =>
          r := Dup(p, fd);
          StillSettled(old(St()), St(), g, p, p, procs[p]);
        case CloseCall(p, fd) =>
          r := Close(p, fd);
          KeptSteady(old(inodes), inodes, g);
          StillSettled(old(St()), St(), g, p, p, procs[p]);
        case ForkCall(p, child) => r := Child(p, child, g);
        case ExitCall(p) =>
          Exit(p);
          r := 0;
          KeptSteady(old(inodes), inodes, g);
          StillSettled(old(St()), St(), g, p, p, Blank());
      }
      if !halted && Kinds(old(files), old(inodes), g) { KindsKept(old(St()), St(), g); }
    }

    /** kfork, if the child's slot has no process. */
    method Child(p: nat, child: nat, ghost g: Image) returns (r: int)
      requires Settled(St()) && p < |procs| && procs[p].cwd.In?
      modifies this
      ensures r == -1 ==> St() == old(St()) && !(child < |procs| && procs[child].cwd == NoDir)
      ensures r != -1 ==> child < |old(procs)| && procs == old(procs)[child := old(procs)[p]]
      ensures Settled(St()) && |procs| == |old(procs)| && Steady(old(inodes), inodes, g) && FilesKept(old(files), files)
    {
      hide Inv, Unique, Steady, Kept;
      Facts(St(), {}, {}, {});
      FilesSame(files);
      SameCounts(inodes, g);
      r := -1;
      if child < |procs| && procs[child].cwd == NoDir {
        r := child;
        Fork(p, child);
        KeptSteady(old(inodes), inodes, g);
        StillSettled(old(St()), St(), g, p, child, procs[p]);
      }
    }

    /** Any calls of any processes: each that returns has the effect of that call, and between calls every
        count is the number of its holders, up to the first that panics. */
    method Run(calls: seq<Call>, g: Image) returns (halted: bool, rs: seq<int>, ghost states: seq<State>)
      requires Settled(St())
      modifies this
      ensures Inv(St()) && |rs| <= |calls| && (halted <==> |rs| < |calls|)
      ensures IsRun(calls[..|rs|], rs, states, g) && states[0] == old(St())
      ensures !halted ==> states[|rs|] == St() && |procs| == |old(procs)|
      ensures halted ==> Breaks(calls[|rs|], g) || Crowded(inodes, g)
      ensures Sound(g) && Typed(old(inodes), g) ==> Typed(inodes, g)
      ensures !halted && Kinds(old(files), old(inodes), g) ==> Kinds(files, inodes, g)
    {
      hide Inv, Unique, Breaks, Quiet, Lives, Rooted, Steady, Sound, Typed, Crowded, Kinds, Effect;
      QuietInv(St());
      rs, states := [], [St()];
      while |rs| < |calls|
        invariant |rs| <= |calls| && Inv(St()) && Settled(St()) && |procs| == |old(procs)|
        invariant IsRun(calls[..|rs|], rs, states, g) && states[0] == old(St()) && states[|rs|] == St()
        invariant Sound(g) && Typed(old(inodes), g) ==> Typed(inodes, g)
        invariant Kinds(old(files), old(inodes), g) ==> Kinds(files, inodes, g)
        decreases |calls| - |rs|
      {
        ghost var inodes1 := inodes;
        var r;
        halted, r := Apply(calls[|rs|], g);
        if Sound(g) && Typed(inodes1, g) { StaysTyped(inodes1, inodes, g); }
        if halted { return; }
        rs, states := rs + [r], states + [St()];
      }
      halted := false;
    }
  }

  /** Process `init`, without open files, is the only one. */
  ghost predicate OnlyInit(s: State, n: nat, init: nat) {
    && |s.procs| == n && init < n && s.procs[init].cwd.In?
    && (forall p :: 0 <= p < n ==> s.procs[p].ofile == Blank().ofile && (p != init ==> s.procs[p].cwd == NoDir))
    && forall f :: 0 <= f < |s.files| ==> s.files[f].ref == 0
  }

  /** From the empty tables: the first process, then any calls. Unless one panics, every file's
      count is the number of descriptors naming it and every inode's the number of files and
      working directories on it; and when no process is left, no count is. A call panics only over
      the path it follows or over a full table; if every path of the image can be followed and the
      image has no more inodes than the table, none does. */
  method Boot(n: nat, init: nat, calls: seq<Call>, g: Image)
    returns (t: Tables, halted: bool, rs: seq<int>, ghost states: seq<State>)
    requires init < n
    ensures |rs| <= |calls| && (halted <==> |rs| < |calls|)
    ensures IsRun(calls[..|rs|], rs, states, g) && OnlyInit(states[0], n, init)
    ensures !halted ==>
              Settled(t.St()) && states[|rs|] == t.St() && |t.procs| == n && Kinds(t.files, t.inodes, g)
    ensures !halted && (forall p :: 0 <= p < n ==> t.procs[p].cwd == NoDir) ==>
              (forall f :: 0 <= f < NFILE ==> t.files[f].ref == 0) &&
              forall i :: 0 <= i < NINODE ==> t.inodes[i].ref == 0
    ensures halted ==> Breaks(calls[|rs|], g) || Crowded(t.inodes, g)
    ensures Sound(g) && |g.types| <= NINODE ==> !halted
  {
    hide Inv, Unique, Breaks, Sound, Crowded, Steady;
    t := new Tables(n);
    ghost var s := t.St();
    var ok := t.Userinit(init);
    assert ok by { assert s.inodes[0].ref == 0; }
    assert Sound(g) ==> Typed(t.inodes, g) by {
      if Sound(g) { StaysTyped(s.inodes, t.inodes, g); }
    }
    halted, rs, states := t.Run(calls, g);
    if halted && Sound(g) {
      Facts(t.St(), {}, {}, {});
      SoundCall(g, calls[|rs|]);
      CrowdedIs(t.inodes, g);
    }
    if !halted { Facts(t.St(), {}, {}, {}); }
    if !halted && forall p :: 0 <= p < n ==> t.procs[p].cwd == NoDir {
      forall f | 0 <= f < NFILE ensures t.files[f].ref == 0 { NothingLeft(t.St(), f, 0); }
      forall i | 0 <= i < NINODE ensures t.inodes[i].ref == 0 { NothingLeft(t.St(), 0, i); }
    }
  }
}
