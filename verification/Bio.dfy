/** The buffer cache: a doubly linked list of buffers by last release, shared by callers that each
    use one locked buffer at a time (kernel/fs/bio.c). The list links are `next` and `prev`, with
    index NBUF for the list head. */
module Bio {

  const NBUF := 30
  const HEAD := 30

  /** `n` follows `b` going down by stamp through the listed buffers `s`. */
  ghost predicate Below(stamp: seq<nat>, s: set<nat>, b: nat, n: nat)
    requires |stamp| == NBUF && forall c :: c in s ==> c < NBUF
  {
    if b in s then
      (n in s && stamp[n] < stamp[b] && forall c :: c in s ==> stamp[c] <= stamp[n] || stamp[b] <= stamp[c]) ||
      (n == HEAD && forall c :: c in s ==> stamp[b] <= stamp[c])
    else
      (n in s && forall c :: c in s ==> stamp[c] <= stamp[n]) || (n == HEAD && s == {})
  }

  /** The list links the buffers in `s` in order of their stamps, and its two directions agree. */
  ghost predicate ListOk(next: seq<nat>, prev: seq<nat>, stamp: seq<nat>, s: set<nat>) {
    |next| == |prev| == NBUF + 1 && |stamp| == NBUF && (forall c :: c in s ==> c < NBUF) &&
    (forall b, c :: b in s && c in s && b != c ==> stamp[b] != stamp[c]) &&
    (forall b :: b in s || b == HEAD ==> NodeOk(next, prev, stamp, s, b))
  }

  ghost predicate NodeOk(next: seq<nat>, prev: seq<nat>, stamp: seq<nat>, s: set<nat>, b: nat)
    requires |next| == |prev| == NBUF + 1 && |stamp| == NBUF && (forall c :: c in s ==> c < NBUF) && b <= NBUF
  {
    (next[b] in s || next[b] == HEAD) && (prev[b] in s || prev[b] == HEAD) &&
    Below(stamp, s, b, next[b]) && prev[next[b]] == b && next[prev[b]] == b
  }

  /** Buffer `b` put in after the head. */
  function PushNext(next: seq<nat>, b: nat): (r: seq<nat>)
    requires |next| == NBUF + 1 && b < NBUF
    ensures |r| == NBUF + 1 &&
            forall i :: 0 <= i <= NBUF ==> r[i] == if i == HEAD then b else if i == b then next[HEAD] else next[i]
  {
    next[b := next[HEAD]][HEAD := b]
  }

  function PushPrev(next: seq<nat>, prev: seq<nat>, b: nat): (r: seq<nat>)
    requires |next| == |prev| == NBUF + 1 && b < NBUF && next[HEAD] <= NBUF
    ensures |r| == NBUF + 1 &&
            forall i :: 0 <= i <= NBUF ==> r[i] == if i == next[HEAD] then b else if i == b then HEAD else prev[i]
  {
    prev[b := HEAD][next[HEAD] := b]
  }

  ghost predicate Sized(next: seq<nat>, prev: seq<nat>, stamp: seq<nat>, s: set<nat>) {
    |next| == |prev| == NBUF + 1 && |stamp| == NBUF && forall c :: c in s ==> c < NBUF
  }

  lemma PushNode(next: seq<nat>, prev: seq<nat>, stamp: seq<nat>, s: set<nat>, x: nat, t: nat, b: nat)
    requires Sized(next, prev, stamp, s) && x < NBUF && x !in s && (forall c :: c in s ==> stamp[c] < t)
    requires NodeOk(next, prev, stamp, s, HEAD) && (b in s || b == HEAD) && NodeOk(next, prev, stamp, s, b)
    ensures NodeOk(PushNext(next, x), PushPrev(next, prev, x), stamp[x := t], s + {x}, b)
    ensures NodeOk(PushNext(next, x), PushPrev(next, prev, x), stamp[x := t], s + {x}, x)
  {
    hide PushNext, PushPrev;
  }

  /** An unlisted buffer goes to the front with the highest stamp. */
  lemma PushOk(next: seq<nat>, prev: seq<nat>, stamp: seq<nat>, s: set<nat>, x: nat, t: nat)
    requires ListOk(next, prev, stamp, s) && x < NBUF && x !in s && (forall c :: c in s ==> stamp[c] < t)
    ensures next[HEAD] <= NBUF && ListOk(PushNext(next, x), PushPrev(next, prev, x), stamp[x := t], s + {x})
  {
    hide NodeOk, PushNext, PushPrev;
    InList(next, prev, stamp, s, HEAD);
    var next', prev', stamp', s' := PushNext(next, x), PushPrev(next, prev, x), stamp[x := t], s + {x};
    forall b | b in s' || b == HEAD ensures NodeOk(next', prev', stamp', s', b) {
      PushNode(next, prev, stamp, s, x, t, if b == x then HEAD else b);
    }
  }

  lemma InList(next: seq<nat>, prev: seq<nat>, stamp: seq<nat>, s: set<nat>, b: nat)
    requires Sized(next, prev, stamp, s) && b <= NBUF && NodeOk(next, prev, stamp, s, b)
    ensures next[b] <= NBUF && prev[b] <= NBUF && (next[b] in s || next[b] == HEAD) && (prev[b] in s || prev[b] == HEAD)
  {
  }

  lemma UnlinkNode(next: seq<nat>, prev: seq<nat>, stamp: seq<nat>, s: set<nat>, x: nat, b: nat)
    requires Sized(next, prev, stamp, s) && x in s && (b in s || b == HEAD) && b != x
    requires forall c, d :: c in s && d in s && c != d ==> stamp[c] != stamp[d]
    requires NodeOk(next, prev, stamp, s, x) && prev[x] <= NBUF && next[x] <= NBUF && NodeOk(next, prev, stamp, s, b)
    requires NodeOk(next, prev, stamp, s, prev[x]) && NodeOk(next, prev, stamp, s, next[x])
    ensures NodeOk(next[prev[x] := next[x]], prev[next[x] := prev[x]], stamp, s - {x}, b)
  {
    var p, n, s' := prev[x], next[x], s - {x};
    if b == p { UnlinkBelow(stamp, s, p, x, n); } else { assert Below(stamp, s', b, next[b]); }
  }

  lemma UnlinkBelow(stamp: seq<nat>, s: set<nat>, p: nat, x: nat, n: nat)
    requires |stamp| == NBUF && (forall c :: c in s ==> c < NBUF) && x in s && (p in s || p == HEAD)
    requires Below(stamp, s, p, x) && Below(stamp, s, x, n) &&
             forall c, d :: c in s && d in s && c != d ==> stamp[c] != stamp[d]
    ensures Below(stamp, s - {x}, p, n)
  {
  }

  /** A listed buffer is taken out. */
  lemma UnlinkOk(next: seq<nat>, prev: seq<nat>, stamp: seq<nat>, s: set<nat>, x: nat)
    requires ListOk(next, prev, stamp, s) && x in s
    ensures next[x] <= NBUF && prev[x] <= NBUF &&
            ListOk(next[prev[x] := next[x]], prev[next[x] := prev[x]], stamp, s - {x})
  {
    hide NodeOk;
    InList(next, prev, stamp, s, x);
    var p, n := prev[x], next[x];
    var next', prev', s' := next[p := n], prev[n := p], s - {x};
    forall b | b in s' || b == HEAD ensures NodeOk(next', prev', stamp, s', b) {
      UnlinkNode(next, prev, stamp, s, x, b);
    }
  }

  function Repeat<T>(n: nat, v: T): (s: seq<T>)
    ensures |s| == n && forall i :: 0 <= i < n ==> s[i] == v
  {
    seq(n, _ => v)
  }

  function Upto(n: nat): (s: set<nat>)
    ensures forall b: nat :: b in s <==> b < n
  {
    if n == 0 then {} else Upto(n - 1) + {n - 1}
  }

  type Bytes = seq<int>

  datatype Buf = Buf(dev: nat, blockno: nat, valid: bool, refcnt: nat, data: Bytes)

  /** A caller's dealings with its buffer: waiting for its lock, holding it (and having seen its
      contents), or about to drop its reference. */
  datatype Use = Waiting(b: nat, dev: nat, block: nat) | Holding(b: nat, dev: nat, block: nat, read: bool)
    | Dropping(b: nat, dev: nat, block: nat)

  datatype Lock = Free | By(u: nat)

  type Disk = map<(nat, nat), Bytes>

  /** The cache: `on` has the callers of each buffer, and `dirty` the buffers changed since they were last written. */
  datatype Cache = Cache(bufs: seq<Buf>, owner: seq<Lock>, users: map<nat, Use>, disk: Disk, on: seq<set<nat>>,
                         dirty: set<nat>)

  ghost predicate BufOk(k: Cache, b: nat)
    requires |k.bufs| == |k.owner| == |k.on| == NBUF && b < NBUF
  {
    var f := k.bufs[b];
    f.refcnt == |k.on[b]| &&
    (f.valid && b !in k.dirty ==> (f.dev, f.blockno) in k.disk && f.data == k.disk[(f.dev, f.blockno)]) &&
    (b in k.dirty ==> f.valid && f.dev != 0) &&
    (k.owner[b].By? ==> k.owner[b].u in k.on[b] && k.owner[b].u in k.users && k.users[k.owner[b].u].Holding?) &&
    (forall u :: u in k.on[b] ==> u in k.users && k.users[u].b == b)
  }

  ghost predicate UseOk(k: Cache, u: nat)
    requires |k.bufs| == |k.owner| == |k.on| == NBUF && u in k.users
  {
    var x := k.users[u];
    x.b < NBUF && u in k.on[x.b] && x.dev != 0 && (x.dev, x.block) in k.disk &&
    k.bufs[x.b].dev == x.dev && k.bufs[x.b].blockno == x.block &&
    (x.Holding? ==> k.owner[x.b] == By(u) && (x.read ==> k.bufs[x.b].valid))
  }

  ghost predicate Same(f: Buf, g: Buf) { f.dev == g.dev && f.blockno == g.blockno }

  ghost predicate CacheOk(k: Cache) {
    |k.bufs| == |k.owner| == |k.on| == NBUF &&
    (forall b :: 0 <= b < NBUF ==> BufOk(k, b)) && (forall u :: u in k.users ==> UseOk(k, u)) && Unique(k.bufs)
  }

  /** No two buffers hold the same block of a device. */
  ghost predicate Unique(bufs: seq<Buf>) {
    forall b, c :: 0 <= b < |bufs| && 0 <= c < |bufs| && b != c && Same(bufs[b], bufs[c]) ==> bufs[b].dev == 0
  }

  lemma UniqueSame(bufs: seq<Buf>, b: nat, f: Buf)
    requires Unique(bufs) && b < |bufs| && (Same(bufs[b], f) || forall c :: 0 <= c < |bufs| ==> !Same(bufs[c], f))
    ensures Unique(bufs[b := f])
  {
    var bufs' := bufs[b := f];
    forall c, d | 0 <= c < |bufs| && 0 <= d < |bufs| && c != d && Same(bufs'[c], bufs'[d]) ensures bufs'[c].dev == 0 {
      assert Same(bufs[c], bufs[d]) || c == b || d == b;
      assert Same(bufs[d], bufs[c]) || c == b || d == b;
    }
  }

  /** At most one buffer holds a given block, and a buffer in use is the caller's block. */
  lemma OneBuffer(k: Cache, u: nat, b: nat)
    requires CacheOk(k) && u in k.users && b < NBUF && k.bufs[b].dev == k.users[u].dev &&
             k.bufs[b].blockno == k.users[u].block
    ensures b == k.users[u].b && k.bufs[b].refcnt > 0
  {
    assert UseOk(k, u) && BufOk(k, b);
    assert b != k.users[u].b ==> Same(k.bufs[b], k.bufs[k.users[u].b]);
    assert k.on[b] != {};
  }

  /** A new caller for a buffer: a hit. */
  ghost function Hit(k: Cache, u: nat, b: nat, dev: nat, block: nat): Cache
    requires |k.bufs| == |k.on| == NBUF && b < NBUF
  {
    k.(bufs := k.bufs[b := k.bufs[b].(refcnt := k.bufs[b].refcnt + 1)], on := k.on[b := k.on[b] + {u}],
       users := k.users[u := Waiting(b, dev, block)])
  }

  ghost predicate SizedCache(k: Cache) { |k.bufs| == |k.owner| == |k.on| == NBUF }

  /** The step from `k` to `k'` concerns only caller `u` and buffer `b`. */
  ghost predicate Step(k: Cache, k': Cache, u: nat, b: nat) {
    SizedCache(k) && SizedCache(k') && b < NBUF && (u in k.users ==> k.users[u].b == b) &&
    k'.disk.Keys == k.disk.Keys &&
    (forall v :: v != u && v in k.users ==> v in k'.users && k'.users[v] == k.users[v]) &&
    (forall c :: 0 <= c < NBUF && c != b ==> SameBuf(k, k', c)) && Same(k.bufs[b], k'.bufs[b]) &&
    (k.bufs[b].valid ==> k'.bufs[b].valid) &&
    (forall v :: v in k.on[b] && v != u ==> v in k'.on[b]) &&
    (k.owner[b].By? && k.owner[b].u != u ==> k'.owner[b] == k.owner[b]) &&
    (forall d :: d in k.disk && d != (k.bufs[b].dev, k.bufs[b].blockno) ==> k'.disk[d] == k.disk[d]) &&
    (k'.disk != k.disk ==> k.bufs[b].dev != 0)
  }

  ghost predicate SameBuf(k: Cache, k': Cache, c: nat)
    requires SizedCache(k) && SizedCache(k') && c < NBUF
  {
    k'.bufs[c] == k.bufs[c] && k'.owner[c] == k.owner[c] && k'.on[c] == k.on[c] && (c in k'.dirty <==> c in k.dirty)
  }

  lemma OtherBuf(k: Cache, k': Cache, u: nat, b: nat, c: nat)
    requires Step(k, k', u, b) && c < NBUF && c != b && BufOk(k, c)
    requires Same(k.bufs[c], k.bufs[b]) ==> k.bufs[c].dev == 0
    ensures BufOk(k', c)
  {
    assert SameBuf(k, k', c);
  }

  lemma OtherUse(k: Cache, k': Cache, u: nat, b: nat, v: nat)
    requires Step(k, k', u, b) && v in k.users && v != u && UseOk(k, v)
    ensures v in k'.users && UseOk(k', v)
  {
    if k.users[v].b != b { assert SameBuf(k, k', k.users[v].b); }
  }

  /** Such a step keeps the cache in order if it keeps that buffer and that caller in order. */
  lemma StepOk(k: Cache, k': Cache, u: nat, b: nat)
    requires CacheOk(k) && Step(k, k', u, b) && BufOk(k', b) && (u in k'.users ==> UseOk(k', u))
    requires forall v :: v in k'.users ==> v == u || v in k.users
    ensures CacheOk(k')
  {
    hide BufOk, UseOk, Step;
    StepBufs(k, k', u, b);
    UniqueSame(k.bufs, b, k'.bufs[b]);
    forall c | 0 <= c < NBUF ensures BufOk(k', c) {
      if c != b {
        assert Same(k.bufs[c], k.bufs[b]) ==> k.bufs[c].dev == 0;
        OtherBuf(k, k', u, b, c);
      }
    }
    forall v | v in k'.users ensures UseOk(k', v) {
      if v != u { OtherUse(k, k', u, b, v); }
    }
  }

  lemma StepBufs(k: Cache, k': Cache, u: nat, b: nat)
    requires Step(k, k', u, b)
    ensures SizedCache(k) && SizedCache(k') && b < NBUF && Same(k.bufs[b], k'.bufs[b]) &&
            k'.bufs == k.bufs[b := k'.bufs[b]]
  {
    forall c | 0 <= c < NBUF && c != b ensures k'.bufs[c] == k.bufs[c] { assert SameBuf(k, k', c); }
  }

  lemma HitOk(k: Cache, u: nat, b: nat, dev: nat, block: nat)
    requires CacheOk(k) && u !in k.users && b < NBUF && dev != 0 && (dev, block) in k.disk
    requires k.bufs[b].dev == dev && k.bufs[b].blockno == block
    ensures CacheOk(Hit(k, u, b, dev, block))
  {
    hide CacheOk;
    At(k, b);
    var k' := Hit(k, u, b, dev, block);
    assert BufOk(k', b);
    StepOk(k, k', u, b);
  }

  lemma At(k: Cache, b: nat)
    requires CacheOk(k) && b < NBUF
    ensures SizedCache(k) && BufOk(k, b)
  {
    hide UseOk, Unique;
  }

  lemma Using(k: Cache, u: nat)
    requires CacheOk(k) && u in k.users
    ensures SizedCache(k) && UseOk(k, u) && BufOk(k, k.users[u].b)
  {
    hide Unique;
  }

  lemma Unchanged(k: Cache, b: nat)
    requires CacheOk(k) && b < NBUF && SizedCache(k) && !k.bufs[b].valid
    ensures b !in k.dirty
  {
    assert BufOk(k, b);
  }

  /** An unreferenced buffer given to another block: a miss. */
  ghost function Recycled(k: Cache, b: nat, dev: nat, block: nat): Cache
    requires |k.bufs| == NBUF && b < NBUF
  {
    k.(bufs := k.bufs[b := k.bufs[b].(dev := dev, blockno := block, valid := false)], dirty := k.dirty - {b})
  }

  /** The buffer as it is if it has the block, or recycled for it. */
  ghost function Chosen(k: Cache, b: nat, dev: nat, block: nat): Cache
    requires |k.bufs| == NBUF && b < NBUF
  {
    if k.bufs[b].dev == dev && k.bufs[b].blockno == block then k else Recycled(k, b, dev, block)
  }

  lemma RecycleOk(k: Cache, b: nat, dev: nat, block: nat)
    requires CacheOk(k) && b < NBUF && k.bufs[b].refcnt == 0
    requires forall c :: 0 <= c < NBUF ==> !(k.bufs[c].dev == dev && k.bufs[c].blockno == block)
    ensures CacheOk(Recycled(k, b, dev, block))
  {
    hide Unique;
    var k' := Recycled(k, b, dev, block);
    assert BufOk(k, b) && k.on[b] == {};
    forall c | 0 <= c < NBUF ensures BufOk(k', c) {
      assert BufOk(k, c);
    }
    forall v | v in k'.users ensures UseOk(k', v) {
      assert UseOk(k, v);
    }
    UniqueSame(k.bufs, b, k.bufs[b].(dev := dev, blockno := block, valid := false));
  }

  /** The lock is free and the caller takes it. */
  ghost function Locked(k: Cache, u: nat): Cache
    requires u in k.users && k.users[u].b < |k.owner|
  {
    var x := k.users[u];
    k.(owner := k.owner[x.b := By(u)], users := k.users[u := Holding(x.b, x.dev, x.block, false)])
  }

  lemma LockOk(k: Cache, u: nat)
    requires CacheOk(k) && u in k.users && k.users[u].Waiting? && k.users[u].b < |k.owner| &&
             k.owner[k.users[u].b].Free?
    ensures CacheOk(Locked(k, u))
  {
    hide CacheOk;
    Using(k, u);
    StepOk(k, Locked(k, u), u, k.users[u].b);
  }

  /** The holder sees the block: read from the disk unless the buffer has it. */
  ghost function Fetched(k: Cache, u: nat): Cache
    requires u in k.users && k.users[u].Holding? && k.users[u].b < |k.bufs| &&
             (k.users[u].dev, k.users[u].block) in k.disk
  {
    var x := k.users[u];
    var f := k.bufs[x.b];
    k.(bufs := k.bufs[x.b := if f.valid then f else f.(valid := true, data := k.disk[(x.dev, x.block)])],
       users := k.users[u := x.(read := true)])
  }

  lemma FetchOk(k: Cache, u: nat)
    requires CacheOk(k) && u in k.users && k.users[u].Holding?
    ensures k.users[u].b < |k.bufs| && (k.users[u].dev, k.users[u].block) in k.disk && CacheOk(Fetched(k, u))
    ensures k.users[u].b !in k.dirty ==>
              Fetched(k, u).bufs[k.users[u].b].data == k.disk[(k.users[u].dev, k.users[u].block)]
  {
    hide CacheOk;
    Using(k, u);
    StepOk(k, Fetched(k, u), u, k.users[u].b);
  }

  /** The holder changes the buffer. */
  ghost function Changed(k: Cache, u: nat, data: Bytes): Cache
    requires u in k.users && k.users[u].b < |k.bufs|
  {
    var b := k.users[u].b;
    k.(bufs := k.bufs[b := k.bufs[b].(data := data)], dirty := k.dirty + {b})
  }

  lemma ChangeOk(k: Cache, u: nat, data: Bytes)
    requires CacheOk(k) && u in k.users && k.users[u].Holding? && k.users[u].read
    ensures k.users[u].b < |k.bufs| && CacheOk(Changed(k, u, data))
  {
    hide CacheOk;
    Using(k, u);
    StepOk(k, Changed(k, u, data), u, k.users[u].b);
  }

  /** The holder writes the buffer to the disk. */
  ghost function Written(k: Cache, u: nat): Cache
    requires u in k.users && k.users[u].b < |k.bufs|
  {
    var x := k.users[u];
    k.(disk := k.disk[(x.dev, x.block) := k.bufs[x.b].data], dirty := k.dirty - {x.b})
  }

  lemma WriteOk(k: Cache, u: nat)
    requires CacheOk(k) && u in k.users && k.users[u].Holding? && k.users[u].read
    ensures k.users[u].b < |k.bufs| && CacheOk(Written(k, u))
  {
    hide CacheOk;
    Using(k, u);
    assert Written(k, u).disk.Keys == k.disk.Keys;
    StepOk(k, Written(k, u), u, k.users[u].b);
  }

  /** The holder lets go of the lock. */
  ghost function Unlocked(k: Cache, u: nat): Cache
    requires u in k.users && k.users[u].b < |k.owner|
  {
    var x := k.users[u];
    k.(owner := k.owner[x.b := Free], users := k.users[u := Dropping(x.b, x.dev, x.block)])
  }

  lemma UnlockOk(k: Cache, u: nat)
    requires CacheOk(k) && u in k.users && k.users[u].Holding?
    ensures k.users[u].b < |k.owner| && CacheOk(Unlocked(k, u))
  {
    hide CacheOk;
    Using(k, u);
    StepOk(k, Unlocked(k, u), u, k.users[u].b);
  }

  /** The caller gives up its reference. */
  ghost function Dropped(k: Cache, u: nat): Cache
    requires u in k.users && |k.bufs| == |k.on| == NBUF && k.users[u].b < NBUF && k.bufs[k.users[u].b].refcnt > 0
  {
    var b := k.users[u].b;
    k.(bufs := k.bufs[b := k.bufs[b].(refcnt := k.bufs[b].refcnt - 1)], on := k.on[b := k.on[b] - {u}],
       users := k.users - {u})
  }

  lemma DropOk(k: Cache, u: nat)
    requires CacheOk(k) && u in k.users && k.users[u].Dropping?
    ensures |k.bufs| == |k.on| == NBUF && k.users[u].b < NBUF && k.bufs[k.users[u].b].refcnt > 0 &&
            CacheOk(Dropped(k, u))
  {
    hide CacheOk;
    Using(k, u);
    StepOk(k, Dropped(k, u), u, k.users[u].b);
  }

  /** The buffers met going down the list from `b` to the head. */
  ghost function Walk(next: seq<nat>, prev: seq<nat>, stamp: seq<nat>, b: nat): seq<nat>
    requires ListOk(next, prev, stamp, Upto(NBUF)) && b <= NBUF
    decreases if b == HEAD || b >= |stamp| then 0 else stamp[b] + 1
  {
    Neighbours(next, prev, stamp, b);
    if b == HEAD then [] else [b] + Walk(next, prev, stamp, next[b])
  }

  lemma {:induction false} WalkDown(next: seq<nat>, prev: seq<nat>, stamp: seq<nat>, b: nat)
    requires ListOk(next, prev, stamp, Upto(NBUF)) && b < NBUF && |stamp| == NBUF
    ensures forall i ::
              0 <= i < |Walk(next, prev, stamp, b)| ==>
                Walk(next, prev, stamp, b)[i] < NBUF && stamp[Walk(next, prev, stamp, b)[i]] <= stamp[b]
    ensures forall c :: 0 <= c < NBUF && stamp[c] <= stamp[b] ==> c in Walk(next, prev, stamp, b)
    ensures forall i, j ::
              0 <= i < j < |Walk(next, prev, stamp, b)| ==>
                stamp[Walk(next, prev, stamp, b)[i]] > stamp[Walk(next, prev, stamp, b)[j]]
    decreases stamp[b]
  {
    hide ListOk;
    Neighbours(next, prev, stamp, b);
    if next[b] != HEAD { WalkDown(next, prev, stamp, next[b]); }
  }

  /** The list is a permutation of all buffers, most recently released first. */
  lemma Permutation(next: seq<nat>, prev: seq<nat>, stamp: seq<nat>)
    requires ListOk(next, prev, stamp, Upto(NBUF)) && |next| == NBUF + 1 && |stamp| == NBUF && next[HEAD] <= NBUF
    ensures var w := Walk(next, prev, stamp, next[HEAD]);
            (forall c :: c in w <==> 0 <= c < NBUF) &&
            forall i, j :: 0 <= i < j < |w| ==> w[i] < NBUF && w[j] < NBUF && stamp[w[i]] > stamp[w[j]]
  {
    hide ListOk;
    Neighbours(next, prev, stamp, HEAD);
    WalkDown(next, prev, stamp, next[HEAD]);
  }

  /** The reference was taken on a buffer of the block; other buffers are as they were. */
  ghost predicate Got(bufs: seq<Buf>, bufs': seq<Buf>, b: nat, dev: nat, block: nat) {
    |bufs| == |bufs'| == NBUF && b < NBUF && bufs'[b].dev == dev && bufs'[b].blockno == block &&
    bufs'[b].refcnt == bufs[b].refcnt + 1 &&
    bufs'[b].data == bufs[b].data && forall c :: 0 <= c < NBUF && c != b ==> bufs'[c] == bufs[c]
  }

  /** Unless the block was cached, the buffer taken is the unreferenced one released longest ago. */
  ghost predicate Oldest(bufs: seq<Buf>, stamp: seq<nat>, b: nat, dev: nat, block: nat) {
    |bufs| == |stamp| == NBUF && b < NBUF &&
    (!(bufs[b].dev == dev && bufs[b].blockno == block) ==>
      bufs[b].refcnt == 0 && (forall c :: 0 <= c < NBUF && bufs[c].refcnt == 0 ==> stamp[b] <= stamp[c]) &&
      (forall c :: 0 <= c < NBUF ==> !(bufs[c].dev == dev && bufs[c].blockno == block)))
  }

  lemma Size(k: Cache)
    requires CacheOk(k)
    ensures SizedCache(k)
  {
    hide BufOk, UseOk, Unique;
  }

  lemma Node(next: seq<nat>, prev: seq<nat>, stamp: seq<nat>, s: set<nat>, b: nat)
    requires ListOk(next, prev, stamp, s) && (b in s || b == HEAD)
    ensures Sized(next, prev, stamp, s) && NodeOk(next, prev, stamp, s, b) && next[b] <= NBUF && prev[b] <= NBUF &&
            NodeOk(next, prev, stamp, s, prev[b])
    ensures forall c, d :: c in s && d in s && c != d ==> stamp[c] != stamp[d]
  {
    hide NodeOk;
    InList(next, prev, stamp, s, b);
  }

  /** Going down from a node nothing is skipped, and likewise going up. */
  lemma Neighbours(next: seq<nat>, prev: seq<nat>, stamp: seq<nat>, b: nat)
    requires ListOk(next, prev, stamp, Upto(NBUF)) && b <= NBUF
    ensures |next| == |prev| == NBUF + 1 && |stamp| == NBUF && next[b] <= NBUF && prev[b] <= NBUF
    ensures next[b] < NBUF ==>
              forall c :: 0 <= c < NBUF && stamp[next[b]] < stamp[c] ==> b < NBUF && stamp[b] <= stamp[c]
    ensures next[b] == HEAD ==> b < NBUF && forall c :: 0 <= c < NBUF ==> stamp[b] <= stamp[c]
    ensures prev[b] < NBUF ==>
              forall c :: 0 <= c < NBUF && stamp[c] < stamp[prev[b]] ==> b < NBUF && stamp[c] <= stamp[b]
    ensures prev[b] == HEAD ==> b < NBUF && forall c :: 0 <= c < NBUF ==> stamp[c] <= stamp[b]
    ensures b < NBUF && next[b] < NBUF ==> stamp[next[b]] < stamp[b]
    ensures b < NBUF && prev[b] < NBUF ==> stamp[b] < stamp[prev[b]]
    ensures forall c, d :: 0 <= c < NBUF && 0 <= d < NBUF && c != d ==> stamp[c] != stamp[d]
  {
    hide ListOk, Upto;
    Node(next, prev, stamp, Upto(NBUF), b);
    assert 0 in Upto(NBUF);
  }

  lemma EmptyCache(k: Cache)
    requires SizedCache(k) && k.users == map[] && k.dirty == {}
    requires forall b :: 0 <= b < NBUF ==> k.bufs[b] == Buf(0, 0, false, 0, []) && k.owner[b].Free? && k.on[b] == {}
    ensures CacheOk(k)
  {
  }

  lemma EmptyList(next: seq<nat>, prev: seq<nat>, stamp: seq<nat>)
    requires |next| == |prev| == NBUF + 1 && |stamp| == NBUF && next[HEAD] == prev[HEAD] == HEAD
    ensures ListOk(next, prev, stamp, Upto(0))
  {
  }

  class Bcache {
    var next: seq<nat>
    var prev: seq<nat>
    var bufs: seq<Buf>
    var owner: seq<Lock>
    var users: map<nat, Use>
    var disk: Disk
    // the buffers changed since they were last written
    var dirty: set<nat>
    ghost var on: seq<set<nat>>
    // when each buffer was last released
    ghost var stamp: seq<nat>
    ghost var clock: nat

    ghost function Contents(): Cache
      reads this
    {
      Cache(bufs, owner, users, disk, on, dirty)
    }

    /** The list has all buffers, most recently released first. */
    ghost predicate Listed()
      reads this
    {
      ListOk(next, prev, stamp, Upto(NBUF)) && forall b :: 0 <= b < NBUF ==> stamp[b] < clock
    }

    ghost predicate Valid()
      reads this
    {
      Listed() && CacheOk(Contents())
    }

    constructor (disk: Disk)
      ensures Valid() && users == map[] && this.disk == disk && dirty == {}
    {
      hide CacheOk, ListOk, Upto, Repeat;
      next, prev := Repeat(NBUF + 1, HEAD), Repeat(NBUF + 1, HEAD);
      bufs, owner := Repeat(NBUF, Buf(0, 0, false, 0, [])), Repeat(NBUF, Free);
      users, this.disk := map[], disk;
      on, dirty := Repeat(NBUF, {}), {};
      stamp, clock := Repeat(NBUF, 0), 0;
      new;
      assert CacheOk(Contents()) by { EmptyCache(Contents()); }
      assert ListOk(next, prev, stamp, Upto(0)) by { EmptyList(next, prev, stamp); }
      LinkAll();
    }

    /** Puts every buffer in the list, which is empty. */
    method LinkAll()
      requires ListOk(next, prev, stamp, Upto(0)) && |stamp| == NBUF && clock == 0
      modifies this`next, this`prev, this`stamp, this`clock
      ensures ListOk(next, prev, stamp, Upto(NBUF)) && clock == NBUF
      ensures forall c :: 0 <= c < NBUF ==> stamp[c] < clock
    {
      hide ListOk, Upto;
      var b := 0;
      while b < NBUF
        invariant 0 <= b <= NBUF && clock == b && ListOk(next, prev, stamp, Upto(b)) && |stamp| == NBUF
        invariant forall c :: 0 <= c < b ==> stamp[c] < clock
      {
        PushFront(b);
        assert Upto(b + 1) == Upto(b) + {b};
        b := b + 1;
      }
    }

    /** Puts a buffer that is not in the list after its head. */
    method PushFront(b: nat, ghost s: set<nat> := Upto(b))
      requires b < NBUF && ListOk(next, prev, stamp, s) && b !in s &&
               (forall c :: c in s ==> c < NBUF && stamp[c] < clock)
      modifies this`next, this`prev, this`stamp, this`clock
      ensures clock == old(clock) + 1 && |old(stamp)| == NBUF && stamp == old(stamp)[b := old(clock)] &&
              ListOk(next, prev, stamp, s + {b})
    {
      hide NodeOk;
      PushOk(next, prev, stamp, s, b, clock);
      var first := next[HEAD];
      next := next[b := first];
      prev := prev[b := HEAD];
      prev := prev[first := b];
      next := next[HEAD := b];
      stamp := stamp[b := clock];
      clock := clock + 1;
    }

    /** The buffer that has the block, or the head if there is none. */
    method FindCached(dev: nat, block: nat) returns (b: nat)
      requires Valid()
      ensures b <= NBUF && (b < NBUF ==> bufs[b].dev == dev && bufs[b].blockno == block)
      ensures b == HEAD ==> forall c :: 0 <= c < NBUF ==> !(bufs[c].dev == dev && bufs[c].blockno == block)
    {
      hide CacheOk, NodeOk;
      assert |bufs| == NBUF by { Size(Contents()); }
      Neighbours(next, prev, stamp, HEAD);
      b := next[HEAD];
      while b != HEAD
        invariant b <= NBUF &&
                  forall c ::
                    0 <= c < NBUF && (b == HEAD || stamp[b] < stamp[c]) ==>
                      !(bufs[c].dev == dev && bufs[c].blockno == block)
        decreases if b == HEAD then 0 else stamp[b] + 1
      {
        if bufs[b].dev == dev && bufs[b].blockno == block { return; }
        Neighbours(next, prev, stamp, b);
        b := next[b];
      }
    }

    /** The unreferenced buffer released longest ago, or the head if all are in use. */
    method FindVictim() returns (b: nat)
      requires Valid()
      ensures b <= NBUF &&
              (b < NBUF ==>
                 bufs[b].refcnt == 0 && forall c :: 0 <= c < NBUF && bufs[c].refcnt == 0 ==> stamp[b] <= stamp[c])
      ensures b == HEAD ==> forall c :: 0 <= c < NBUF ==> bufs[c].refcnt > 0
    {
      hide CacheOk, NodeOk;
      assert |bufs| == NBUF by { Size(Contents()); }
      Neighbours(next, prev, stamp, HEAD);
      b := prev[HEAD];
      while b != HEAD
        invariant b <= NBUF && forall c :: 0 <= c < NBUF && (b == HEAD || stamp[c] < stamp[b]) ==> bufs[c].refcnt > 0
        decreases if b == HEAD then 0 else clock - stamp[b]
      {
        if bufs[b].refcnt == 0 { return; }
        Neighbours(next, prev, stamp, b);
        b := prev[b];
      }
    }

    /** A buffer for the block: the one that has it, or the one recycled for it. */
    method Choose(dev: nat, block: nat) returns (b: nat)
      requires Valid() && dev != 0
      modifies this`bufs, this`dirty
      ensures Valid() && |old(bufs)| == |stamp| == |bufs| == NBUF && b <= NBUF
      ensures Contents() == if b == HEAD then old(Contents()) else Chosen(old(Contents()), b, dev, block)
      ensures b == HEAD ==>
                bufs == old(bufs) &&
                forall c :: 0 <= c < NBUF ==> bufs[c].refcnt > 0 && !(bufs[c].dev == dev && bufs[c].blockno == block)
      ensures b < NBUF ==>
                bufs[b].dev == dev && bufs[b].blockno == block && bufs[b].refcnt == old(bufs)[b].refcnt &&
                bufs[b].data == old(bufs)[b].data
      ensures b < NBUF ==>
                Oldest(old(bufs), stamp, b, dev, block) &&
                forall c :: 0 <= c < NBUF && c != b ==> bufs[c] == old(bufs)[c]
      ensures dirty == if b < NBUF && !bufs[b].valid then old(dirty) - {b} else old(dirty)
    {
      hide CacheOk, ListOk;
      assert SizedCache(Contents()) by { Size(Contents()); }
      assert |stamp| == NBUF by { Neighbours(next, prev, stamp, HEAD); }
      b := FindCached(dev, block);
      if b < NBUF && !bufs[b].valid { Unchanged(Contents(), b); }
      if b == HEAD {
        b := FindVictim();
        if b < NBUF {
          RecycleOk(Contents(), b, dev, block);
          bufs := bufs[b := bufs[b].(dev := dev, blockno := block, valid := false)];
          dirty := dirty - {b};
          assert Contents() == Recycled(old(Contents()), b, dev, block);
        }
      }
    }

    /** A caller takes a reference to the buffer of its block. */
    method Refer(u: nat, b: nat, dev: nat, block: nat)
      requires Valid() && u !in users && dev != 0 && (dev, block) in disk
      requires b < NBUF && |bufs| == NBUF && bufs[b].dev == dev && bufs[b].blockno == block
      modifies this`bufs, this`users, this`on
      ensures Valid() && |old(on)| == NBUF && Contents() == Hit(old(Contents()), u, b, dev, block)
      ensures users == old(users)[u := Waiting(b, dev, block)]
      ensures bufs == old(bufs)[b := old(bufs)[b].(refcnt := old(bufs)[b].refcnt + 1)]
    {
      hide CacheOk, ListOk;
      assert SizedCache(Contents()) by { Size(Contents()); }
      HitOk(Contents(), u, b, dev, block);
      bufs := bufs[b := bufs[b].(refcnt := bufs[b].refcnt + 1)];
      on := on[b := on[b] + {u}];
      users := users[u := Waiting(b, dev, block)];
      assert Contents() == Hit(old(Contents()), u, b, dev, block);
    }

    /** Finds or recycles a buffer for the block and takes a reference to it; panics just when the
        block is not cached and every buffer is in use. */
    method Bget(u: nat, dev: nat, block: nat) returns (ok: bool)
      requires Valid() && u !in users && dev != 0 && (dev, block) in disk
      modifies this`bufs, this`users, this`on, this`dirty
      ensures Valid() && |old(bufs)| == |old(on)| == |bufs| == NBUF
      ensures ok ==> u in users && users[u].b < NBUF &&
                     Contents() == Hit(Chosen(old(Contents()), users[u].b, dev, block), u, users[u].b, dev, block)
      ensures !ok ==> Contents() == old(Contents())
      ensures !ok ==>
                users == old(users) && bufs == old(bufs) &&
                forall c :: 0 <= c < NBUF ==> bufs[c].refcnt > 0 && !(bufs[c].dev == dev && bufs[c].blockno == block)
      ensures ok ==> u in users && users == old(users)[u := Waiting(users[u].b, dev, block)]
      ensures ok ==> Got(old(bufs), bufs, users[u].b, dev, block) && Oldest(old(bufs), stamp, users[u].b, dev, block)
      ensures ok && users[u].b < NBUF && !bufs[users[u].b].valid ==> dirty == old(dirty) - {users[u].b}
      ensures !ok || (users[u].b < NBUF && bufs[users[u].b].valid) ==> dirty == old(dirty)
    {
      hide CacheOk, ListOk, Oldest, Chosen, Hit;
      assert SizedCache(Contents()) by { Size(Contents()); }
      var b := Choose(dev, block);
      ok := b != HEAD;
      if ok { Refer(u, b, dev, block); }
    }

    /** The caller gets the buffer's lock. */
    method Acquire(u: nat)
      requires Valid() && u in users && users[u].Waiting? && users[u].b < |owner| && owner[users[u].b].Free?
      modifies this`owner, this`users
      ensures Valid() && Contents() == Locked(old(Contents()), u)
    {
      hide CacheOk, ListOk;
      LockOk(Contents(), u);
      var x := users[u];
      owner := owner[x.b := By(u)];
      users := users[u := Holding(x.b, x.dev, x.block, false)];
    }

    /** The rest of bread: the caller, holding the lock, has the disk's bytes. */
    method Fetch(u: nat) returns (data: Bytes)
      requires Valid() && u in users && users[u].Holding?
      modifies this`bufs, this`users
      ensures Valid() && users == old(users)[u := old(users)[u].(read := true)] &&
              (users[u].dev, users[u].block) in disk
      ensures users[u].b !in dirty ==> data == disk[(users[u].dev, users[u].block)]
      ensures old(users)[u].b < |old(bufs)| && (old(users)[u].dev, old(users)[u].block) in old(disk) &&
              Contents() == Fetched(old(Contents()), u)
      ensures users[u].b < |bufs| == |old(bufs)| && data == bufs[users[u].b].data &&
              forall c :: 0 <= c < |bufs| && c != users[u].b ==> bufs[c] == old(bufs)[c]
    {
      hide CacheOk, ListOk;
      FetchOk(Contents(), u);
      var x := users[u];
      if !bufs[x.b].valid {
        bufs := bufs[x.b := bufs[x.b].(valid := true, data := disk[(x.dev, x.block)])];
      }
      users := users[u := x.(read := true)];
      assert Contents() == Fetched(old(Contents()), u);
      data := bufs[x.b].data;
    }

    method Change(u: nat, data: Bytes)
      requires Valid() && u in users && users[u].Holding? && users[u].read
      modifies this`bufs, this`dirty
      ensures Valid() && users[u].b < |old(bufs)| && Contents() == Changed(old(Contents()), u, data)
    {
      hide CacheOk, ListOk;
      ChangeOk(Contents(), u, data);
      var b := users[u].b;
      bufs := bufs[b := bufs[b].(data := data)];
      dirty := dirty + {b};
    }

    /** The holder writes its buffer: the disk has its bytes. */
    method Bwrite(u: nat)
      requires Valid() && u in users && users[u].Holding? && users[u].read
      modifies this`disk, this`dirty
      ensures Valid() && users[u].b < |bufs| &&
              disk == old(disk)[(users[u].dev, users[u].block) := bufs[users[u].b].data] &&
              dirty == old(dirty) - {users[u].b}
      ensures Contents() == Written(old(Contents()), u)
    {
      hide CacheOk, ListOk;
      WriteOk(Contents(), u);
      var x := users[u];
      disk := disk[(x.dev, x.block) := bufs[x.b].data];
      dirty := dirty - {x.b};
    }

    /** The first half of brelse: the lock is released. A change that was not written stays in the
        buffer, and is lost when that is recycled. */
    method Unlock(u: nat)
      requires Valid() && u in users && users[u].Holding?
      modifies this`owner, this`users
      ensures Valid() && old(users)[u].b < |old(owner)| && Contents() == Unlocked(old(Contents()), u)
    {
      hide CacheOk, ListOk;
      UnlockOk(Contents(), u);
      var x := users[u];
      owner := owner[x.b := Free];
      users := users[u := Dropping(x.b, x.dev, x.block)];
    }

    /** The second half: the reference is dropped, and a buffer no one else wants becomes the most
        recently released. */
    method Drop(u: nat)
      requires Valid() && u in users && users[u].Dropping?
      modifies this`bufs, this`users, this`on, this`next, this`prev, this`stamp, this`clock
      ensures Valid() && users == old(users) - {u} && |old(bufs)| == |old(stamp)| == NBUF && old(users)[u].b < NBUF &&
              old(bufs)[old(users)[u].b].refcnt > 0
      ensures |old(on)| == NBUF && Contents() == Dropped(old(Contents()), u)
      ensures var b := old(users)[u].b;
              && bufs == old(bufs)[b := old(bufs)[b].(refcnt := old(bufs)[b].refcnt - 1)]
              && stamp == if bufs[b].refcnt == 0 then old(stamp)[b := old(clock)] else old(stamp)
    {
      hide CacheOk, ListOk;
      DropOk(Contents(), u);
      var b := users[u].b;
      bufs := bufs[b := bufs[b].(refcnt := bufs[b].refcnt - 1)];
      users := users - {u};
      on := on[b := on[b] - {u}];
      assert Contents() == Dropped(old(Contents()), u);
      assert |stamp| == NBUF by { Neighbours(next, prev, stamp, HEAD); }
      if bufs[b].refcnt == 0 {
        MoveFront(b);
      }
    }

    method MoveFront(b: nat)
      requires Listed() && b < NBUF
      modifies this`next, this`prev, this`stamp, this`clock
      ensures Listed() && |old(stamp)| == NBUF && stamp == old(stamp)[b := old(clock)]
    {
      hide ListOk, NodeOk;
      Neighbours(next, prev, stamp, b);
      UnlinkOk(next, prev, stamp, Upto(NBUF), b);
      var n, p := next[b], prev[b];
      prev := prev[n := p];
      next := next[p := n];
      PushFront(b, Upto(NBUF) - {b});
      assert Upto(NBUF) - {b} + {b} == Upto(NBUF);
    }
  }
}
