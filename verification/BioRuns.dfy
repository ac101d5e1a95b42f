/** Whole runs of the buffer cache, compared with a store of blocks without any cache. */
module BioRuns {
  import opened Bio

  type Key = (nat, nat)

  function KeyOf(f: Buf): Key { (f.dev, f.blockno) }

  function UsedKey(x: Use): Key { (x.dev, x.block) }

  /** Buffer `b` has a change of block `d` that is not on the disk. */
  ghost predicate Unsaved(k: Cache, d: Key, b: nat)
    requires SizedCache(k)
  {
    b in k.dirty && b < NBUF && KeyOf(k.bufs[b]) == d
  }

  /** What a caller finds in each block: the unsaved change, or else what is on the disk. */
  ghost function Now(k: Cache): Disk
    requires SizedCache(k)
  {
    map d | d in k.disk ::
      if exists b: nat :: Unsaved(k, d, b) then
        var b: nat :| Unsaved(k, d, b);
        k.bufs[b].data
      else k.disk[d]
  }

  /** The blocks that callers use. */
  ghost function InUse(users: map<nat, Use>): set<Key> { set u | u in users :: UsedKey(users[u]) }

  /** The cache as its callers see it. */
  datatype View = View(now: Disk, disk: Disk, users: map<nat, Use>)

  ghost function ViewOf(k: Cache): View
    requires SizedCache(k)
  {
    View(Now(k), k.disk, k.users)
  }

  lemma NowAt(k: Cache, d: Key, b: nat)
    requires CacheOk(k) && SizedCache(k) && Unsaved(k, d, b) && d in k.disk
    ensures Now(k)[d] == k.bufs[b].data
  {
    assert BufOk(k, b);
    forall c: nat | Unsaved(k, d, c) ensures c == b {
      assert b != c ==> Same(k.bufs[b], k.bufs[c]);
    }
  }

  /** A buffer that has its block has what callers find in it. */
  lemma NowOf(k: Cache, b: nat)
    requires CacheOk(k) && SizedCache(k) && b < NBUF && k.bufs[b].valid && KeyOf(k.bufs[b]) in k.disk
    ensures Now(k)[KeyOf(k.bufs[b])] == k.bufs[b].data
  {
    var d := KeyOf(k.bufs[b]);
    assert BufOk(k, b);
    if b in k.dirty {
      NowAt(k, d, b);
    } else if exists c: nat :: Unsaved(k, d, c) {
      var c: nat :| Unsaved(k, d, c);
      assert BufOk(k, c) && Same(k.bufs[c], k.bufs[b]);
    }
  }

  lemma NowOff(k: Cache, d: Key)
    requires SizedCache(k) && d in k.disk && forall b: nat :: !Unsaved(k, d, b)
    ensures Now(k)[d] == k.disk[d]
  {
  }

  /** Nothing a caller finds in a block depends on more than its unsaved changes and the disk. */
  lemma SameAt(k: Cache, k': Cache, d: Key)
    requires CacheOk(k) && CacheOk(k') && SizedCache(k) && SizedCache(k')
    requires d in k.disk && d in k'.disk && k'.disk[d] == k.disk[d]
    requires forall b: nat ::
               (Unsaved(k, d, b) <==> Unsaved(k', d, b)) && (Unsaved(k, d, b) ==> k'.bufs[b].data == k.bufs[b].data)
    ensures Now(k')[d] == Now(k)[d]
  {
    if b: nat :| Unsaved(k, d, b) {
      NowAt(k, d, b);
      NowAt(k', d, b);
    } else {
      NowOff(k, d);
      NowOff(k', d);
    }
  }

  /** A step that leaves the disk and the unsaved changes alone. */
  lemma SameNow(k: Cache, k': Cache)
    requires CacheOk(k) && CacheOk(k') && SizedCache(k) && SizedCache(k') && k'.disk == k.disk && k'.dirty == k.dirty
    requires forall b :: 0 <= b < NBUF && b in k.dirty ==>
               KeyOf(k'.bufs[b]) == KeyOf(k.bufs[b]) && k'.bufs[b].data == k.bufs[b].data
    ensures Now(k') == Now(k)
  {
    hide CacheOk, Now;
    NowKeys(k);
    NowKeys(k');
    forall d | d in k.disk ensures Now(k')[d] == Now(k)[d] { SameAt(k, k', d); }
  }

  lemma NowKeys(k: Cache)
    requires SizedCache(k)
    ensures Now(k).Keys == k.disk.Keys
  {
  }

  /** What a step did. */
  datatype Out = Passed | Done | Panicked | Saw(data: Bytes)

  datatype Action = BgetStep(u: nat, dev: nat, block: nat) | AcquireStep(u: nat) | FetchStep(u: nat)
    | ChangeStep(u: nat, data: Bytes) | BwriteStep(u: nat) | UnlockStep(u: nat) | DropStep(u: nat)

  /** Somebody has the lock of the block. */
  ghost predicate Held(users: map<nat, Use>, d: Key) {
    exists w :: w in users && users[w].Holding? && UsedKey(users[w]) == d
  }

  /** Unsaved changes of a block that nobody uses are forgotten. */
  ghost predicate Forgets(v: View, now: Disk, e: Key) {
    e in v.disk && e !in InUse(v.users) && now == v.now[e := v.disk[e]]
  }

  ghost predicate Started(v: View, v': View, u: nat, d: Key) {
    && v'.disk == v.disk && u in v'.users && v'.users[u].Waiting? && UsedKey(v'.users[u]) == d
    && v'.users == v.users[u := v'.users[u]]
    && (v'.now == v.now || (d !in InUse(v.users) && exists e :: e != d && Forgets(v, v'.now, e)))
  }

  predicate Holds(v: View, u: nat) { u in v.users && v.users[u].Holding? }

  predicate HoldsRead(v: View, u: nat) { u in v.users && v.users[u].Holding? && v.users[u].read }

  /** Whether a step is possible, what it does to the blocks and what its caller gets to see. Starting to
      use a block panics if and only if thirty others are in use. */
  ghost predicate Does(a: Action, out: Out, v: View, v': View) {
    match a
    case BgetStep(u, dev, block) =>
      if u in v.users || dev == 0 || (dev, block) !in v.disk then out == Passed && v' == v
      else if (dev, block) !in InUse(v.users) && |InUse(v.users)| >= NBUF then out == Panicked && v' == v
      else out == Done && Started(v, v', u, (dev, block))
    case AcquireStep(u) =>
      if u in v.users && v.users[u].Waiting? && !Held(v.users, UsedKey(v.users[u])) then
        var x := v.users[u];
        out == Done && v' == v.(users := v.users[u := Holding(x.b, x.dev, x.block, false)])
      else out == Passed && v' == v
    case FetchStep(u) =>
      if Holds(v, u) then
        var x := v.users[u];
        && UsedKey(x) in v.now && out == Saw(v.now[UsedKey(x)])
        && v' == v.(users := v.users[u := x.(read := true)])
      else out == Passed && v' == v
    case ChangeStep(u, data) =>
      if HoldsRead(v, u) then out == Done && v' == v.(now := v.now[UsedKey(v.users[u]) := data])
      else out == Passed && v' == v
    case BwriteStep(u) =>
      if HoldsRead(v, u) then
        var d := UsedKey(v.users[u]);
        out == Done && d in v.now && v' == v.(disk := v.disk[d := v.now[d]])
      else out == Passed && v' == v
    case UnlockStep(u) =>
      if Holds(v, u) then
        var x := v.users[u];
        out == Done && v' == v.(users := v.users[u := Dropping(x.b, x.dev, x.block)])
      else out == Passed && v' == v
    case DropStep(u) =>
      if u in v.users && v.users[u].Dropping? then out == Done && v' == v.(users := v.users - {u})
      else out == Passed && v' == v
  }

  /** The lock of a caller's buffer is free if and only if nobody has the lock of its block. */
  lemma LockIsFree(k: Cache, u: nat)
    requires CacheOk(k) && SizedCache(k) && u in k.users
    ensures k.users[u].b < NBUF && (k.owner[k.users[u].b].Free? <==> !Held(k.users, UsedKey(k.users[u])))
  {
    var b := k.users[u].b;
    Using(k, u);
    if k.owner[b].By? {
      var w := k.owner[b].u;
      Using(k, w);
      assert Held(k.users, UsedKey(k.users[u]));
    }
    if w :| w in k.users && k.users[w].Holding? && UsedKey(k.users[w]) == UsedKey(k.users[u]) {
      OneBuffer(k, w, b);
      Using(k, w);
    }
  }

  lemma AcquireView(k: Cache, u: nat)
    requires CacheOk(k) && SizedCache(k) && u in k.users && k.users[u].Waiting?
    requires k.users[u].b < NBUF && k.owner[k.users[u].b].Free? && CacheOk(Locked(k, u))
    ensures Does(AcquireStep(u), Done, ViewOf(k), ViewOf(Locked(k, u)))
  {
    hide CacheOk, Now, Held;
    LockIsFree(k, u);
    SameNow(k, Locked(k, u));
  }

  lemma FetchView(k: Cache, u: nat, data: Bytes)
    requires CacheOk(k) && SizedCache(k) && u in k.users && k.users[u].Holding? && k.users[u].b < NBUF
    requires UsedKey(k.users[u]) in k.disk && CacheOk(Fetched(k, u)) && data == Fetched(k, u).bufs[k.users[u].b].data
    ensures Does(FetchStep(u), Saw(data), ViewOf(k), ViewOf(Fetched(k, u)))
  {
    hide CacheOk, Now;
    var k', b := Fetched(k, u), k.users[u].b;
    Using(k, u);
    SameNow(k, k');
    NowOf(k', b);
    NowKeys(k);
  }

  lemma ChangeView(k: Cache, u: nat, data: Bytes)
    requires CacheOk(k) && SizedCache(k) && HoldsRead(ViewOf(k), u) && k.users[u].b < NBUF
    requires CacheOk(Changed(k, u, data))
    ensures Does(ChangeStep(u, data), Done, ViewOf(k), ViewOf(Changed(k, u, data)))
  {
    hide CacheOk, Now;
    var k', b := Changed(k, u, data), k.users[u].b;
    Using(k, u);
    var e := UsedKey(k.users[u]);
    NowKeys(k);
    NowKeys(k');
    NowAt(k', e, b);
    forall d | d in k.disk && d != e ensures Now(k')[d] == Now(k)[d] { SameAt(k, k', d); }
    assert Now(k') == Now(k)[e := data];
  }

  lemma WriteView(k: Cache, u: nat)
    requires CacheOk(k) && SizedCache(k) && HoldsRead(ViewOf(k), u) && k.users[u].b < NBUF
    requires CacheOk(Written(k, u))
    ensures Does(BwriteStep(u), Done, ViewOf(k), ViewOf(Written(k, u)))
  {
    hide CacheOk, Now;
    var k', b := Written(k, u), k.users[u].b;
    Using(k, u);
    Using(k', u);
    var e := UsedKey(k.users[u]);
    NowKeys(k);
    NowKeys(k');
    NowOf(k, b);
    NowOf(k', b);
    forall d | d in k.disk && d != e ensures Now(k')[d] == Now(k)[d] { SameAt(k, k', d); }
    assert Now(k') == Now(k);
  }

  lemma ReleaseView(k: Cache, u: nat)
    requires CacheOk(k) && SizedCache(k) && u in k.users && k.users[u].b < NBUF
    ensures k.users[u].Holding? && CacheOk(Unlocked(k, u)) ==>
              Does(UnlockStep(u), Done, ViewOf(k), ViewOf(Unlocked(k, u)))
    ensures k.users[u].Dropping? && k.bufs[k.users[u].b].refcnt > 0 && CacheOk(Dropped(k, u)) ==>
              Does(DropStep(u), Done, ViewOf(k), ViewOf(Dropped(k, u)))
  {
    hide CacheOk, Now;
    if k.users[u].Holding? && CacheOk(Unlocked(k, u)) { SameNow(k, Unlocked(k, u)); }
    if k.users[u].Dropping? && k.bufs[k.users[u].b].refcnt > 0 && CacheOk(Dropped(k, u)) { SameNow(k, Dropped(k, u)); }
  }

  /** The blocks of the first `n` buffers. */
  ghost function Keys(bufs: seq<Buf>, n: nat): (s: set<Key>)
    requires n <= |bufs|
    ensures forall b :: 0 <= b < n ==> KeyOf(bufs[b]) in s
    ensures forall d :: d in s ==> exists b :: 0 <= b < n && KeyOf(bufs[b]) == d
  {
    if n == 0 then {} else Keys(bufs, n - 1) + {KeyOf(bufs[n - 1])}
  }

  lemma {:induction false} KeysCount(bufs: seq<Buf>, n: nat)
    requires n <= |bufs|
    ensures |Keys(bufs, n)| <= n
    ensures (forall b, c :: 0 <= b < c < n ==> KeyOf(bufs[b]) != KeyOf(bufs[c])) ==> |Keys(bufs, n)| == n
  {
    if n > 0 { KeysCount(bufs, n - 1); }
  }

  lemma SubsetCount(s: set<Key>, t: set<Key>)
    requires s <= t
    ensures |s| <= |t|
  {
    assert t == s + (t - s);
  }

  lemma BufferInUse(k: Cache, b: nat)
    requires CacheOk(k) && SizedCache(k) && b < NBUF && k.bufs[b].refcnt > 0
    ensures KeyOf(k.bufs[b]) in InUse(k.users) && k.bufs[b].dev != 0
  {
    At(k, b);
    assert k.on[b] != {};
    var u :| u in k.on[b];
    Using(k, u);
  }

  /** With every buffer referenced thirty blocks are in use. */
  lemma AllInUse(k: Cache)
    requires CacheOk(k) && SizedCache(k) && forall c :: 0 <= c < NBUF ==> k.bufs[c].refcnt > 0
    ensures |InUse(k.users)| >= NBUF
  {
    forall b | 0 <= b < NBUF ensures KeyOf(k.bufs[b]) in InUse(k.users) && k.bufs[b].dev != 0 { BufferInUse(k, b); }
    forall b, c | 0 <= b < c < NBUF ensures KeyOf(k.bufs[b]) != KeyOf(k.bufs[c]) {
      assert !Same(k.bufs[b], k.bufs[c]);
    }
    hide CacheOk, InUse;
    KeysCount(k.bufs, NBUF);
    assert Keys(k.bufs, NBUF) <= InUse(k.users);
    SubsetCount(Keys(k.bufs, NBUF), InUse(k.users));
  }

  /** With a buffer that is not, fewer are. */
  lemma SomeFree(k: Cache, b: nat)
    requires CacheOk(k) && SizedCache(k) && b < NBUF && k.bufs[b].refcnt == 0
    ensures |InUse(k.users)| < NBUF && KeyOf(k.bufs[b]) !in InUse(k.users)
  {
    var rest := k.bufs[..b] + k.bufs[b + 1..];
    var keys := Keys(rest, NBUF - 1);
    forall u | u in k.users ensures UsedKey(k.users[u]) in keys && UsedKey(k.users[u]) != KeyOf(k.bufs[b]) {
      Using(k, u);
      if UsedKey(k.users[u]) == KeyOf(k.bufs[b]) { OneBuffer(k, u, b); }
      var c := k.users[u].b;
      assert k.on[c] != {} && k.bufs[c].refcnt == |k.on[c]|;
      assert rest[if c < b then c else c - 1] == k.bufs[c];
    }
    hide CacheOk, Keys;
    KeysCount(rest, NBUF - 1);
    SubsetCount(InUse(k.users), keys);
  }

  lemma BgetPanics(k: Cache, u: nat, dev: nat, block: nat)
    requires CacheOk(k) && SizedCache(k) && u !in k.users && dev != 0 && (dev, block) in k.disk
    requires forall c :: 0 <= c < NBUF ==> k.bufs[c].refcnt > 0 && !(k.bufs[c].dev == dev && k.bufs[c].blockno == block)
    ensures Does(BgetStep(u, dev, block), Panicked, ViewOf(k), ViewOf(k))
  {
    AllInUse(k);
    NotInUse(k, dev, block);
  }

  lemma NotInUse(k: Cache, dev: nat, block: nat)
    requires CacheOk(k) && SizedCache(k)
    requires forall c :: 0 <= c < NBUF ==> !(k.bufs[c].dev == dev && k.bufs[c].blockno == block)
    ensures (dev, block) !in InUse(k.users)
  {
    forall w | w in k.users ensures UsedKey(k.users[w]) != (dev, block) { Using(k, w); }
  }

  lemma BgetHits(k: Cache, u: nat, b: nat, dev: nat, block: nat)
    requires CacheOk(k) && SizedCache(k) && u !in k.users && dev != 0 && (dev, block) in k.disk
    requires b < NBUF && k.bufs[b].dev == dev && k.bufs[b].blockno == block && CacheOk(Hit(k, u, b, dev, block))
    ensures Does(BgetStep(u, dev, block), Done, ViewOf(k), ViewOf(Hit(k, u, b, dev, block)))
  {
    if k.bufs[b].refcnt > 0 { BufferInUse(k, b); } else { SomeFree(k, b); }
    hide CacheOk, Now, InUse;
    SameNow(k, Hit(k, u, b, dev, block));
  }

  lemma NoOther(k: Cache, b: nat)
    requires CacheOk(k) && SizedCache(k) && b < NBUF
    ensures forall c: nat :: c != b ==> !Unsaved(k, KeyOf(k.bufs[b]), c)
  {
    forall c: nat | c != b && c in k.dirty && c < NBUF ensures KeyOf(k.bufs[c]) != KeyOf(k.bufs[b]) {
      At(k, c);
      assert !Same(k.bufs[c], k.bufs[b]);
    }
  }

  /** Recycling a buffer forgets its unsaved change. */
  lemma RecycledNow(k: Cache, u: nat, b: nat, dev: nat, block: nat)
    requires CacheOk(k) && SizedCache(k) && b < NBUF
    requires CacheOk(Hit(Recycled(k, b, dev, block), u, b, dev, block))
    ensures var k', e := Hit(Recycled(k, b, dev, block), u, b, dev, block), KeyOf(k.bufs[b]);
            SizedCache(k') && Now(k') == if e in k.disk then Now(k)[e := k.disk[e]] else Now(k)
  {
    var k', e := Hit(Recycled(k, b, dev, block), u, b, dev, block), KeyOf(k.bufs[b]);
    NoOther(k, b);
    hide CacheOk, Now;
    NowKeys(k);
    NowKeys(k');
    forall d | d in k.disk && d != e ensures Now(k')[d] == Now(k)[d] {
      forall c: nat ensures Unsaved(k, d, c) <==> Unsaved(k', d, c) {}
      SameAt(k, k', d);
    }
    if e in k.disk {
      forall c: nat ensures !Unsaved(k', e, c) { assert c != b ==> !Unsaved(k, e, c); }
      NowOff(k', e);
    }
  }

  lemma BgetRecycles(k: Cache, u: nat, b: nat, dev: nat, block: nat)
    requires CacheOk(k) && SizedCache(k) && u !in k.users && dev != 0 && (dev, block) in k.disk
    requires b < NBUF && k.bufs[b].refcnt == 0
    requires forall c :: 0 <= c < NBUF ==> !(k.bufs[c].dev == dev && k.bufs[c].blockno == block)
    requires CacheOk(Hit(Recycled(k, b, dev, block), u, b, dev, block))
    ensures Does(BgetStep(u, dev, block), Done, ViewOf(k), ViewOf(Hit(Recycled(k, b, dev, block), u, b, dev, block)))
  {
    var k', e := Hit(Recycled(k, b, dev, block), u, b, dev, block), KeyOf(k.bufs[b]);
    hide CacheOk, Now, InUse;
    SomeFree(k, b);
    NotInUse(k, dev, block);
    RecycledNow(k, u, b, dev, block);
    assert e != (dev, block);
    assert e in k.disk ==> Forgets(ViewOf(k), Now(k'), e);
  }

  lemma BgetView(k: Cache, stamp: seq<nat>, u: nat, b: nat, dev: nat, block: nat)
    requires CacheOk(k) && SizedCache(k) && u !in k.users && dev != 0 && (dev, block) in k.disk
    requires Oldest(k.bufs, stamp, b, dev, block) && CacheOk(Hit(Chosen(k, b, dev, block), u, b, dev, block))
    ensures Does(BgetStep(u, dev, block), Done, ViewOf(k), ViewOf(Hit(Chosen(k, b, dev, block), u, b, dev, block)))
  {
    hide CacheOk, Does, ViewOf;
    if k.bufs[b].dev == dev && k.bufs[b].blockno == block {
      BgetHits(k, u, b, dev, block);
    } else {
      BgetRecycles(k, u, b, dev, block);
    }
  }

  /** One step of one caller, if it is possible. */
  method Do(c: Bcache, a: Action) returns (out: Out)
    requires c.Valid()
    modifies c
    ensures c.Valid() && SizedCache(old(c.Contents())) && SizedCache(c.Contents())
    ensures Does(a, out, ViewOf(old(c.Contents())), ViewOf(c.Contents()))
  {
    hide CacheOk, ListOk, Now, InUse, Held, Oldest, Got;
    ghost var k := c.Contents();
    Size(k);
    out := Passed;
    match a
    case BgetStep(u, dev, block) =>
      if u !in c.users && dev != 0 && (dev, block) in c.disk {
        ghost var stamp := c.stamp;
        var ok := c.Bget(u, dev, block);
        out := if ok then Done else Panicked;
        if ok { BgetView(k, stamp, u, c.users[u].b, dev, block); } else { BgetPanics(k, u, dev, block); }
      }
    case AcquireStep(u) =>
      if u in c.users && c.users[u].Waiting? {
        LockIsFree(k, u);
        if c.owner[c.users[u].b].Free? {
          c.Acquire(u);
          AcquireView(k, u);
          out := Done;
        }
      }
    case FetchStep(u) =>
      if u in c.users && c.users[u].Holding? {
        var data := c.Fetch(u);
        FetchView(k, u, data);
        out := Saw(data);
      }
    case ChangeStep(u, data) =>
      if u in c.users && c.users[u].Holding? && c.users[u].read {
        c.Change(u, data);
        ChangeView(k, u, data);
        out := Done;
      }
    case BwriteStep(u) =>
      if u in c.users && c.users[u].Holding? && c.users[u].read {
        c.Bwrite(u);
        WriteView(k, u);
        out := Done;
      }
    case UnlockStep(u) =>
      if u in c.users && c.users[u].Holding? {
        c.Unlock(u);
        ReleaseView(k, u);
        out := Done;
      }
    case DropStep(u) =>
      if u in c.users && c.users[u].Dropping? {
        c.Drop(u);
        ReleaseView(k, u);
        out := Done;
      }
  }

  ghost predicate IsRun(actions: seq<Action>, outs: seq<Out>, views: seq<View>) {
    && |outs| == |actions| && |views| == |actions| + 1
    && forall i :: 0 <= i < |actions| ==> Does(actions[i], outs[i], views[i], views[i + 1])
  }

  /** Any interleaving of callers is a run of the store without a cache, up to the first panic. */
  method Run(c: Bcache, actions: seq<Action>) returns (outs: seq<Out>, ghost views: seq<View>)
    requires c.Valid()
    modifies c
    ensures c.Valid() && SizedCache(old(c.Contents())) && SizedCache(c.Contents())
    ensures |outs| <= |actions| && IsRun(actions[..|outs|], outs, views)
    ensures views[0] == ViewOf(old(c.Contents())) && views[|outs|] == ViewOf(c.Contents())
    ensures Panicked in outs <==> |outs| > 0 && outs[|outs| - 1] == Panicked
    ensures Panicked !in outs ==> |outs| == |actions|
  {
    hide CacheOk, ListOk, Does, ViewOf;
    Size(c.Contents());
    outs, views := [], [ViewOf(c.Contents())];
    for i := 0 to |actions|
      invariant c.Valid() && SizedCache(c.Contents()) && |outs| == i && IsRun(actions[..i], outs, views)
      invariant views[0] == ViewOf(old(c.Contents())) && views[i] == ViewOf(c.Contents()) && Panicked !in outs
    {
      var out := Do(c, actions[i]);
      outs, views := outs + [out], views + [ViewOf(c.Contents())];
      if out == Panicked { return; }
    }
  }

  /** The step changes block `d`. */
  predicate Changes(a: Action, v: View, d: Key) { a.ChangeStep? && HoldsRead(v, a.u) && UsedKey(v.users[a.u]) == d }

  lemma StepShows(a: Action, out: Out, v: View, v': View, d: Key)
    requires Does(a, out, v, v') && d in v.now && d in v.disk && !Changes(a, v, d)
    requires d in InUse(v.users) || v.now[d] == v.disk[d]
    ensures d in v'.now && d in v'.disk && v'.now[d] == v.now[d]
  {
    hide InUse;
  }

  /** In every run a block shows the same to every caller until it is changed, as long as it is in use or
      what it shows is on the disk. */
  lemma {:induction false} ShownUntilChanged(actions: seq<Action>, outs: seq<Out>, views: seq<View>, d: Key, i: nat,
                                             j: nat)
    requires IsRun(actions, outs, views) && i <= j < |views| && d in views[i].now && d in views[i].disk
    requires forall n :: i <= n < j ==> !Changes(actions[n], views[n], d)
    requires forall n :: i <= n < j ==>
               || d in InUse(views[n].users)
               || (d in views[n].now && d in views[n].disk && views[n].now[d] == views[n].disk[d])
    ensures d in views[j].now && d in views[j].disk && views[j].now[d] == views[i].now[d]
  {
    if i < j {
      hide Does, InUse, Changes;
      ShownUntilChanged(actions, outs, views, d, i, j - 1);
      assert Does(actions[j - 1], outs[j - 1], views[j - 1], views[j - 1 + 1]);
      StepShows(actions[j - 1], outs[j - 1], views[j - 1], views[j], d);
    }
  }
}
