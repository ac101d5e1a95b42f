/** The disk driver and its device: descriptors, the two rings and their 16-bit indices
    (kernel/dev/virtio_disk.c, kernel/include/virtio.h). The driver's part is cut into the pieces
    between which the device can act; the device takes and completes requests in any order. */
module Virtio {

  const NUM := 8
  const WRAP := 0x1_0000
  const BSIZE := 1024

  type Bytes = seq<int>

  /** What a descriptor points to. */
  datatype Addr = Null | OpOf(i: nat) | DataOf(b: nat) | StatusOf(i: nat)

  datatype Desc = Desc(addr: Addr, len: nat, next?: bool, write?: bool, next: nat)

  datatype Op = Op(write: bool, sector: nat)

  datatype Info = Info(b: Buf, status: nat)

  datatype Buf = NoBuf | Some(b: nat)

  const ZERODESC := Desc(Null, 0, false, false, 0)

  /** A request in the queue, by its first descriptor: the caller's order, the other two
      descriptors, and what is to be written, or what was read once it is complete. */
  datatype Req = Req(buf: nat, write: bool, block: nat, i1: nat, i2: nat, bytes: Bytes)

  type Reqs = map<nat, Req>

  function Set3<T>(s: seq<T>, i: nat, j: nat, k: nat, v: T): (r: seq<T>)
    requires i < |s| && j < |s| && k < |s|
    ensures |r| == |s| && forall x :: 0 <= x < |s| ==> r[x] == if x == i || x == j || x == k then v else s[x]
  {
    s[i := v][j := v][k := v]
  }

  function Chain(h: nat, r: Req): set<nat> { {h, r.i1, r.i2} }

  /** The descriptors and tables say what the request is. */
  ghost predicate Describes(desc: seq<Desc>, ops: seq<Op>, info: seq<Info>, h: nat, r: Req)
    requires |desc| == |ops| == |info| == NUM
  {
    h < NUM && r.i1 < NUM && r.i2 < NUM && h != r.i1 && h != r.i2 && r.i1 != r.i2 &&
    desc[h] == Desc(OpOf(h), 16, true, false, r.i1) &&
    desc[r.i1] == Desc(DataOf(r.buf), BSIZE, true, !r.write, r.i2) &&
    desc[r.i2] == Desc(StatusOf(h), 1, false, true, 0) &&
    ops[h] == Op(r.write, 2 * r.block) && info[h].b == Some(r.buf)
  }

  ghost predicate Sized(free: seq<bool>, desc: seq<Desc>, ops: seq<Op>, info: seq<Info>) {
    |free| == |desc| == |ops| == |info| == NUM
  }

  /** Whose a descriptor is: nobody's, the present caller's (`mine`), or that of the request that
      starts at the given descriptor. */
  datatype Whose = Nobody | Caller | Of(h: nat)

  type Own = seq<Whose>

  ghost predicate Chains(free: seq<bool>, desc: seq<Desc>, ops: seq<Op>, info: seq<Info>, reqs: Reqs, mine: set<nat>,
                         own: Own)
  {
    Sized(free, desc, ops, info) && |own| == NUM &&
    (forall i :: 0 <= i < NUM ==> DescOk(free, desc, reqs, mine, own, i)) &&
    (forall h ::
       h in reqs ==> Describes(desc, ops, info, h, reqs[h]) && own[h] == own[reqs[h].i1] == own[reqs[h].i2] == Of(h))
  }

  ghost predicate DescOk(free: seq<bool>, desc: seq<Desc>, reqs: Reqs, mine: set<nat>, own: Own, i: nat)
    requires |free| == |desc| == |own| == NUM && i < NUM
  {
    (free[i] <==> own[i] == Nobody) && (own[i] == Nobody ==> desc[i] == ZERODESC) &&
    (i in mine <==> own[i] == Caller) &&
    (own[i].Of? ==> own[i].h in reqs && i in Chain(own[i].h, reqs[own[i].h]))
  }

  /** Requests in flight own disjoint chains, and none of their descriptors is free. */
  lemma Disjoint(free: seq<bool>, desc: seq<Desc>, ops: seq<Op>, info: seq<Info>, reqs: Reqs, mine: set<nat>, own: Own,
                 h: nat, g: nat)
    requires Chains(free, desc, ops, info, reqs, mine, own) && h in reqs && g in reqs && h != g
    ensures Chain(h, reqs[h]) !! Chain(g, reqs[g]) && forall i :: i in Chain(h, reqs[h]) ==> i < NUM && !free[i]
  {
    assert Describes(desc, ops, info, h, reqs[h]) && Describes(desc, ops, info, g, reqs[g]);
    forall i | i in Chain(h, reqs[h]) ensures i < NUM && !free[i] {
      assert DescOk(free, desc, reqs, mine, own, i);
    }
  }

  lemma ChainsAlloc(free: seq<bool>, desc: seq<Desc>, ops: seq<Op>, info: seq<Info>, reqs: Reqs, own: Own, i0: nat,
                    i1: nat, i2: nat)
    requires Chains(free, desc, ops, info, reqs, {}, own)
    requires i0 < NUM && i1 < NUM && i2 < NUM && i0 != i1 && i0 != i2 && i1 != i2 && free[i0] && free[i1] && free[i2]
    ensures Chains(Set3(free, i0, i1, i2, false), desc, ops, info, reqs, {i0, i1, i2}, Set3(own, i0, i1, i2, Caller))
  {
    hide Describes, Set3;
    var free', own', none, mine := Set3(free, i0, i1, i2, false), Set3(own, i0, i1, i2, Caller), {}, {i0, i1, i2};
    forall i | 0 <= i < NUM ensures DescOk(free', desc, reqs, mine, own', i) {
      assert DescOk(free, desc, reqs, none, own, i);
    }
    forall h | h in reqs
      ensures h < NUM && reqs[h].i1 < NUM && reqs[h].i2 < NUM &&
              own'[h] == own'[reqs[h].i1] == own'[reqs[h].i2] == Of(h)
    {
      Bounds(desc, ops, info, h, reqs[h]);
      assert DescOk(free, desc, reqs, none, own, i0) && DescOk(free, desc, reqs, none, own, i1) &&
             DescOk(free, desc, reqs, none, own, i2);
    }
  }

  lemma Bounds(desc: seq<Desc>, ops: seq<Op>, info: seq<Info>, h: nat, r: Req)
    requires |desc| == |ops| == |info| == NUM && Describes(desc, ops, info, h, r)
    ensures h < NUM && r.i1 < NUM && r.i2 < NUM && h != r.i1 && h != r.i2 && r.i1 != r.i2
  {
  }

  /** Writing the caller's own descriptors and table entries disturbs no request. */
  lemma ChainsFrame(free: seq<bool>, desc: seq<Desc>, ops: seq<Op>, info: seq<Info>, reqs: Reqs, mine: set<nat>,
                    own: Own,
                    desc': seq<Desc>, ops': seq<Op>, info': seq<Info>)
    requires Chains(free, desc, ops, info, reqs, mine, own) && |desc'| == |ops'| == |info'| == NUM
    requires forall i ::
               0 <= i < NUM && i !in mine ==> desc'[i] == desc[i] && ops'[i] == ops[i] && info'[i].b == info[i].b
    ensures Chains(free, desc', ops', info', reqs, mine, own)
  {
    forall i | 0 <= i < NUM ensures DescOk(free, desc', reqs, mine, own, i) {
      assert DescOk(free, desc, reqs, mine, own, i);
    }
    forall h | h in reqs ensures Describes(desc', ops', info', h, reqs[h]) {
      assert Describes(desc, ops, info, h, reqs[h]);
      assert DescOk(free, desc, reqs, mine, own, h) && DescOk(free, desc, reqs, mine, own, reqs[h].i1) &&
             DescOk(free, desc, reqs, mine, own, reqs[h].i2);
    }
  }

  /** The caller's descriptors become those of a request. */
  lemma ChainsJoin(free: seq<bool>, desc: seq<Desc>, ops: seq<Op>, info: seq<Info>, reqs: Reqs, own: Own, h: nat,
                   r: Req)
    requires Chains(free, desc, ops, info, reqs, {h, r.i1, r.i2}, own) && Describes(desc, ops, info, h, r)
    ensures h !in reqs && Chains(free, desc, ops, info, reqs[h := r], {}, Set3(own, h, r.i1, r.i2, Of(h)))
  {
    hide Describes, Set3;
    Bounds(desc, ops, info, h, r);
    var none, mine, own', reqs' := {}, {h, r.i1, r.i2}, Set3(own, h, r.i1, r.i2, Of(h)), reqs[h := r];
    assert DescOk(free, desc, reqs, mine, own, h) && DescOk(free, desc, reqs, mine, own, r.i1) &&
           DescOk(free, desc, reqs, mine, own, r.i2);
    forall i | 0 <= i < NUM ensures DescOk(free, desc, reqs', none, own', i) {
      assert DescOk(free, desc, reqs, mine, own, i);
    }
    forall g | g in reqs
      ensures g < NUM && reqs[g].i1 < NUM && reqs[g].i2 < NUM &&
              own'[g] == own'[reqs[g].i1] == own'[reqs[g].i2] == Of(g)
    {
      Bounds(desc, ops, info, g, reqs[g]);
    }
  }

  /** A request's chain is given back. */
  lemma ChainsLeave(free: seq<bool>, desc: seq<Desc>, ops: seq<Op>, info: seq<Info>, reqs: Reqs, own: Own, h: nat,
                    r: Req, info': seq<Info>)
    requires Chains(free, desc, ops, info, reqs, {}, own) && h in reqs && r == reqs[h] && |info'| == NUM
    requires h < NUM && r.i1 < NUM && r.i2 < NUM && forall i :: 0 <= i < NUM && i != h ==> info'[i] == info[i]
    ensures Chains(Set3(free, h, r.i1, r.i2, true), Set3(desc, h, r.i1, r.i2, ZERODESC), ops, info', reqs - {h}, {},
                   Set3(own, h, r.i1, r.i2, Nobody))
  {
    hide Set3;
    var none, free', desc', own', reqs' := {}, Set3(free, h, r.i1, r.i2, true), Set3(desc, h, r.i1, r.i2, ZERODESC),
      Set3(own, h, r.i1, r.i2, Nobody), reqs - {h};
    forall i | 0 <= i < NUM ensures DescOk(free', desc', reqs', none, own', i) {
      assert DescOk(free, desc, reqs, none, own, i);
    }
    forall g | g in reqs' ensures Describes(desc', ops, info', g, reqs[g]) {
      assert Describes(desc, ops, info, g, reqs[g]);
    }
  }

  /** None of a request's descriptors is free. */
  lemma ChainTaken(free: seq<bool>, desc: seq<Desc>, ops: seq<Op>, info: seq<Info>, reqs: Reqs, mine: set<nat>,
                   own: Own, h: nat)
    requires Chains(free, desc, ops, info, reqs, mine, own) && h in reqs
    ensures Describes(desc, ops, info, h, reqs[h]) && !free[h] && !free[reqs[h].i1] && !free[reqs[h].i2]
  {
    var r := reqs[h];
    assert DescOk(free, desc, reqs, mine, own, h) && DescOk(free, desc, reqs, mine, own, r.i1) &&
           DescOk(free, desc, reqs, mine, own, r.i2);
  }

  /** A ring holds the entries between its reader and its writer, in order. `n` entries were ever
      read; the 16-bit indices are the counts modulo 2^16. */
  ghost predicate Ring(ring: seq<nat>, n: nat, q: seq<nat>, writer: nat, reader: nat) {
    |ring| == NUM && writer == Wrap(n + |q|) && reader == Wrap(n) && |q| <= NUM &&
    forall x :: n <= x < n + |q| ==> ring[Place(x)] == q[x - n]
  }

  /** The ring entry for the `x`-th item. */
  function Place(x: nat): (p: nat)
    ensures p < NUM
  {
    x % NUM
  }

  function Wrap(x: nat): nat { x % WRAP }

  ghost predicate NoDup(q: seq<nat>) { forall i, j :: 0 <= i < j < |q| ==> q[i] != q[j] }

  /** Where each request is: queued, taken by the device, completed, or seen by the driver. */
  ghost predicate Stages(reqs: Reqs, queue: seq<nat>, taken: set<nat>, doneq: seq<nat>) {
    NoDup(queue) && NoDup(doneq) &&
    (forall h :: h in queue ==> h in reqs && h !in taken && h !in doneq) &&
    (forall h :: h in taken ==> h in reqs && h !in doneq) && (forall h :: h in doneq ==> h in reqs)
  }

  /** The buffers: `busy` are those with their disk flag set. */
  ghost predicate Buffers(reqs: Reqs, queue: seq<nat>, taken: set<nat>, doneq: seq<nat>, info: seq<Info>,
                          busy: set<nat>, data: map<nat, Bytes>)
    requires |info| == NUM
  {
    (forall h :: h in reqs ==> h < NUM && reqs[h].buf in data) &&
    (forall h, g :: h in reqs && g in reqs && h != g ==> reqs[h].buf != reqs[g].buf) &&
    (forall h :: h in reqs && (h in queue || h in taken) ==> info[h].status == 0xff && reqs[h].buf in busy) &&
    (forall h :: h in reqs && h in doneq ==> reqs[h].buf in busy) &&
    (forall h ::
       h in reqs && h !in queue && h !in taken && h !in doneq ==> info[h].status == 0 && reqs[h].buf !in busy) &&
    (forall h :: h in reqs && (reqs[h].write || (h !in queue && h !in taken)) ==> data[reqs[h].buf] == reqs[h].bytes)
  }

  lemma BuffersFrame(reqs: Reqs, queue: seq<nat>, taken: set<nat>, doneq: seq<nat>, info: seq<Info>, busy: set<nat>,
                     data: map<nat, Bytes>,
                     info': seq<Info>, busy': set<nat>, data': map<nat, Bytes>)
    requires |info| == |info'| == NUM && Buffers(reqs, queue, taken, doneq, info, busy, data)
    requires forall h ::
               h in reqs ==>
                 h < NUM && info'[h].status == info[h].status && (reqs[h].buf in busy' <==> reqs[h].buf in busy)
    requires forall h ::
               h in reqs ==> reqs[h].buf in data && reqs[h].buf in data' && data'[reqs[h].buf] == data[reqs[h].buf]
    ensures Buffers(reqs, queue, taken, doneq, info', busy', data')
  {
  }

  /** Distinct numbers below `n` are at most `n`. */
  lemma {:induction false} Pigeons(q: seq<nat>, s: set<nat>)
    requires NoDup(q) && forall h :: h in q ==> h in s
    ensures |q| <= |s|
    decreases |q|
  {
    if q != [] {
      var last := q[|q| - 1];
      Pigeons(q[..|q| - 1], s - {last});
    }
  }

  lemma AtMost(q: seq<nat>)
    requires NoDup(q) && forall h :: h in q ==> h < NUM
    ensures |q| <= NUM
  {
    Pigeons(q, {0, 1, 2, 3, 4, 5, 6, 7});
  }

  /** A wrapped index still names the right entry, and distinguishes nearby counts. */
  lemma Wrapped(x: nat)
    ensures Place(Wrap(x)) == Place(x) && Wrap(Wrap(x) + 1) == Wrap(x + 1)
  {
    WrappedPlace(x / WRAP, Wrap(x));
    WrappedNext(x / WRAP, Wrap(x));
  }

  lemma WrappedPlace(k: nat, y: nat)
    ensures Place(k * WRAP + y) == Place(y)
  {
    assert k * WRAP + y == NUM * (k * (WRAP / NUM)) + y;
  }

  lemma WrappedNext(k: nat, y: nat)
    requires y < WRAP
    ensures Wrap(y + 1) == Wrap(k * WRAP + y + 1)
  {
    if y + 1 == WRAP { assert k * WRAP + y + 1 == (k + 1) * WRAP; }
  }

  lemma Apart(x: nat, y: nat)
    requires x < y
    ensures y < x + NUM ==> Place(x) != Place(y)
    ensures y < x + WRAP ==> Wrap(x) != Wrap(y)
  {
    if Place(x) == Place(y) { assert y - x == NUM * (y / NUM - x / NUM); }
    if Wrap(x) == Wrap(y) { assert y - x == WRAP * (y / WRAP - x / WRAP); }
  }

  /** Writing the next entry of a ring that is not full overwrites nothing unread. */
  lemma RingPut(ring: seq<nat>, n: nat, q: seq<nat>, writer: nat, reader: nat, h: nat)
    requires Ring(ring, n, q, writer, reader) && |q| < NUM
    ensures Ring(ring[Place(writer) := h], n, q, writer, reader)
    ensures Ring(ring[Place(writer) := h], n, q + [h], Wrap(writer + 1), reader)
  {
    hide Place, Wrap;
    Wrapped(n + |q|);
    forall x | n <= x < n + |q| ensures Place(x) != Place(n + |q|) {
      Apart(x, n + |q|);
    }
  }

  /** Reading an entry: the indices differ just when there is one, and it is the oldest. */
  lemma RingGet(ring: seq<nat>, n: nat, q: seq<nat>, writer: nat, reader: nat)
    requires Ring(ring, n, q, writer, reader)
    ensures reader != writer <==> |q| > 0
    ensures |q| > 0 ==> ring[Place(reader)] == q[0] && Ring(ring, n + 1, q[1..], writer, Wrap(reader + 1))
  {
    hide Place, Wrap;
    if |q| > 0 {
      Apart(n, n + |q|);
      Wrapped(n);
    }
  }

  lemma NotMine(free: seq<bool>, desc: seq<Desc>, ops: seq<Op>, info: seq<Info>, reqs: Reqs, mine: set<nat>, own: Own)
    requires Chains(free, desc, ops, info, reqs, mine, own)
    ensures forall h :: h in reqs ==> h < NUM && h !in mine
  {
    forall h | h in reqs ensures h < NUM && h !in mine {
      assert DescOk(free, desc, reqs, mine, own, h);
    }
  }

  lemma InData(reqs: Reqs, queue: seq<nat>, taken: set<nat>, doneq: seq<nat>, info: seq<Info>, busy: set<nat>,
               data: map<nat, Bytes>)
    requires |info| == NUM && Buffers(reqs, queue, taken, doneq, info, busy, data)
    ensures forall h :: h in reqs ==> reqs[h].buf in data
  {
  }

  /** How far the caller that holds the driver's lock has come with its request. */
  datatype Phase = Idle
    | Busy(buf: nat, write: bool, block: nat, given: Bytes, i0: nat, i1: nat, i2: nat, formatted: bool, posted: bool)

  function Mine(p: Phase): set<nat> { if p.Idle? then {} else {p.i0, p.i1, p.i2} }

  function ReqOf(p: Phase): Req
    requires p.Busy?
  {
    Req(p.buf, p.write, p.block, p.i1, p.i2, if p.write then p.given else [])
  }

  /** The caller's request, as far as it has come. */
  ghost predicate PhaseOk(p: Phase, desc: seq<Desc>, ops: seq<Op>, info: seq<Info>, reqs: Reqs, busy: set<nat>,
                          data: map<nat, Bytes>, platter: map<nat, Bytes>, ring: seq<nat>, avail: nat)
    requires |desc| == |ops| == |info| == |ring| == NUM
  {
    (forall h :: h in reqs ==> reqs[h].block in platter) &&
    (p.Busy? ==> p.buf in data && data[p.buf] == p.given && p.block in platter &&
                 (forall h :: h in reqs ==> reqs[h].buf != p.buf) && PhaseDescs(p, desc, ops, info, busy, ring, avail))
  }

  ghost predicate PhaseDescs(p: Phase, desc: seq<Desc>, ops: seq<Op>, info: seq<Info>, busy: set<nat>, ring: seq<nat>,
                             avail: nat)
    requires |desc| == |ops| == |info| == |ring| == NUM && p.Busy?
  {
    p.i0 < NUM && p.i1 < NUM && p.i2 < NUM && p.i0 != p.i1 && p.i0 != p.i2 && p.i1 != p.i2 &&
    (p.formatted ==> Describes(desc, ops, info, p.i0, ReqOf(p)) && info[p.i0].status == 0xff && p.buf in busy) &&
    (p.posted ==> p.formatted && ring[Place(avail)] == p.i0)
  }

  /** The tables after the caller has filled in its request. */
  function DescsOf(desc: seq<Desc>, p: Phase): (d: seq<Desc>)
    requires |desc| == NUM && p.Busy? && p.i0 < NUM && p.i1 < NUM && p.i2 < NUM
    ensures |d| == NUM && forall i :: 0 <= i < NUM && i !in Mine(p) ==> d[i] == desc[i]
  {
    desc[p.i0 := Desc(OpOf(p.i0), 16, true, false, p.i1)]
        [p.i1 := Desc(DataOf(p.buf), BSIZE, true, !p.write, p.i2)]
        [p.i2 := Desc(StatusOf(p.i0), 1, false, true, 0)]
  }

  lemma PhaseFormat(p: Phase, desc: seq<Desc>, ops: seq<Op>, info: seq<Info>, busy: set<nat>, ring: seq<nat>,
                    avail: nat)
    requires |desc| == |ops| == |info| == |ring| == NUM && p.Busy? && !p.posted &&
             PhaseDescs(p, desc, ops, info, busy, ring, avail)
    ensures PhaseDescs(p.(formatted := true), DescsOf(desc, p), ops[p.i0 := Op(p.write, p.block * (BSIZE / 512))],
                       info[p.i0 := Info(Some(p.buf), 0xff)], busy + {p.buf}, ring, avail)
  {
  }

  /** What the driver and the device keep in memory. */
  datatype State = State(
    free: seq<bool>, desc: seq<Desc>, ops: seq<Op>, info: seq<Info>, availRing: seq<nat>, availIdx: nat,
    usedRing: seq<nat>, usedRingIdx: nat, usedIdx: nat, data: map<nat, Bytes>, busy: set<nat>,
    lastAvail: nat, taken: set<nat>, platter: map<nat, Bytes>, phase: Phase)

  /** What it means: the requests, whose each descriptor is, and the rings as queues. */
  datatype Meaning = Meaning(reqs: Reqs, own: Own, queue: seq<nat>, doneq: seq<nat>, nAvail: nat, nUsed: nat)

  ghost predicate Inv(s: State, g: Meaning) {
    Chains(s.free, s.desc, s.ops, s.info, g.reqs, Mine(s.phase), g.own) &&
    Ring(s.availRing, g.nAvail, g.queue, s.availIdx, s.lastAvail) &&
    Ring(s.usedRing, g.nUsed, g.doneq, s.usedRingIdx, s.usedIdx) &&
    Stages(g.reqs, g.queue, s.taken, g.doneq) && Buffers(g.reqs, g.queue, s.taken, g.doneq, s.info, s.busy, s.data) &&
    PhaseOk(s.phase, s.desc, s.ops, s.info, g.reqs, s.busy, s.data, s.platter, s.availRing, s.availIdx)
  }

  lemma BeginInv(s: State, g: Meaning, p: Phase)
    requires Inv(s, g) && s.phase.Idle? && p.Busy? && !p.formatted && !p.posted
    requires p.buf in s.data && s.data[p.buf] == p.given && p.block in s.platter
    requires forall h :: h in g.reqs ==> g.reqs[h].buf != p.buf
    requires p.i0 < NUM && p.i1 < NUM && p.i2 < NUM && p.i0 != p.i1 && p.i0 != p.i2 && p.i1 != p.i2
    requires |s.free| == |g.own| == NUM && s.free[p.i0] && s.free[p.i1] && s.free[p.i2]
    ensures Inv(s.(free := Set3(s.free, p.i0, p.i1, p.i2, false), phase := p),
                g.(own := Set3(g.own, p.i0, p.i1, p.i2, Caller)))
  {
    hide Chains, Ring, Stages, Buffers, Describes, Set3;
    ChainsAlloc(s.free, s.desc, s.ops, s.info, g.reqs, g.own, p.i0, p.i1, p.i2);
  }

  ghost function Formatted(s: State): State
    requires |s.desc| == |s.ops| == |s.info| == NUM && s.phase.Busy? && s.phase.i0 < NUM && s.phase.i1 < NUM &&
             s.phase.i2 < NUM
  {
    var p := s.phase;
    s.(ops := s.ops[p.i0 := Op(p.write, p.block * (BSIZE / 512))], desc := DescsOf(s.desc, p),
       info := s.info[p.i0 := Info(Some(p.buf), 0xff)], busy := s.busy + {p.buf}, phase := p.(formatted := true))
  }

  lemma Sizes(s: State, g: Meaning)
    requires Inv(s, g)
    ensures Sized(s.free, s.desc, s.ops, s.info) && |s.availRing| == |s.usedRing| == |g.own| == NUM
    ensures s.phase.Busy? ==> s.phase.i0 < NUM && s.phase.i1 < NUM && s.phase.i2 < NUM
  {
    hide Stages, Buffers, Describes, DescOk;
  }

  lemma FormatInv(s: State, g: Meaning)
    requires Inv(s, g) && s.phase.Busy? && !s.phase.formatted
    ensures Sized(s.free, s.desc, s.ops, s.info) && s.phase.i0 < NUM && s.phase.i1 < NUM && s.phase.i2 < NUM &&
            Inv(Formatted(s), g)
  {
    hide Chains, Ring, Stages, Buffers, Describes, DescsOf;
    Sizes(s, g);
    var s', p := Formatted(s), s.phase;
    PhaseFormat(p, s.desc, s.ops, s.info, s.busy, s.availRing, s.availIdx);
    ChainsFrame(s.free, s.desc, s.ops, s.info, g.reqs, Mine(p), g.own, s'.desc, s'.ops, s'.info);
    NotMine(s.free, s.desc, s.ops, s.info, g.reqs, Mine(p), g.own);
    InData(g.reqs, g.queue, s.taken, g.doneq, s.info, s.busy, s.data);
    BuffersFrame(g.reqs, g.queue, s.taken, g.doneq, s.info, s.busy, s.data, s'.info, s'.busy, s.data);
  }

  lemma FreeZero(s: State, g: Meaning)
    requires Inv(s, g)
    ensures Sized(s.free, s.desc, s.ops, s.info) && forall i :: 0 <= i < NUM && s.free[i] ==> s.desc[i] == ZERODESC
  {
    hide Ring, Stages, Buffers, PhaseOk, Describes;
    forall i | 0 <= i < NUM && s.free[i] ensures s.desc[i] == ZERODESC {
      assert DescOk(s.free, s.desc, g.reqs, Mine(s.phase), g.own, i);
    }
  }

  /** Everything in flight starts at a descriptor of its own. */
  lemma Heads(s: State, g: Meaning, h: nat)
    requires Inv(s, g) && h in g.reqs
    ensures h < NUM && h !in Mine(s.phase) && Describes(s.desc, s.ops, s.info, h, g.reqs[h])
  {
    hide Ring, Stages, Buffers, PhaseOk;
    assert DescOk(s.free, s.desc, g.reqs, Mine(s.phase), g.own, h);
  }

  /** There is room in the ring for a request that is not in it. */
  lemma RoomFor(s: State, g: Meaning, q: seq<nat>, h: nat)
    requires Inv(s, g) && h < NUM && NoDup(q) && h !in q && forall k :: k in q ==> k in g.reqs
    ensures |q| < NUM && NoDup(q + [h])
  {
    hide Inv;
    forall k | k in q + [h] ensures k < NUM {
      if k in q { Heads(s, g, k); }
    }
    AtMost(q + [h]);
  }

  lemma InQueues(s: State, g: Meaning)
    requires Inv(s, g)
    ensures NoDup(g.queue) && NoDup(g.doneq) && (forall h :: h in g.queue ==> h in g.reqs) &&
            forall h :: h in g.doneq ==> h in g.reqs
  {
    hide Ring, Chains, Buffers, PhaseOk;
  }

  lemma PostInv(s: State, g: Meaning)
    requires Inv(s, g) && s.phase.Busy? && s.phase.formatted && |s.availRing| == NUM
    ensures Inv(s.(availRing := s.availRing[Place(s.availIdx) := s.phase.i0], phase := s.phase.(posted := true)), g)
  {
    hide Chains, Stages, Buffers, Describes, Ring, Place;
    Sizes(s, g);
    InQueues(s, g);
    if s.phase.i0 in g.reqs { Heads(s, g, s.phase.i0); }
    RoomFor(s, g, g.queue, s.phase.i0);
    RingPut(s.availRing, g.nAvail, g.queue, s.availIdx, s.lastAvail, s.phase.i0);
  }

  ghost function Published(s: State): State
    requires s.phase.Busy?
  {
    s.(availIdx := Wrap(s.availIdx + 1), phase := Idle)
  }

  ghost function Joined(s: State, g: Meaning): Meaning
    requires s.phase.Busy? && |g.own| == NUM && s.phase.i0 < NUM && s.phase.i1 < NUM && s.phase.i2 < NUM
  {
    var p := s.phase;
    g.(reqs := g.reqs[p.i0 := ReqOf(p)], own := Set3(g.own, p.i0, p.i1, p.i2, Of(p.i0)), queue := g.queue + [p.i0])
  }

  lemma PublishInv(s: State, g: Meaning)
    requires Inv(s, g) && s.phase.Busy? && s.phase.posted
    ensures |g.own| == NUM && s.phase.i0 < NUM && s.phase.i1 < NUM && s.phase.i2 < NUM && s.phase.i0 !in g.reqs
    ensures Inv(Published(s), Joined(s, g))
  {
    hide Chains, Describes, Ring, Place, Wrap, Set3;
    Sizes(s, g);
    InQueues(s, g);
    var p := s.phase;
    if p.i0 in g.reqs { Heads(s, g, p.i0); }
    RoomFor(s, g, g.queue, p.i0);
    RingPut(s.availRing, g.nAvail, g.queue, s.availIdx, s.lastAvail, p.i0);
    assert s.availRing[Place(s.availIdx) := p.i0] == s.availRing;
    ChainsJoin(s.free, s.desc, s.ops, s.info, g.reqs, g.own, p.i0, ReqOf(p));
  }

  lemma TakeInv(s: State, g: Meaning)
    requires Inv(s, g) && s.lastAvail != s.availIdx && |s.availRing| == NUM
    ensures |g.queue| > 0 && s.availRing[Place(s.lastAvail)] == g.queue[0]
    ensures Inv(s.(lastAvail := Wrap(s.lastAvail + 1), taken := s.taken + {g.queue[0]}),
                g.(queue := g.queue[1..], nAvail := g.nAvail + 1))
  {
    hide Chains, Describes, Ring, Place, Wrap, PhaseOk;
    RingGet(s.availRing, g.nAvail, g.queue, s.availIdx, s.lastAvail);
    assert g.queue[0] !in g.queue[1..];
    assert g.queue == [g.queue[0]] + g.queue[1..];
  }

  /** How a request comes out: as ordered, or with an error, and then the buffer read into or the
      block written may be left with anything. */
  datatype Outcome = Done | Failed(status: nat, left: Bytes)

  predicate OutcomeOk(o: Outcome) { o.Failed? ==> o.status != 0 }

  function Code(o: Outcome): nat { if o.Done? then 0 else o.status }

  /** What the device does with request `h`: the transfer, the status byte, the used entry. */
  ghost function Completed(s: State, h: nat, r: Req, o: Outcome): State
    requires |s.info| == |s.usedRing| == NUM && h < NUM && r.buf in s.data && r.block in s.platter
  {
    s.(data := DataAfter(s.data, s.platter, r, o), platter := PlatterAfter(s.data, s.platter, r, o),
       info := s.info[h := s.info[h].(status := Code(o))], taken := s.taken - {h},
       usedRing := s.usedRing[Place(s.usedRingIdx) := h], usedRingIdx := Wrap(s.usedRingIdx + 1))
  }

  /** What the place written to holds afterwards: the block's bytes, or the buffer's. */
  function Moved(data: map<nat, Bytes>, platter: map<nat, Bytes>, r: Req, o: Outcome): Bytes
    requires r.buf in data && r.block in platter
  {
    if o.Failed? then o.left else if r.write then data[r.buf] else platter[r.block]
  }

  /** What the buffer holds afterwards. */
  function Transferred(data: map<nat, Bytes>, platter: map<nat, Bytes>, r: Req, o: Outcome): Bytes
    requires r.buf in data && r.block in platter
  {
    if r.write then data[r.buf] else Moved(data, platter, r, o)
  }

  /** A read changes its own buffer, a write its own block. */
  function DataAfter(data: map<nat, Bytes>, platter: map<nat, Bytes>, r: Req, o: Outcome): map<nat, Bytes>
    requires r.buf in data && r.block in platter
  {
    if r.write then data else data[r.buf := Moved(data, platter, r, o)]
  }

  function PlatterAfter(data: map<nat, Bytes>, platter: map<nat, Bytes>, r: Req, o: Outcome): map<nat, Bytes>
    requires r.buf in data && r.block in platter
  {
    if r.write then platter[r.block := Moved(data, platter, r, o)] else platter
  }

  /** The request's entry is in the used ring, with what it transferred. */
  ghost function Reported(g: Meaning, h: nat, bytes: Bytes): Meaning
    requires h in g.reqs
  {
    g.(reqs := g.reqs[h := g.reqs[h].(bytes := bytes)], doneq := g.doneq + [h])
  }

  lemma TakenFacts(s: State, g: Meaning, h: nat)
    requires Inv(s, g) && h in s.taken
    ensures h in g.reqs && h < NUM && Describes(s.desc, s.ops, s.info, h, g.reqs[h]) && h !in g.doneq && h !in g.queue
    ensures g.reqs[h].buf in s.data && g.reqs[h].block in s.platter && |s.usedRing| == NUM &&
            Sized(s.free, s.desc, s.ops, s.info)
  {
    hide Chains, Ring, Describes;
    Sizes(s, g);
    Heads(s, g, h);
  }

  lemma CompleteChains(s: State, g: Meaning, h: nat, bytes: Bytes, st: nat)
    requires Inv(s, g) && h in g.reqs && h < NUM && |s.info| == NUM
    ensures Chains(s.free, s.desc, s.ops, s.info[h := s.info[h].(status := st)],
                   g.reqs[h := g.reqs[h].(bytes := bytes)],
                   Mine(s.phase), g.own)
  {
    hide Ring, Stages, Buffers, PhaseOk;
    var info', reqs' := s.info[h := s.info[h].(status := st)], g.reqs[h := g.reqs[h].(bytes := bytes)];
    var mine := Mine(s.phase);
    forall i | 0 <= i < NUM ensures DescOk(s.free, s.desc, reqs', mine, g.own, i) {
      assert DescOk(s.free, s.desc, g.reqs, mine, g.own, i);
    }
    forall k | k in reqs' ensures Describes(s.desc, s.ops, info', k, reqs'[k]) {
      assert Describes(s.desc, s.ops, s.info, k, g.reqs[k]);
    }
  }

  /** The other buffers keep their bytes, and the request's own has what was transferred. */
  lemma CompleteBuffers(s: State, g: Meaning, h: nat, o: Outcome)
    requires Inv(s, g) && h in s.taken
    requires h in g.reqs && |s.info| == |s.usedRing| == NUM && h < NUM && g.reqs[h].buf in s.data &&
             g.reqs[h].block in s.platter
    ensures var s', g' := Completed(s, h, g.reqs[h], o), Reported(g, h, Transferred(s.data, s.platter, g.reqs[h], o));
            Stages(g'.reqs, g'.queue, s'.taken, g'.doneq) &&
            Buffers(g'.reqs, g'.queue, s'.taken, g'.doneq, s'.info, s'.busy, s'.data)
  {
    hide Chains, Ring, PhaseOk;
    TakenFacts(s, g, h);
    RoomFor(s, g, g.doneq, h);
  }

  lemma CompletePhase(s: State, g: Meaning, h: nat, o: Outcome)
    requires Inv(s, g) && h in s.taken
    requires h in g.reqs && |s.info| == |s.usedRing| == NUM && h < NUM && g.reqs[h].buf in s.data &&
             g.reqs[h].block in s.platter
    ensures var s', g' := Completed(s, h, g.reqs[h], o), Reported(g, h, Transferred(s.data, s.platter, g.reqs[h], o));
            |s'.desc| == |s'.ops| == |s'.availRing| == NUM &&
            PhaseOk(s'.phase, s'.desc, s'.ops, s'.info, g'.reqs, s'.busy, s'.data, s'.platter, s'.availRing,
                    s'.availIdx)
  {
    hide Chains, Ring, Stages, Buffers;
    Sizes(s, g);
    Heads(s, g, h);
  }

  lemma CompleteInv(s: State, g: Meaning, h: nat, o: Outcome)
    requires Inv(s, g) && h in s.taken
    requires h in g.reqs && |s.info| == |s.usedRing| == NUM && h < NUM && g.reqs[h].buf in s.data &&
             g.reqs[h].block in s.platter
    ensures Inv(Completed(s, h, g.reqs[h], o), Reported(g, h, Transferred(s.data, s.platter, g.reqs[h], o)))
  {
    hide Chains, Ring, Place, Wrap, Stages, Buffers, PhaseOk, Transferred, DataAfter, PlatterAfter;
    TakenFacts(s, g, h);
    InQueues(s, g);
    RoomFor(s, g, g.doneq, h);
    RingPut(s.usedRing, g.nUsed, g.doneq, s.usedRingIdx, s.usedIdx, h);
    CompleteChains(s, g, h, Transferred(s.data, s.platter, g.reqs[h], o), Code(o));
    CompleteBuffers(s, g, h, o);
    CompletePhase(s, g, h, o);
  }

  lemma IntrInv(s: State, g: Meaning)
    requires Inv(s, g) && s.usedIdx != s.usedRingIdx && |s.usedRing| == NUM
    ensures |g.doneq| > 0 && s.usedRing[Place(s.usedIdx)] == g.doneq[0] && g.doneq[0] in g.reqs
    ensures g.doneq[0] < NUM && |s.info| == NUM && s.info[g.doneq[0]].b == Some(g.reqs[g.doneq[0]].buf)
    ensures s.phase.Idle? && s.info[g.doneq[0]].status == 0 ==>
              Inv(s.(usedIdx := Wrap(s.usedIdx + 1), busy := s.busy - {g.reqs[g.doneq[0]].buf}),
                  g.(doneq := g.doneq[1..], nUsed := g.nUsed + 1))
  {
    hide Chains, Ring, Place, Wrap;
    RingGet(s.usedRing, g.nUsed, g.doneq, s.usedRingIdx, s.usedIdx);
    Sizes(s, g);
    var h := g.doneq[0];
    Heads(s, g, h);
    assert h !in g.doneq[1..];
    assert g.doneq == [h] + g.doneq[1..];
  }

  /** A request whose buffer is no longer marked has gone all the way. */
  lemma SeenFacts(s: State, g: Meaning, h: nat)
    requires Inv(s, g) && h in g.reqs && g.reqs[h].buf !in s.busy
    ensures h !in g.queue && h !in s.taken && h !in g.doneq && g.reqs[h].buf in s.data
    ensures s.data[g.reqs[h].buf] == g.reqs[h].bytes && h < |s.info| && s.info[h].status == 0
    ensures Sized(s.free, s.desc, s.ops, s.info) && |g.own| == NUM && Describes(s.desc, s.ops, s.info, h, g.reqs[h])
    ensures !s.free[h] && !s.free[g.reqs[h].i1] && !s.free[g.reqs[h].i2]
  {
    hide Ring, Describes;
    ChainTaken(s.free, s.desc, s.ops, s.info, g.reqs, Mine(s.phase), g.own, h);
    Bounds(s.desc, s.ops, s.info, h, g.reqs[h]);
  }

  ghost function Freed(s: State, h: nat, r: Req): State
    requires |s.free| == |s.desc| == |s.info| == NUM && h < NUM && r.i1 < NUM && r.i2 < NUM
  {
    s.(info := s.info[h := s.info[h].(b := NoBuf)], free := Set3(s.free, h, r.i1, r.i2, true),
       desc := Set3(s.desc, h, r.i1, r.i2, ZERODESC))
  }

  lemma FinishInv(s: State, g: Meaning, h: nat, r: Req)
    requires Inv(s, g) && s.phase.Idle? && h in g.reqs && r == g.reqs[h] && r.buf !in s.busy
    requires |s.free| == |s.desc| == |s.info| == |g.own| == NUM && h < NUM && r.i1 < NUM && r.i2 < NUM
    ensures Inv(Freed(s, h, r), g.(reqs := g.reqs - {h}, own := Set3(g.own, h, r.i1, r.i2, Nobody)))
  {
    hide Chains, Ring, Set3, Describes;
    SeenFacts(s, g, h);
    ChainsLeave(s.free, s.desc, s.ops, s.info, g.reqs, g.own, h, r, s.info[h := s.info[h].(b := NoBuf)]);
  }

  lemma FillInv(s: State, g: Meaning, b: nat, bytes: Bytes)
    requires Inv(s, g) && b in s.data && (s.phase.Busy? ==> s.phase.buf != b)
    requires forall h :: h in g.reqs ==> g.reqs[h].buf != b
    ensures Inv(s.(data := s.data[b := bytes]), g)
  {
    hide Chains, Ring, Describes;
    Sizes(s, g);
  }

  lemma Drained(s: State, g: Meaning)
    requires Inv(s, g)
    ensures s.usedIdx != s.usedRingIdx <==> |g.doneq| > 0
    ensures s.lastAvail != s.availIdx <==> |g.queue| > 0
  {
    hide Chains, Stages, Buffers, PhaseOk, Wrap, Place;
    RingGet(s.usedRing, g.nUsed, g.doneq, s.usedRingIdx, s.usedIdx);
    RingGet(s.availRing, g.nAvail, g.queue, s.availIdx, s.lastAvail);
  }

  ghost predicate ThreeFree(free: seq<bool>)
    requires |free| == NUM
  {
    exists a, b, c :: 0 <= a < b < c < NUM && free[a] && free[b] && free[c]
  }

  /** Two requests in flight leave fewer than three descriptors. */
  lemma NoneLeft(s: State, g: Meaning)
    requires Inv(s, g) && |g.reqs| >= 2 && |s.free| == NUM
    ensures !ThreeFree(s.free)
  {
    hide Ring, Stages, Buffers, PhaseOk, Chains;
    var h :| h in g.reqs;
    assert |g.reqs.Keys - {h}| > 0;
    var k :| k in g.reqs.Keys - {h};
    Disjoint(s.free, s.desc, s.ops, s.info, g.reqs, Mine(s.phase), g.own, h, k);
    Disjoint(s.free, s.desc, s.ops, s.info, g.reqs, Mine(s.phase), g.own, k, h);
    Heads(s, g, h);
    Heads(s, g, k);
    hide Inv, Describes;
    forall a, b, c | 0 <= a < b < c < NUM && s.free[a] && s.free[b] && s.free[c] ensures false {
      var q: seq<nat> := [h, g.reqs[h].i1, g.reqs[h].i2, k, g.reqs[k].i1, g.reqs[k].i2, a, b, c];
      AtMost(q);
    }
  }

  /** One request in flight, and no caller at work, leaves three. */
  lemma SomeLeft(s: State, g: Meaning)
    requires Inv(s, g) && |g.reqs| < 2 && |s.free| == NUM && s.phase.Idle?
    ensures ThreeFree(s.free)
  {
    hide Ring, Stages, Buffers, PhaseOk, Describes;
    var h, r := 0, Req(0, false, 0, 0, 0, []);
    if g.reqs != map[] {
      h :| h in g.reqs;
      r := g.reqs[h];
    }
    forall i | 0 <= i < NUM && !s.free[i] ensures i in Chain(h, r) {
      assert DescOk(s.free, s.desc, g.reqs, Mine(s.phase), g.own, i);
      var k := g.own[i].h;
      if k != h { TwoKeys(g.reqs, h, k); }
    }
    hide Inv;
    assert s.free[0] || s.free[1] || s.free[2] || s.free[3];
    assert s.free[4] || s.free[5] || s.free[6] || s.free[7];
  }

  lemma TwoKeys(reqs: Reqs, h: nat, k: nat)
    requires h in reqs && k in reqs && h != k
    ensures |reqs| >= 2
  {
    assert reqs.Keys == {h, k} + (reqs.Keys - {h, k});
  }

  /** Each request has a caller waiting in virtio_disk_rw, which knows its first descriptor. */
  ghost predicate CallersOk(callers: map<nat, nat>, reqs: Reqs) {
    (forall b :: b in callers ==> callers[b] in reqs && reqs[callers[b]].buf == b) &&
    (forall h :: h in reqs ==> reqs[h].buf in callers && callers[reqs[h].buf] == h)
  }

  /** A request the device has carried out: for a write, what its block then holds; for a read, what its
      buffer got; and whether it went as ordered. */
  datatype Event = Event(buf: nat, write: bool, block: nat, bytes: Bytes, ok: bool)

  /** What a block holds after these events: the bytes of the last write to it. */
  function Last(start: map<nat, Bytes>, log: seq<Event>, block: nat): Bytes
    requires block in start
    decreases |log|
  {
    if log == [] then start[block]
    else
      var e := log[|log| - 1];
      if e.write && e.block == block then e.bytes else Last(start, log[..|log| - 1], block)
  }

  lemma {:induction false} LastIs(start: map<nat, Bytes>, log: seq<Event>, block: nat, i: nat)
    requires block in start && i < |log| && log[i].write && log[i].block == block
    requires forall j :: i < j < |log| ==> !(log[j].write && log[j].block == block)
    ensures Last(start, log, block) == log[i].bytes
    decreases |log|
  {
    if i < |log| - 1 { LastIs(start, log[..|log| - 1], block, i); }
  }

  /** The event of a request, and the status that the device reported for it. */
  ghost predicate Tells(e: Event, r: Req, status: nat) {
    e.buf == r.buf && e.write == r.write && e.block == r.block && (e.ok <==> status == 0) &&
    (e.ok ==> e.bytes == r.bytes)
  }

  /** A read got what its block held at that time. */
  ghost predicate ReadsRight(start: map<nat, Bytes>, log: seq<Event>, i: nat)
    requires i < |log|
  {
    log[i].block in start && (log[i].ok && !log[i].write ==> log[i].bytes == Last(start, log[..i], log[i].block))
  }

  /** The blocks are as the events say, every read got the last bytes written, and each request that
      has come out has its event. */
  ghost predicate Told(start: map<nat, Bytes>, log: seq<Event>, came: map<nat, nat>, platter: map<nat, Bytes>,
                       info: seq<Info>, reqs: Reqs, queue: seq<nat>, taken: set<nat>)
  {
    |info| == NUM && platter.Keys == start.Keys && (forall b :: b in start ==> platter[b] == Last(start, log, b)) &&
    (forall i :: 0 <= i < |log| ==> ReadsRight(start, log, i)) &&
    forall h :: h in reqs && h !in queue && h !in taken ==>
      h < NUM && h in came && came[h] < |log| && Tells(log[came[h]], reqs[h], info[h].status)
  }

  lemma ToldFrame(start: map<nat, Bytes>, log: seq<Event>, came: map<nat, nat>, platter: map<nat, Bytes>,
                  info: seq<Info>, reqs: Reqs, queue: seq<nat>, taken: set<nat>, info': seq<Info>, reqs': Reqs,
                  queue': seq<nat>, taken': set<nat>)
    requires Told(start, log, came, platter, info, reqs, queue, taken) && |info'| == NUM
    requires forall h :: h in reqs' && h !in queue' && h !in taken' ==>
               h in reqs && h !in queue && h !in taken && h < NUM && reqs'[h] == reqs[h] &&
               info'[h].status == info[h].status
    ensures Told(start, log, came, platter, info', reqs', queue', taken')
  {
    hide Last, ReadsRight, Tells;
  }

  lemma ToldMore(start: map<nat, Bytes>, log: seq<Event>, platter: map<nat, Bytes>, e: Event, platter': map<nat, Bytes>)
    requires platter.Keys == start.Keys && (forall b :: b in start ==> platter[b] == Last(start, log, b))
    requires forall i :: 0 <= i < |log| ==> ReadsRight(start, log, i)
    requires e.block in start && platter' == (if e.write then platter[e.block := e.bytes] else platter)
    requires e.ok && !e.write ==> e.bytes == platter[e.block]
    ensures platter'.Keys == start.Keys && forall b :: b in start ==> platter'[b] == Last(start, log + [e], b)
    ensures forall i :: 0 <= i < |log + [e]| ==> ReadsRight(start, log + [e], i)
  {
    assert (log + [e])[..|log|] == log;
    forall i | 0 <= i < |log + [e]| ensures ReadsRight(start, log + [e], i) {
      if i < |log| {
        assert ReadsRight(start, log, i) && (log + [e])[..i] == log[..i];
      }
    }
  }

  /** The device carries out request `h`. */
  ghost function EventOf(s: State, r: Req, o: Outcome): Event
    requires r.buf in s.data && r.block in s.platter
  {
    Event(r.buf, r.write, r.block, Moved(s.data, s.platter, r, o), o.Done?)
  }

  lemma ToldComplete(s: State, g: Meaning, h: nat, o: Outcome, start: map<nat, Bytes>, log: seq<Event>,
                     came: map<nat, nat>)
    requires Inv(s, g) && h in s.taken && OutcomeOk(o)
    requires h in g.reqs && |s.info| == |s.usedRing| == NUM && h < NUM && g.reqs[h].buf in s.data &&
             g.reqs[h].block in s.platter
    requires Told(start, log, came, s.platter, s.info, g.reqs, g.queue, s.taken)
    ensures var s', g' := Completed(s, h, g.reqs[h], o), Reported(g, h, Transferred(s.data, s.platter, g.reqs[h], o));
            Told(start, log + [EventOf(s, g.reqs[h], o)], came[h := |log|], s'.platter, s'.info, g'.reqs, g'.queue,
                 s'.taken)
  {
    hide Inv, Last, ReadsRight;
    ToldMore(start, log, s.platter, EventOf(s, g.reqs[h], o), PlatterAfter(s.data, s.platter, g.reqs[h], o));
  }

  lemma AllHeads(s: State, g: Meaning)
    requires Inv(s, g)
    ensures |s.info| == NUM && forall h :: h in g.reqs ==> h < NUM
  {
    hide Inv;
    Sizes(s, g);
    forall h | h in g.reqs ensures h < NUM { Heads(s, g, h); }
  }

  lemma ToldFormat(s: State, g: Meaning, start: map<nat, Bytes>, log: seq<Event>, came: map<nat, nat>)
    requires Inv(s, g) && s.phase.Busy? && |s.info| == NUM && s.phase.i0 < NUM
    requires Told(start, log, came, s.platter, s.info, g.reqs, g.queue, s.taken)
    ensures Told(start, log, came, s.platter, s.info[s.phase.i0 := Info(Some(s.phase.buf), 0xff)], g.reqs, g.queue,
                 s.taken)
  {
    hide Inv, Told;
    forall h | h in g.reqs ensures h < NUM && h != s.phase.i0 {
      Heads(s, g, h);
    }
    ToldFrame(start, log, came, s.platter, s.info, g.reqs, g.queue, s.taken,
              s.info[s.phase.i0 := Info(Some(s.phase.buf), 0xff)], g.reqs, g.queue, s.taken);
  }

  lemma ToldPublish(s: State, g: Meaning, start: map<nat, Bytes>, log: seq<Event>, came: map<nat, nat>)
    requires Inv(s, g) && s.phase.Busy? && |g.own| == NUM && s.phase.i0 < NUM && s.phase.i1 < NUM && s.phase.i2 < NUM
    requires Told(start, log, came, s.platter, s.info, g.reqs, g.queue, s.taken)
    ensures Told(start, log, came, s.platter, s.info, Joined(s, g).reqs, Joined(s, g).queue, s.taken)
  {
    hide Inv, Told, Set3;
    AllHeads(s, g);
    var g' := Joined(s, g);
    ToldFrame(start, log, came, s.platter, s.info, g.reqs, g.queue, s.taken, s.info, g'.reqs, g'.queue, s.taken);
  }

  /** The request has come out. */
  ghost predicate Came(h: nat, came: map<nat, nat>, log: seq<Event>) { h in came && came[h] < |log| }

  lemma AllIn(s: State, g: Meaning)
    requires Inv(s, g)
    ensures forall h :: h in g.doneq ==> h in g.reqs
  {
    hide Chains, Ring, PhaseOk, Buffers;
  }

  /** What the device said about a request in the used ring. */
  lemma Said(s: State, g: Meaning, start: map<nat, Bytes>, log: seq<Event>, came: map<nat, nat>, h: nat)
    requires Inv(s, g) && h in g.doneq && Told(start, log, came, s.platter, s.info, g.reqs, g.queue, s.taken)
    ensures |s.info| == NUM && h < NUM && h in came && came[h] < |log| && (log[came[h]].ok <==> s.info[h].status == 0)
  {
    hide Last, ReadsRight, Chains, Ring, PhaseOk, Buffers;
    assert h !in g.queue && h !in s.taken && h in g.reqs;
  }

  lemma CallersReport(callers: map<nat, nat>, g: Meaning, h: nat, bytes: Bytes)
    requires CallersOk(callers, g.reqs) && h in g.reqs
    ensures CallersOk(callers, Reported(g, h, bytes).reqs)
  {
  }

  lemma CallersLeave(callers: map<nat, nat>, reqs: Reqs, b: nat)
    requires CallersOk(callers, reqs) && b in callers
    ensures callers[b] in reqs && reqs[callers[b]].buf == b && CallersOk(callers - {b}, reqs - {callers[b]})
  {
  }

  lemma OtherBufs(s: State, g: Meaning)
    requires Inv(s, g) && s.phase.Busy?
    ensures forall h :: h in g.reqs ==> g.reqs[h].buf != s.phase.buf
  {
    hide Chains, Ring, Stages, Buffers;
  }

  lemma ChainLinks(desc: seq<Desc>, ops: seq<Op>, info: seq<Info>, h: nat, r: Req)
    requires |desc| == |ops| == |info| == NUM && Describes(desc, ops, info, h, r)
    ensures h < NUM && r.i1 < NUM && r.i2 < NUM && h != r.i1 && h != r.i2 && r.i1 != r.i2
    ensures desc[h].next? && desc[h].next == r.i1 && desc[r.i1].next? && desc[r.i1].next == r.i2 && !desc[r.i2].next?
  {
  }

  class Driver {
    var free: seq<bool>
    var desc: seq<Desc>
    var ops: seq<Op>
    var info: seq<Info>
    var availRing: seq<nat>
    var availIdx: nat
    var usedRing: seq<nat>
    var usedRingIdx: nat
    var usedIdx: nat
    // the buffers: their contents, and which have their disk flag set
    var data: map<nat, Bytes>
    var busy: set<nat>
    // the device: its place in the available ring, what it works on, and the blocks
    var lastAvail: nat
    var taken: set<nat>
    var platter: map<nat, Bytes>
    var phase: Phase
    // the buffers whose callers wait, with the first descriptor of their chains
    var callers: map<nat, nat>
    ghost var g: Meaning
    // the blocks at the start, what the device has done since, and where each request came out
    ghost var start: map<nat, Bytes>
    ghost var log: seq<Event>
    ghost var came: map<nat, nat>

    ghost function St(): State
      reads this
    {
      State(free, desc, ops, info, availRing, availIdx, usedRing, usedRingIdx, usedIdx, data, busy, lastAvail, taken,
            platter, phase)
    }

    ghost predicate Valid()
      reads this
    {
      Inv(St(), g) && CallersOk(callers, g.reqs) && Told(start, log, came, platter, info, g.reqs, g.queue, taken)
    }

    method AllocDesc() returns (i: int)
      requires |free| == NUM
      modifies this`free
      ensures i == -1 ==> free == old(free) && forall j :: 0 <= j < NUM ==> !free[j]
      ensures i != -1 ==> 0 <= i < NUM && old(free)[i] && free == old(free)[i := false]
      ensures i != -1 ==> forall j :: 0 <= j < i ==> !free[j]
    {
      i := 0;
      while i < NUM
        invariant 0 <= i <= NUM && free == old(free) && forall j :: 0 <= j < i ==> !free[j]
      {
        if free[i] {
          free := free[i := false];
          return;
        }
        i := i + 1;
      }
      i := -1;
    }

    /** Both panics of the source are excluded by the precondition. */
    method FreeDesc(i: nat)
      requires |free| == |desc| == NUM && i < NUM && !free[i]
      modifies this`free, this`desc
      ensures free == old(free)[i := true] && desc == old(desc)[i := ZERODESC]
    {
      desc := desc[i := ZERODESC];
      free := free[i := true];
    }

    /** Three free descriptors, or none if there are not three. */
    method Alloc3Desc() returns (ok: bool, i0: nat, i1: nat, i2: nat)
      requires |free| == |desc| == NUM && forall i :: 0 <= i < NUM && free[i] ==> desc[i] == ZERODESC
      modifies this`free, this`desc
      ensures desc == old(desc)
      ensures ok ==> i0 < NUM && i1 < NUM && i2 < NUM && i0 != i1 && i0 != i2 && i1 != i2
      ensures ok ==> old(free)[i0] && old(free)[i1] && old(free)[i2] && free == Set3(old(free), i0, i1, i2, false)
      ensures !ok ==> free == old(free) && forall a, b, c :: 0 <= a < b < c < NUM ==> !(free[a] && free[b] && free[c])
      ensures ok <==> ThreeFree(old(free))
    {
      ok, i0, i1, i2 := false, 0, 0, 0;
      var a := AllocDesc();
      if a < 0 { return; }
      i0 := a;
      var b := AllocDesc();
      if b < 0 {
        FreeDesc(i0);
        return;
      }
      i1 := b;
      var c := AllocDesc();
      if c < 0 {
        FreeDesc(i0);
        FreeDesc(i1);
        return;
      }
      i2 := c;
      ok := true;
    }

    /** Takes the lock and three descriptors, or sleeps. */
    method Begin(b: nat, write: bool, block: nat) returns (ok: bool)
      requires Valid() && phase.Idle? && b in data && block in platter && b !in callers
      modifies this`free, this`desc, this`phase, this`g
      ensures Valid() && desc == old(desc) && g.(own := []) == old(g.(own := []))
      ensures ok ==>
                phase.Busy? && phase == Busy(b, write, block, data[b], phase.i0, phase.i1, phase.i2, false, false)
      ensures !ok ==>
                phase == Idle && free == old(free) && |free| == NUM &&
                forall a, b, c :: 0 <= a < b < c < NUM ==> !(free[a] && free[b] && free[c])
      ensures ok <==> |g.reqs| < 2
    {
      hide Inv, Set3, Told, ThreeFree;
      Sizes(St(), g);
      FreeZero(St(), g);
      if |g.reqs| < 2 { SomeLeft(St(), g); } else { NoneLeft(St(), g); }
      var i0, i1, i2;
      ok, i0, i1, i2 := Alloc3Desc();
      if ok {
        phase := Busy(b, write, block, data[b], i0, i1, i2, false, false);
        BeginInv(old(St()), g, phase);
        g := g.(own := Set3(g.own, i0, i1, i2, Caller));
      }
    }

    method FillIn()
      requires |desc| == |ops| == |info| == NUM && phase.Busy? && phase.i0 < NUM && phase.i1 < NUM && phase.i2 < NUM
      modifies this`desc, this`ops, this`info, this`busy, this`phase
      ensures |old(desc)| == |old(ops)| == |old(info)| == NUM && St() == Formatted(old(St()))
    {
      hide DescsOf;
      var p := phase;
      ops := ops[p.i0 := Op(p.write, p.block * (BSIZE / 512))];
      desc := DescsOf(desc, p);
      info := info[p.i0 := Info(Some(p.buf), 0xff)];
      busy := busy + {p.buf};
      phase := p.(formatted := true);
    }

    /** Fills in the three descriptors and the tables, and marks the buffer. */
    method Format()
      requires Valid() && phase.Busy? && !phase.formatted
      modifies this`desc, this`ops, this`info, this`busy, this`phase
      ensures Valid() && phase == old(phase).(formatted := true) && busy == old(busy) + {old(phase).buf}
    {
      hide Inv, DescsOf, CallersOk, Told;
      FormatInv(St(), g);
      ToldFormat(St(), g, start, log, came);
      FillIn();
    }

    /** Puts the chain's head into the available ring; the device does not see it yet. */
    method PostEntry()
      requires Valid() && phase.Busy? && phase.formatted
      modifies this`availRing, this`phase
      ensures Valid() && phase == old(phase).(posted := true)
    {
      hide Inv, Told;
      Sizes(St(), g);
      PostInv(St(), g);
      availRing := availRing[Place(availIdx) := phase.i0];
      phase := phase.(posted := true);
    }

    /** Lets the device see it: from here on the request is in flight. */
    method PostIndex()
      requires Valid() && phase.Busy? && phase.posted
      modifies this`availIdx, this`phase, this`callers, this`g
      ensures Valid() && phase == Idle && old(phase).i0 !in old(g.reqs) &&
              callers == old(callers)[old(phase).buf := old(phase).i0]
      ensures g.reqs == old(g.reqs)[old(phase).i0 := ReqOf(old(phase))] && g.queue == old(g.queue) + [old(phase).i0]
      ensures g.doneq == old(g.doneq)
    {
      hide Inv, Set3, Told;
      PublishInv(St(), g);
      OtherBufs(St(), g);
      ToldPublish(St(), g, start, log, came);
      callers := callers[phase.buf := phase.i0];
      g := Joined(St(), g);
      availIdx := Wrap(availIdx + 1);
      phase := Idle;
    }

    /** The device reads the next available entry: the oldest request it has not taken. */
    method Take() returns (h: nat)
      requires Valid() && lastAvail != availIdx
      modifies this`lastAvail, this`taken, this`g
      ensures Valid() && old(g.queue) == [h] + g.queue && taken == old(taken) + {h} && g.reqs == old(g.reqs)
      ensures g.doneq == old(g.doneq)
    {
      hide Inv;
      Sizes(St(), g);
      TakeInv(St(), g);
      AllHeads(St(), g);
      assert g.queue == [g.queue[0]] + g.queue[1..];
      ToldFrame(start, log, came, platter, info, g.reqs, g.queue, taken, info, g.reqs, g.queue[1..],
                taken + {g.queue[0]});
      hide Told;
      h := availRing[Place(lastAvail)];
      g := g.(queue := g.queue[1..], nAvail := g.nAvail + 1);
      lastAvail := Wrap(lastAvail + 1);
      taken := taken + {h};
    }

    /** The device walks a chain: the order, the buffer, whether it may write to it or only read it, and
        where the status byte goes. It takes only a chain with an order it may read, a block's worth of
        buffer and a status byte it may write. */
    method Follow(h: nat, ghost r: Req) returns (proper: bool, write: bool, block: nat, b: nat, mayWrite: bool, st: nat)
      requires Sized(free, desc, ops, info) && Describes(desc, ops, info, h, r)
      ensures proper && write == r.write && block == r.block && b == r.buf && mayWrite == !r.write && st == h
    {
      var d0 := desc[h];
      var op := ops[d0.addr.i];
      var d1 := desc[d0.next];
      var d2 := desc[d1.next];
      proper := d0.next? && !d0.write? && d0.len == 16 && d1.next? && d1.len == BSIZE && !d2.next? && d2.write? &&
                d2.len == 1;
      write, block, b, mayWrite, st := op.write, op.sector / (BSIZE / 512), d1.addr.b, d1.write?, d2.addr.i;
    }

    /** The device moves the bytes, in the direction ordered and only if the buffer's flag allows it. */
    method Transfer(proper: bool, write: bool, block: nat, b: nat, mayWrite: bool, o: Outcome, ghost r: Req)
      requires b in data && block in platter
      requires proper && write == r.write && block == r.block && b == r.buf && mayWrite == !r.write
      modifies this`data, this`platter
      ensures data == DataAfter(old(data), old(platter), r, o) && platter == PlatterAfter(old(data), old(platter), r, o)
    {
      if proper && write && !mayWrite {
        platter := platter[block := if o.Failed? then o.left else data[b]];
      }
      if proper && !write && mayWrite {
        data := data[b := if o.Failed? then o.left else platter[block]];
      }
    }

    /** The device writes the status byte and the used entry. */
    method Report(h: nat, st: nat, status: nat)
      requires |info| == |usedRing| == NUM && st < NUM
      modifies this`info, this`usedRing, this`usedRingIdx, this`taken
      ensures info == old(info)[st := old(info)[st].(status := status)] && taken == old(taken) - {h}
      ensures usedRing == old(usedRing)[Place(old(usedRingIdx)) := h] && usedRingIdx == Wrap(old(usedRingIdx) + 1)
    {
      info := info[st := info[st].(status := status)];
      usedRing := usedRing[Place(usedRingIdx) := h];
      usedRingIdx := Wrap(usedRingIdx + 1);
      taken := taken - {h};
    }

    method Serve(h: nat, o: Outcome, ghost r: Req)
      requires Sized(free, desc, ops, info) && h < NUM && Describes(desc, ops, info, h, r) && |usedRing| == NUM
      requires r.buf in data && r.block in platter
      modifies this`data, this`platter, this`info, this`usedRing, this`usedRingIdx, this`taken
      ensures Sized(old(free), old(desc), old(ops), old(info)) && St() == Completed(old(St()), h, r, o)
    {
      hide Describes, Wrap, Place, DataAfter, PlatterAfter;
      var proper, write, block, b, mayWrite, st := Follow(h, r);
      Transfer(proper, write, block, b, mayWrite, o, r);
      Report(h, st, Code(o));
    }

    /** The device carries out a request it has taken, in any order: it follows the chain and
        transfers exactly between the buffer and the block its caller named, or reports an error. */
    method Complete(h: nat, o: Outcome)
      requires Valid() && h in taken && OutcomeOk(o)
      modifies this`data, this`platter, this`info, this`usedRing, this`usedRingIdx, this`taken, this`g, this`log,
               this`came
      ensures h in old(g.reqs) && Sized(old(free), old(desc), old(ops), old(info)) && |old(usedRing)| == NUM && h < NUM
      ensures old(g.reqs)[h].buf in old(data) && old(g.reqs)[h].block in old(platter)
      ensures St() == Completed(old(St()), h, old(g.reqs)[h], o)
      ensures g == Reported(old(g), h, Transferred(old(data), old(platter), old(g.reqs)[h], o))
      ensures log == old(log) + [EventOf(old(St()), old(g.reqs)[h], o)] && came == old(came)[h := |old(log)|]
      ensures Valid()
    {
      hide Inv, Describes, Wrap, Place, DataAfter, PlatterAfter, Transferred, Moved, CallersOk, Told, EventOf;
      TakenFacts(St(), g, h);
      ToldComplete(St(), g, h, o, start, log, came);
      CallersReport(callers, g, h, Transferred(data, platter, g.reqs[h], o));
      CompleteInv(St(), g, h, o);
      hide Completed;
      ghost var r := g.reqs[h];
      log, came := log + [EventOf(St(), r, o)], came[h := |log|];
      g := Reported(g, h, Transferred(data, platter, r, o));
      Serve(h, o, r);
    }

    /** One turn of the interrupt handler's loop: the oldest completion not yet seen clears the
        flag of exactly its own buffer; it panics just when the device reported an error for it. */
    method IntrStep() returns (ok: bool)
      requires Valid() && phase.Idle? && usedIdx != usedRingIdx
      modifies this`usedIdx, this`busy, this`g
      ensures Valid() && g.reqs == old(g.reqs) && g.queue == old(g.queue) && |old(g.doneq)| > 0 && |info| == NUM
      ensures old(g.doneq)[0] in g.reqs && old(g.doneq)[0] in came && came[old(g.doneq)[0]] < |log|
      ensures ok == log[came[old(g.doneq)[0]]].ok
      ensures ok ==> old(g.doneq) == [old(g.doneq)[0]] + g.doneq && busy == old(busy) - {g.reqs[old(g.doneq)[0]].buf}
      ensures !ok ==> g == old(g) && busy == old(busy)
    {
      hide Inv, Told;
      Sizes(St(), g);
      IntrInv(St(), g);
      Said(St(), g, start, log, came, g.doneq[0]);
      var id := usedRing[Place(usedIdx)];
      if info[id].status != 0 { return false; }
      g := g.(doneq := g.doneq[1..], nUsed := g.nUsed + 1);
      if info[id].b.Some? {
        busy := busy - {info[id].b.b};
      }
      usedIdx := Wrap(usedIdx + 1);
      ok := true;
    }

    /** The interrupt handler: every completion the device has reported is seen, up to the first
        with an error, at which it panics. */
    method Intr() returns (ok: bool, ghost n: nat)
      requires Valid() && phase.Idle?
      modifies this`usedIdx, this`busy, this`g
      ensures Valid() && g.reqs == old(g.reqs) && g.queue == old(g.queue)
      ensures n <= |old(g.doneq)| && g.doneq == old(g.doneq)[n..] && (ok <==> n == |old(g.doneq)|)
      ensures forall k :: 0 <= k < n ==> Came(old(g.doneq)[k], came, log) && log[came[old(g.doneq)[k]]].ok
      ensures !ok ==> Came(old(g.doneq)[n], came, log) && !log[came[old(g.doneq)[n]]].ok
      ensures forall h :: h in old(g.doneq) ==> h in g.reqs
      ensures busy == old(busy) - set h | h in old(g.doneq)[..n] :: g.reqs[h].buf
    {
      hide Inv, Told, CallersOk;
      ok, n := true, 0;
      AllIn(St(), g);
      Drained(St(), g);
      while usedIdx != usedRingIdx
        invariant Valid() && phase.Idle? && g.reqs == old(g.reqs) && g.queue == old(g.queue)
        invariant n <= |old(g.doneq)| && g.doneq == old(g.doneq)[n..]
        invariant usedIdx != usedRingIdx <==> |g.doneq| > 0
        invariant forall k :: 0 <= k < n ==> Came(old(g.doneq)[k], came, log) && log[came[old(g.doneq)[k]]].ok
        invariant busy == old(busy) - set h | h in old(g.doneq)[..n] :: g.reqs[h].buf
        decreases |g.doneq|
      {
        ok := IntrStep();
        if !ok { return; }
        assert old(g.doneq)[..n + 1] == old(g.doneq)[..n] + [old(g.doneq)[n]];
        n := n + 1;
        Drained(St(), g);
      }
      ok := true;
    }

    method FreeChain(h: nat, ghost r: Req)
      requires Sized(free, desc, ops, info) && h < NUM && r.i1 < NUM && r.i2 < NUM && h != r.i1 && h != r.i2 &&
               r.i1 != r.i2
      requires desc[h].next? && desc[h].next == r.i1 && desc[r.i1].next? && desc[r.i1].next == r.i2 && !desc[r.i2].next?
      requires !free[h] && !free[r.i1] && !free[r.i2]
      modifies this`free, this`desc
      ensures free == Set3(old(free), h, r.i1, r.i2, true) && desc == Set3(old(desc), h, r.i1, r.i2, ZERODESC)
    {
      var i, more := h, true;
      ghost var n := 0;
      while more
        invariant 0 <= n <= 3 && (more <==> n < 3) && |free| == |desc| == NUM
        invariant more ==> i == [h, r.i1, r.i2][n]
        invariant forall k ::
                    0 <= k < NUM ==>
                      if k in [h, r.i1, r.i2][..n] then free[k] && desc[k] == ZERODESC
                      else free[k] == old(free)[k] && desc[k] == old(desc)[k]
        decreases 3 - n
      {
        var flag, nxt := desc[i].next?, desc[i].next;
        FreeDesc(i);
        if flag { i := nxt; } else { more := false; }
        n := n + 1;
      }
      assert [h, r.i1, r.i2][..n] == [h, r.i1, r.i2];
    }

    /** The caller, woken with its buffer's flag clear, frees its chain and returns: its request is
        complete, and a read has the bytes the device transferred. */
    method Finish(b: nat)
      requires Valid() && phase.Idle? && b in callers && b !in busy
      modifies this`free, this`desc, this`info, this`callers, this`g
      ensures Valid() && old(callers)[b] in old(g.reqs) && callers == old(callers) - {b}
      ensures g.reqs == old(g.reqs) - {old(callers)[b]} && g.doneq == old(g.doneq) && g.queue == old(g.queue)
      ensures old(g.reqs)[old(callers)[b]].buf == b && b in data && data[b] == old(g.reqs)[old(callers)[b]].bytes
      ensures old(callers)[b] !in old(g.queue) && old(callers)[b] !in taken && old(callers)[b] !in old(g.doneq)
      ensures old(callers)[b] in came && came[old(callers)[b]] < |log|
      ensures var e, r := log[came[old(callers)[b]]], old(g.reqs)[old(callers)[b]];
              e.ok && e.buf == b && e.write == r.write && e.block == r.block && e.bytes == data[b]
    {
      hide Inv, Set3, Describes, CallersOk;
      CallersLeave(callers, g.reqs, b);
      SeenFacts(St(), g, callers[b]);
      AllHeads(St(), g);
      assert Tells(log[came[callers[b]]], g.reqs[callers[b]], info[callers[b]].status);
      hide Told;
      Release(callers[b]);
      ToldFrame(start, log, came, platter, old(info), old(g.reqs), old(g.queue), taken, info, g.reqs, g.queue, taken);
      callers := callers - {b};
    }

    method Release(h: nat)
      requires Inv(St(), g) && phase.Idle? && h in g.reqs && g.reqs[h].buf !in busy
      modifies this`free, this`desc, this`info, this`g
      ensures Inv(St(), g) && g.reqs == old(g.reqs) - {h} && g.doneq == old(g.doneq) && g.queue == old(g.queue)
      ensures |info| == |old(info)| == NUM && forall k :: 0 <= k < NUM ==> info[k].status == old(info)[k].status
    {
      hide Inv, Set3, Describes;
      ghost var r := g.reqs[h];
      SeenFacts(St(), g, h);
      ChainLinks(desc, ops, info, h, r);
      FinishInv(St(), g, h, r);
      info := info[h := info[h].(b := NoBuf)];
      FreeChain(h, r);
      g := g.(reqs := g.reqs - {h}, own := Set3(g.own, h, r.i1, r.i2, Nobody));
    }

    /** Kernel code changes a buffer that is not in flight. */
    method Fill(b: nat, bytes: Bytes)
      requires Valid() && b in data && (phase.Busy? ==> phase.buf != b) && b !in callers
      modifies this`data
      ensures Valid() && data == old(data)[b := bytes]
    {
      hide Inv, Told;
      FillInv(St(), g, b, bytes);
      data := data[b := bytes];
    }

    /** The driver and the device as set up: everything free, both rings empty. */
    constructor (data: map<nat, Bytes>, platter: map<nat, Bytes>)
      ensures Valid() && phase == Idle && callers == map[] && this.data == data && this.platter == platter
      ensures start == platter && log == []
    {
      free, desc := seq(NUM, _ => true), seq(NUM, _ => ZERODESC);
      ops, info := seq(NUM, _ => Op(false, 0)), seq(NUM, _ => Info(NoBuf, 0));
      availRing, availIdx, usedRing, usedRingIdx, usedIdx := seq(NUM, _ => 0), 0, seq(NUM, _ => 0), 0, 0;
      this.data, this.platter := data, platter;
      busy, lastAvail, taken, phase, callers := {}, 0, {}, Idle, map[];
      g := Meaning(map[], seq(NUM, _ => Nobody), [], [], 0, 0);
      start, log, came := platter, [], map[];
    }
  }
}
