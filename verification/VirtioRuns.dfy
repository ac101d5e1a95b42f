/** Whole runs of the disk driver and its device, compared with plain queues of requests: no descriptors,
    no rings and no indices that wrap. */
module VirtioRuns {
  import opened Virtio

  /** The buffers and blocks, the caller that is setting up a request, the requests in flight and where
      each is, and what the device has done. */
  datatype World = World(data: map<nat, Bytes>, busy: set<nat>, platter: map<nat, Bytes>, phase: Phase,
                         callers: map<nat, nat>, reqs: Reqs, queue: seq<nat>, taken: set<nat>, doneq: seq<nat>,
                         start: map<nat, Bytes>, log: seq<Event>, came: map<nat, nat>)

  ghost function WorldOf(d: Driver): World
    reads d
  {
    World(d.data, d.busy, d.platter, d.phase, d.callers, d.g.reqs, d.g.queue, d.taken, d.g.doneq, d.start, d.log,
          d.came)
  }

  datatype Step = BeginStep(b: nat, write: bool, block: nat) | FormatStep | PostEntryStep | PostIndexStep | TakeStep
    | CompleteStep(h: nat, o: Outcome) | IntrTurn | IntrAll | FinishStep(b: nat) | FillStep(b: nat, bytes: Bytes)

  /** The device reported an error for the request. */
  ghost predicate Bad(w: World, h: nat) { Came(h, w.came, w.log) && !w.log[w.came[h]].ok }

  /** It did not. */
  ghost predicate Good(w: World, h: nat) { Came(h, w.came, w.log) && w.log[w.came[h]].ok }

  /** The handler has seen the first `n` completions. */
  ghost predicate Saw(w: World, w': World, n: nat) {
    && n <= |w.doneq| && (forall h :: h in w.doneq ==> h in w.reqs)
    && w' == w.(doneq := w.doneq[n..], busy := w.busy - set h | h in w.doneq[..n] :: w.reqs[h].buf)
    && forall k :: 0 <= k < n ==> Good(w, w.doneq[k])
  }

  /** A caller starts only with fewer than two requests in flight. */
  ghost predicate Begins(w: World, w': World, b: nat, write: bool, block: nat) {
    && w' == w.(phase := w'.phase) && b in w.data
    && if |w.reqs| < 2 then
         && w'.phase.Busy?
         && w'.phase == Busy(b, write, block, w.data[b], w'.phase.i0, w'.phase.i1, w'.phase.i2, false, false)
       else w'.phase == Idle
  }

  /** The device carries out request `h`. */
  ghost predicate Carried(w: World, w': World, h: nat, o: Outcome) {
    h in w.reqs && w.reqs[h].buf in w.data && w.reqs[h].block in w.platter &&
    var r := w.reqs[h];
    var moved := if o.Failed? then o.left else if r.write then w.data[r.buf] else w.platter[r.block];
    var data := if r.write then w.data else w.data[r.buf := moved];
    w' == w.(data := data, platter := if r.write then w.platter[r.block := moved] else w.platter,
             taken := w.taken - {h}, doneq := w.doneq + [h], reqs := w.reqs[h := r.(bytes := data[r.buf])],
             log := w.log + [Event(r.buf, r.write, r.block, moved, o.Done?)], came := w.came[h := |w.log|])
  }

  /** A caller returns with its request carried out. */
  ghost predicate Returns(w: World, w': World, b: nat) {
    b in w.callers && w.callers[b] in w.reqs && b in w.data && Good(w, w.callers[b]) &&
    var h := w.callers[b];
    var e := w.log[w.came[h]];
    && w' == w.(callers := w.callers - {b}, reqs := w.reqs - {h})
    && e.buf == b && e.write == w.reqs[h].write && e.block == w.reqs[h].block && e.bytes == w.data[b]
  }

  /** Whether a step is possible, and what it does. Only the handler of interrupts can fail, and that over
      an error the device reported. */
  ghost predicate Does(step: Step, ok: bool, w: World, w': World) {
    match step
    case BeginStep(b, write, block) =>
      ok && if w.phase.Idle? && b in w.data && block in w.platter && b !in w.callers then Begins(w, w', b, write, block)
            else w' == w
    case FormatStep =>
      ok && w' == if w.phase.Busy? && !w.phase.formatted then
                    w.(phase := w.phase.(formatted := true), busy := w.busy + {w.phase.buf})
                  else w
    case PostEntryStep =>
      ok && w' == if w.phase.Busy? && w.phase.formatted then w.(phase := w.phase.(posted := true)) else w
    case PostIndexStep =>
      ok && w' == if w.phase.Busy? && w.phase.posted then
                    var p := w.phase;
                    var r := Req(p.buf, p.write, p.block, p.i1, p.i2, if p.write then p.given else []);
                    w.(phase := Idle, callers := w.callers[p.buf := p.i0], queue := w.queue + [p.i0],
                       reqs := w.reqs[p.i0 := r])
                  else w
    case TakeStep =>
      ok && w' == if w.queue != [] then w.(queue := w.queue[1..], taken := w.taken + {w.queue[0]}) else w
    case CompleteStep(h, o) =>
      ok && if h in w.taken && (o.Failed? ==> o.status != 0) then Carried(w, w', h, o) else w' == w
    case IntrTurn =>
      if w.phase.Idle? && w.doneq != [] then
        if ok then Saw(w, w', 1) else w' == w && Bad(w, w.doneq[0])
      else ok && w' == w
    case IntrAll =>
      if w.phase.Idle? then
        exists n: nat :: Saw(w, w', n) && (ok <==> n == |w.doneq|) && (!ok ==> Bad(w, w.doneq[n]))
      else ok && w' == w
    case FinishStep(b) =>
      ok && if w.phase.Idle? && b in w.callers && b !in w.busy then Returns(w, w', b) else w' == w
    case FillStep(b, bytes) =>
      ok && w' == if b in w.data && (w.phase.Busy? ==> w.phase.buf != b) && b !in w.callers then
                    w.(data := w.data[b := bytes])
                  else w
  }

  /** One step of the driver or the device, if it is possible. */
  method Do(d: Driver, step: Step) returns (ok: bool)
    requires d.Valid()
    modifies d
    ensures d.Valid() && Does(step, ok, old(WorldOf(d)), WorldOf(d))
  {
    match step
    case BeginStep(_, _, _) => ok := Setup(d, step);
    case FormatStep => ok := Setup(d, step);
    case PostEntryStep => ok := Setup(d, step);
    case PostIndexStep => ok := Setup(d, step);
    case TakeStep => ok := Serve(d, step);
    case CompleteStep(_, _) => ok := Serve(d, step);
    case IntrTurn => ok := Handle(d, step);
    case IntrAll => ok := Handle(d, step);
    case FinishStep(b) => ok := Return(d, b);
    case FillStep(_, _) => ok := Setup(d, step);
  }

  /** The first part of virtio_disk_rw, and the kernel's use of its buffers. */
  method Setup(d: Driver, step: Step) returns (ok: bool)
    requires d.Valid()
    requires step.BeginStep? || step.FormatStep? || step.PostEntryStep? || step.PostIndexStep? || step.FillStep?
    modifies d
    ensures d.Valid() && Does(step, ok, old(WorldOf(d)), WorldOf(d))
  {
    hide Inv, CallersOk, Told;
    ok := true;
    match step
    case BeginStep(b, write, block) =>
      if d.phase.Idle? && b in d.data && block in d.platter && b !in d.callers { var _ := d.Begin(b, write, block); }
    case FormatStep => if d.phase.Busy? && !d.phase.formatted { d.Format(); }
    case PostEntryStep => if d.phase.Busy? && d.phase.formatted { d.PostEntry(); }
    case PostIndexStep => if d.phase.Busy? && d.phase.posted { d.PostIndex(); }
    case FillStep(b, bytes) =>
      if b in d.data && (d.phase.Busy? ==> d.phase.buf != b) && b !in d.callers { d.Fill(b, bytes); }
  }

  /** The device. */
  method Serve(d: Driver, step: Step) returns (ok: bool)
    requires d.Valid() && (step.TakeStep? || step.CompleteStep?)
    modifies d
    ensures d.Valid() && Does(step, ok, old(WorldOf(d)), WorldOf(d))
  {
    hide Inv, CallersOk, Told;
    ok := true;
    match step
    case TakeStep =>
      Drained(d.St(), d.g);
      if d.lastAvail != d.availIdx { var _ := d.Take(); }
    case CompleteStep(h, o) => if h in d.taken && OutcomeOk(o) { d.Complete(h, o); }
  }

  /** The interrupt handler. */
  method Handle(d: Driver, step: Step) returns (ok: bool)
    requires d.Valid() && (step.IntrTurn? || step.IntrAll?)
    modifies d
    ensures d.Valid() && Does(step, ok, old(WorldOf(d)), WorldOf(d))
  {
    hide Inv, CallersOk, Told;
    ok := true;
    Drained(d.St(), d.g);
    AllIn(d.St(), d.g);
    if d.phase.Idle? && step.IntrTurn? {
      if d.usedIdx != d.usedRingIdx {
        ok := d.IntrStep();
        assert old(d.g.doneq)[..1] == [old(d.g.doneq)[0]];
        assert ok ==> Saw(old(WorldOf(d)), WorldOf(d), 1);
      }
    } else if d.phase.Idle? {
      ghost var n;
      ok, n := d.Intr();
      assert Saw(old(WorldOf(d)), WorldOf(d), n);
    }
  }

  /** The rest of virtio_disk_rw. */
  method Return(d: Driver, b: nat) returns (ok: bool)
    requires d.Valid()
    modifies d
    ensures d.Valid() && Does(FinishStep(b), ok, old(WorldOf(d)), WorldOf(d))
  {
    hide Inv, CallersOk, Told;
    ok := true;
    if d.phase.Idle? && b in d.callers && b !in d.busy { d.Finish(b); }
  }

  ghost predicate IsRun(steps: seq<Step>, oks: seq<bool>, worlds: seq<World>) {
    && |oks| == |steps| && |worlds| == |steps| + 1
    && forall i :: 0 <= i < |steps| ==> Does(steps[i], oks[i], worlds[i], worlds[i + 1])
  }

  /** Any interleaving of driver and device steps is one of the plain queues, until the driver panics over an
      error the device reported; and every read that goes as ordered gets the bytes of the last write to its
      block. */
  method Run(d: Driver, steps: seq<Step>) returns (oks: seq<bool>, ghost worlds: seq<World>)
    requires d.Valid()
    modifies d
    ensures d.Valid() && |oks| <= |steps| && IsRun(steps[..|oks|], oks, worlds)
    ensures worlds[0] == old(WorldOf(d)) && worlds[|oks|] == WorldOf(d)
    ensures forall i :: 0 <= i < |oks| - 1 ==> oks[i]
    ensures |oks| < |steps| ==> oks != [] && !oks[|oks| - 1]
    ensures forall i :: 0 <= i < |d.log| ==> ReadsRight(d.start, d.log, i)
  {
    hide Inv, CallersOk, Last, ReadsRight, Tells, Does;
    oks, worlds := [], [WorldOf(d)];
    for i := 0 to |steps|
      invariant d.Valid() && |oks| == i && IsRun(steps[..i], oks, worlds)
      invariant worlds[0] == old(WorldOf(d)) && worlds[i] == WorldOf(d) && forall j :: 0 <= j < i ==> oks[j]
    {
      var ok := Do(d, steps[i]);
      oks, worlds := oks + [ok], worlds + [WorldOf(d)];
      if !ok { return; }
    }
  }

  /** The blocks of the start are the same, and what the device has done is not undone. */
  ghost predicate Grew(w: World, w': World) { w'.start == w.start && w.log <= w'.log }

  lemma StepGrows(step: Step, ok: bool, w: World, w': World)
    requires Does(step, ok, w, w')
    ensures Grew(w, w')
  {
  }

  lemma GrewNot(w: World)
    ensures Grew(w, w)
  {
  }

  lemma StillGrew(w: World, w': World, w'': World)
    requires Grew(w, w') && Grew(w', w'')
    ensures Grew(w, w'')
  {
  }

  lemma {:induction false} LogGrows(steps: seq<Step>, oks: seq<bool>, worlds: seq<World>, i: nat, j: nat)
    requires IsRun(steps, oks, worlds) && i <= j < |worlds|
    ensures Grew(worlds[i], worlds[j])
    decreases j
  {
    hide Does, Grew;
    if i == j {
      GrewNot(worlds[i]);
    } else {
      LogGrows(steps, oks, worlds, i, j - 1);
      StepGrows(steps[j - 1], oks[j - 1], worlds[j - 1], worlds[j - 1 + 1]);
      StillGrew(worlds[i], worlds[j - 1], worlds[j]);
    }
  }
}
