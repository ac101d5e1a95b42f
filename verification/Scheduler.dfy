/** Processes, CPUs and locks as a transition system: scheduler, sched, yield, sleep,
    wakeup, kexit, kwait, kkill and the hand-over steps of kfork (kernel/proc/proc.c), and
    the sleep locks on top of them (kernel/sync/sleeplock.c), for any number of processes,
    CPUs and locks. One step is what one CPU does between two points where another could
    notice; `swtch` is one atomic exchange of contexts; acquire on a held lock is a step
    that changes nothing. */
module Scheduler {

  datatype PState = UNUSED | USED | SLEEPING | RUNNABLE | RUNNING | ZOMBIE

  datatype Chan = NoChan | ProcChan(p: nat) | LockChan(k: nat) | DevChan(d: nat, x: nat)

  /** The spinlocks: p->lock, wait_lock, the one inside a sleep lock, a device's. */
  datatype Lock = PLock(p: nat) | WaitLock | Inner(k: nat) | DevLock(d: nat)

  /** The call sites of sleep. */
  datatype Site = OnSleepLock(k: nat) | InWait | OnDevice(d: nat, x: nat)

  /** Where an interrupt can find a thread. */
  datatype Rest = AtFree | AtReacquire(site: Site) | AtForkParent(j: nat) | AtForkRun(j: nat)

  /** The call sites of wakeup: releasesleep, reparent at child `i`, kexit, a driver, and a
      driver's interrupt handler on top of a thread at `rest`. A device's spinlock covers
      any number of channels `x`. */
  datatype Why = Releasing(k: nat) | Adopting(i: nat) | ToParent(parent: int) | FromDevice(d: nat, x: nat)
    | Interrupt(d: nat, x: nat, rest: Rest)

  /** What follows sched. */
  datatype After = AfterYield(rest: Rest) | AfterSleep(site: Site) | FirstRun | Never

  /** The program points of a kernel thread. `Free` is all code outside the functions
      modelled, including user code. */
  datatype Ctl =
    | Free
    | YieldHave(rest: Rest)
    | Sched(after: After) | Resumed(after: After)
    | SleepEnter(site: Site) | SleepBoth(site: Site) | SleepOne(site: Site) | Reacquire(site: Site)
    | AcqTest(k: nat) | AcqDone(k: nat) | RelHave(k: nat) | RelDone(k: nat)
    | DevHave(d: nat) | IntrHave(d: nat, rest: Rest)
    | Wake(why: Why, j: nat) | WakeHave(why: Why, j: nat)
    | ExitScan(i: nat) | ExitLock | ExitZombie
    | WaitScan(i: nat, kids: bool) | WaitHave(i: nat, kids: bool) | WaitKilled | WaitRet
    | KillHave(j: nat, hit: bool)
    | AllocHave(j: nat) | ForkHave(j: nat) | ForkParent(j: nat) | ForkSet(j: nat) | ForkRun(j: nat) | ForkFin(j: nat)

  /** What a CPU executes: the scheduler loop at one of its points, an interrupt handler on
      top of the loop, or a process. */
  datatype Exec = Idle | Have(j: nat) | Back(j: nat) | Run(p: nat)
    | IdleIntr(d: nat) | IdleWake(d: nat, x: nat, j: nat) | IdleWakeHave(d: nat, x: nat, j: nat)

  /** The indices of `st` to `reaps` are processes, of `on` and `cur` CPUs, of `owner` sleep
      locks. -1 is a null pointer. `at` is the CPU executing a process, `slk` the sleep locks
      a process has acquired and not released, `exits` and `reaps` count kexit and freeproc
      by kwait: these three are history, the code has no such variables. */
  datatype State = State(
    st: seq<PState>, chan: seq<Chan>, parent: seq<int>, killed: seq<bool>, ctl: seq<Ctl>,
    at: seq<int>, slk: seq<set<nat>>, exits: seq<nat>, reaps: seq<nat>,
    on: seq<Exec>, cur: seq<int>,
    held: map<Lock, nat>, owner: seq<int>, init: nat)

  /** What the environment decides: which operation a free thread starts, which process a
      CPU looks at, whether an allocation or a copyout fails. */
  datatype Choice = Go | Tick | Fail | DoSleep(x: nat) | DoWake(x: nat) | Acquire(k: nat) | Release(k: nat)
    | Device(d: nat)
    | Exit | Wait | Kill(j: nat, hit: bool) | Fork(j: nat) | Pick(j: nat)

  function SiteChan(site: Site, p: nat): Chan {
    match site
    case OnSleepLock(k) => LockChan(k)
    case InWait => ProcChan(p)
    case OnDevice(d, x) => DevChan(d, x)
  }

  function SiteLock(site: Site): Lock {
    match site
    case OnSleepLock(k) => Inner(k)
    case InWait => WaitLock
    case OnDevice(d, _) => DevLock(d)
  }

  /** Where sleep returns to once it has its lock back. */
  function SiteReturn(site: Site): Ctl {
    match site
    case OnSleepLock(k) => AcqTest(k)
    case InWait => WaitScan(0, false)
    case OnDevice(d, _) => DevHave(d)
  }

  function WhyLock(why: Why): Lock {
    match why
    case Releasing(k) => Inner(k)
    case Adopting(_) => WaitLock
    case ToParent(_) => WaitLock
    case FromDevice(d, _) => DevLock(d)
    case Interrupt(d, _, _) => DevLock(d)
  }

  function WhyChan(why: Why, init: nat): Chan {
    match why
    case Releasing(k) => LockChan(k)
    case Adopting(_) => ProcChan(init)
    case ToParent(x) => if x < 0 then NoChan else ProcChan(x)
    case FromDevice(d, x) => DevChan(d, x)
    case Interrupt(d, x, _) => DevChan(d, x)
  }

  function WhyReturn(why: Why): Ctl {
    match why
    case Releasing(k) => RelDone(k)
    case Adopting(i) => ExitScan(i + 1)
    case ToParent(_) => ExitLock
    case FromDevice(d, _) => DevHave(d)
    case Interrupt(d, _, rest) => IntrHave(d, rest)
  }

  function RestCtl(rest: Rest): Ctl {
    match rest
    case AtFree => Free
    case AtReacquire(site) => Reacquire(site)
    case AtForkParent(j) => ForkParent(j)
    case AtForkRun(j) => ForkRun(j)
  }

  /** The spinlocks a thread of process `p` holds at a program point. */
  function Held(p: nat, ctl: Ctl): set<Lock> {
    match ctl
    case Free => {}
    case Reacquire(_) => {}
    case ForkParent(_) => {}
    case ForkRun(_) => {}
    case YieldHave(_) => {PLock(p)}
    case Sched(_) => {PLock(p)}
    case Resumed(_) => {PLock(p)}
    case SleepOne(_) => {PLock(p)}
    case SleepEnter(site) => {SiteLock(site)}
    case SleepBoth(site) => {SiteLock(site), PLock(p)}
    case AcqTest(k) => {Inner(k)}
    case AcqDone(k) => {Inner(k)}
    case RelHave(k) => {Inner(k)}
    case RelDone(k) => {Inner(k)}
    case DevHave(d) => {DevLock(d)}
    case IntrHave(d, _) => {DevLock(d)}
    case Wake(why, _) => {WhyLock(why)}
    case WakeHave(why, j) => {WhyLock(why), PLock(j)}
    case ExitScan(_) => {WaitLock}
    case ExitLock => {WaitLock}
    case ExitZombie => {WaitLock, PLock(p)}
    case WaitScan(_, _) => {WaitLock}
    case WaitHave(i, _) => {WaitLock, PLock(i)}
    case WaitKilled => {WaitLock, PLock(p)}
    case WaitRet => {WaitLock}
    case KillHave(j, _) => {PLock(j)}
    case AllocHave(j) => {PLock(j)}
    case ForkHave(j) => {PLock(j)}
    case ForkSet(_) => {WaitLock}
    case ForkFin(j) => {PLock(j)}
  }

  /** The spinlocks CPU `c` holds. */
  function HeldBy(s: State, c: nat): set<Lock>
    requires c < |s.on| && |s.ctl| == |s.st|
  {
    match s.on[c]
    case Idle => {}
    case Have(j) => {PLock(j)}
    case Back(j) => {PLock(j)}
    case IdleIntr(d) => {DevLock(d)}
    case IdleWake(d, _, _) => {DevLock(d)}
    case IdleWakeHave(d, _, j) => {DevLock(d), PLock(j)}
    case Run(p) => if p < |s.st| then Held(p, s.ctl[p]) else {}
  }

  predicate SiteOk(nl: nat, site: Site) { site.OnSleepLock? ==> site.k < nl }

  predicate RestOk(np: nat, nl: nat, rest: Rest) {
    match rest
    case AtFree => true
    case AtReacquire(site) => SiteOk(nl, site)
    case AtForkParent(j) => j < np
    case AtForkRun(j) => j < np
  }

  predicate WhyOk(np: nat, nl: nat, why: Why) {
    && (why.Releasing? ==> why.k < nl) && (why.ToParent? ==> -1 <= why.parent < np)
    && (why.Interrupt? ==> RestOk(np, nl, why.rest))
  }

  predicate AfterOk(np: nat, nl: nat, after: After) {
    match after
    case AfterYield(rest) => RestOk(np, nl, rest)
    case AfterSleep(site) => SiteOk(nl, site)
    case FirstRun => true
    case Never => true
  }

  /** The indices in a program point are in range for `np` processes and `nl` sleep locks. */
  predicate CtlOk(np: nat, nl: nat, ctl: Ctl) {
    match ctl
    case YieldHave(rest) => RestOk(np, nl, rest)
    case Sched(after) => AfterOk(np, nl, after)
    case Resumed(after) => AfterOk(np, nl, after)
    case SleepEnter(site) => SiteOk(nl, site)
    case SleepBoth(site) => SiteOk(nl, site)
    case SleepOne(site) => SiteOk(nl, site)
    case Reacquire(site) => SiteOk(nl, site)
    case AcqTest(k) => k < nl
    case AcqDone(k) => k < nl
    case RelHave(k) => k < nl
    case RelDone(k) => k < nl
    case IntrHave(_, rest) => RestOk(np, nl, rest)
    case Wake(why, _) => WhyOk(np, nl, why)
    case WakeHave(why, j) => WhyOk(np, nl, why) && j < np
    case WaitHave(i, _) => i < np
    case KillHave(j, _) => j < np
    case AllocHave(j) => j < np
    case ForkHave(j) => j < np
    case ForkParent(j) => j < np
    case ForkSet(j) => j < np
    case ForkRun(j) => j < np
    case ForkFin(j) => j < np
    case _ => true
  }

  predicate Sizes(s: State) {
    && |s.chan| == |s.parent| == |s.killed| == |s.ctl| == |s.at| == |s.slk| == |s.exits| == |s.reaps| == |s.st|
    && |s.cur| == |s.on| && s.init < |s.st|
  }

  predicate ExecOk(np: nat, on: Exec) {
    (on.Have? || on.Back? || on.IdleWakeHave? ==> on.j < np) && (on.Run? ==> on.p < np)
  }

  predicate Wf(s: State) {
    && Sizes(s)
    && (forall p :: 0 <= p < |s.ctl| ==> CtlOk(|s.st|, |s.owner|, s.ctl[p]))
    && (forall p :: 0 <= p < |s.parent| ==> -1 <= s.parent[p] < |s.st|)
    && (forall c :: 0 <= c < |s.on| ==> ExecOk(|s.st|, s.on[c]))
  }

  /** Move the thread of `p` to `ctl`, taking `lock` for CPU `c`, or spin. */
  function Take(s: State, c: nat, lock: Lock, p: nat, ctl: Ctl): State
    requires Sizes(s) && p < |s.st|
  {
    if lock in s.held then s else s.(held := s.held[lock := c], ctl := s.ctl[p := ctl])
  }

  /** Move the thread of `p` to `ctl`, releasing `lock`. */
  function Drop(s: State, lock: Lock, p: nat, ctl: Ctl): State
    requires Sizes(s) && p < |s.st|
  {
    s.(held := s.held - {lock}, ctl := s.ctl[p := ctl])
  }

  function Move(s: State, p: nat, ctl: Ctl): State
    requires Sizes(s) && p < |s.st|
  {
    s.(ctl := s.ctl[p := ctl])
  }

  /** A thread starts an operation. */
  function FreeStep(s: State, c: nat, p: nat, ch: Choice): State
    requires Wf(s) && p < |s.st|
  {
    match ch
    case Tick => Take(s, c, PLock(p), p, YieldHave(AtFree))
    case Acquire(k) => if k < |s.owner| then Take(s, c, Inner(k), p, AcqTest(k)) else s
    case Release(k) => if k < |s.owner| && k in s.slk[p] then Take(s, c, Inner(k), p, RelHave(k)) else s
    case Device(d) => Take(s, c, DevLock(d), p, DevHave(d))
    case Exit => if p != s.init then Take(s, c, WaitLock, p, ExitScan(0)) else s
    case Wait => Take(s, c, WaitLock, p, WaitScan(0, false))
    case Kill(j, hit) => if j < |s.st| then Take(s, c, PLock(j), p, KillHave(j, hit)) else s
    case Fork(j) => if j < |s.st| then Take(s, c, PLock(j), p, AllocHave(j)) else s
    case _ => s
  }

  predicate IsIntr(ch: Choice) { ch.Tick? || ch.Device? }

  /** A timer interrupt takes a thread to yield, a device's to the driver's handler. */
  function Interrupted(s: State, c: nat, p: nat, rest: Rest, ch: Choice): State
    requires Wf(s) && p < |s.st| && IsIntr(ch)
  {
    if ch.Tick? then Take(s, c, PLock(p), p, YieldHave(rest)) else Take(s, c, DevLock(ch.d), p, IntrHave(ch.d, rest))
  }

  /** sleep, sched and yield. */
  function SleepStep(s: State, c: nat, p: nat, ch: Choice): State
    requires Wf(s) && p < |s.st|
  {
    match s.ctl[p]
    case YieldHave(rest) => Move(s.(st := s.st[p := RUNNABLE]), p, Sched(AfterYield(rest)))
    case Resumed(after) =>
      (match after
       case AfterYield(rest) => Drop(s, PLock(p), p, RestCtl(rest))
       case AfterSleep(site) => Drop(s.(chan := s.chan[p := NoChan]), PLock(p), p, Reacquire(site))
       case FirstRun => Drop(s, PLock(p), p, Free)
       case Never => s)
    case SleepEnter(site) => Take(s, c, PLock(p), p, SleepBoth(site))
    case SleepBoth(site) => Drop(s, SiteLock(site), p, SleepOne(site))
    case SleepOne(site) =>
      Move(s.(chan := s.chan[p := SiteChan(site, p)], st := s.st[p := SLEEPING]), p, Sched(AfterSleep(site)))
    case Reacquire(site) =>
      if IsIntr(ch) then Interrupted(s, c, p, AtReacquire(site), ch)
      else Take(s, c, SiteLock(site), p, SiteReturn(site))
    case _ => s
  }

  /** The swtch inside sched: the thread's context is saved and the CPU's restored. */
  function SwtchStep(s: State, c: nat, p: nat): State
    requires Wf(s) && p < |s.st| && c < |s.on| && s.ctl[p].Sched?
  {
    Move(s, p, Resumed(s.ctl[p].after)).(at := s.at[p := -1], on := s.on[c := Back(p)])
  }

  /** acquiresleep and releasesleep, and a driver's use of sleep and wakeup. A handler only
      wakes. */
  function LockStep(s: State, c: nat, p: nat, ch: Choice): State
    requires Wf(s) && p < |s.st|
  {
    match s.ctl[p]
    case AcqTest(k) =>
      if s.owner[k] != -1 then Move(s, p, SleepEnter(OnSleepLock(k)))
      else Move(s.(owner := s.owner[k := p], slk := s.slk[p := s.slk[p] + {k}]), p, AcqDone(k))
    case AcqDone(k) => Drop(s, Inner(k), p, Free)
    case RelHave(k) =>
      Move(s.(owner := s.owner[k := -1], slk := s.slk[p := s.slk[p] - {k}]), p, Wake(Releasing(k), 0))
    case RelDone(k) => Drop(s, Inner(k), p, Free)
    case DevHave(d) =>
      if ch.DoSleep? then Move(s, p, SleepEnter(OnDevice(d, ch.x)))
      else if ch.DoWake? then Move(s, p, Wake(FromDevice(d, ch.x), 0))
      else Drop(s, DevLock(d), p, Free)
    case IntrHave(d, rest) =>
      if ch.DoWake? then Move(s, p, Wake(Interrupt(d, ch.x, rest), 0)) else Drop(s, DevLock(d), p, RestCtl(rest))
    case _ => s
  }

  /** wakeup: visit every process but the caller. */
  function WakeStep(s: State, c: nat, p: nat): State
    requires Wf(s) && p < |s.st|
  {
    match s.ctl[p]
    case Wake(why, j) =>
      if j >= |s.st| then Move(s, p, WhyReturn(why))
      else if j == p then Move(s, p, Wake(why, j + 1))
      else Take(s, c, PLock(j), p, WakeHave(why, j))
    case WakeHave(why, j) =>
      var st := if s.st[j] == SLEEPING && s.chan[j] == WhyChan(why, s.init) then s.st[j := RUNNABLE] else s.st;
      Drop(s.(st := st), PLock(j), p, Wake(why, j + 1))
    case _ => s
  }

  /** kexit. */
  function ExitStep(s: State, c: nat, p: nat): State
    requires Wf(s) && p < |s.st|
  {
    match s.ctl[p]
    case ExitScan(i) =>
      if i >= |s.st| then Move(s, p, Wake(ToParent(s.parent[p]), 0))
      else if s.parent[i] == p then Move(s.(parent := s.parent[i := s.init]), p, Wake(Adopting(i), 0))
      else Move(s, p, ExitScan(i + 1))
    case ExitLock => Take(s, c, PLock(p), p, ExitZombie)
    case ExitZombie =>
      Drop(s.(st := s.st[p := ZOMBIE], exits := s.exits[p := s.exits[p] + 1]), WaitLock, p, Sched(Never))
    case _ => s
  }

  /** kwait. */
  function WaitStep(s: State, c: nat, p: nat, ch: Choice): State
    requires Wf(s) && p < |s.st|
  {
    match s.ctl[p]
    case WaitScan(i, kids) =>
      if i < |s.st| then
        if s.parent[i] == p then Take(s, c, PLock(i), p, WaitHave(i, kids)) else Move(s, p, WaitScan(i + 1, kids))
      else if !kids then Move(s, p, WaitRet)
      else Take(s, c, PLock(p), p, WaitKilled)
    case WaitHave(i, kids) =>
      if s.st[i] != ZOMBIE then Drop(s, PLock(i), p, WaitScan(i + 1, true))
      else if ch.Fail? then Drop(s, PLock(i), p, WaitRet)
      else Drop(Freeproc(s, i).(reaps := s.reaps[i := s.reaps[i] + 1]), PLock(i), p, WaitRet)
    case WaitKilled => Drop(s, PLock(p), p, if s.killed[p] then WaitRet else SleepEnter(InWait))
    case WaitRet => Drop(s, WaitLock, p, Free)
    case _ => s
  }

  function Freeproc(s: State, i: nat): State
    requires Sizes(s) && i < |s.st|
  {
    s.(st := s.st[i := UNUSED], chan := s.chan[i := NoChan], killed := s.killed[i := false],
       parent := s.parent[i := -1])
  }

  /** kkill at process `j`, `hit` telling whether it has the pid. */
  function KillStep(s: State, p: nat): State
    requires Wf(s) && p < |s.st| && s.ctl[p].KillHave?
  {
    var j := s.ctl[p].j;
    if !s.ctl[p].hit then Drop(s, PLock(j), p, Free)
    else
      var st := if s.st[j] == SLEEPING then s.st[j := RUNNABLE] else s.st;
      Drop(s.(st := st, killed := s.killed[j := true]), PLock(j), p, Free)
  }

  /** The first part of kfork, with `j` the slot that allocproc looks at. */
  function AllocStep(s: State, p: nat, ch: Choice): State
    requires Wf(s) && p < |s.st|
  {
    match s.ctl[p]
    case AllocHave(j) =>
      if s.st[j] == UNUSED then
        Move(s.(st := s.st[j := USED], ctl := s.ctl[j := Resumed(FirstRun)]), p, ForkHave(j))
      else Drop(s, PLock(j), p, Free)
    case ForkHave(j) =>
      if ch.Fail? then Drop(Freeproc(s, j), PLock(j), p, Free) else Drop(s, PLock(j), p, ForkParent(j))
    case _ => s
  }

  /** The rest of kfork: the child gets its parent under wait_lock and only then becomes
      runnable. */
  function ForkStep(s: State, c: nat, p: nat, ch: Choice): State
    requires Wf(s) && p < |s.st|
  {
    match s.ctl[p]
    case ForkParent(j) =>
      if IsIntr(ch) then Interrupted(s, c, p, AtForkParent(j), ch) else Take(s, c, WaitLock, p, ForkSet(j))
    case ForkSet(j) => Drop(s.(parent := s.parent[j := p]), WaitLock, p, ForkRun(j))
    case ForkRun(j) =>
      if IsIntr(ch) then Interrupted(s, c, p, AtForkRun(j), ch) else Take(s, c, PLock(j), p, ForkFin(j))
    case ForkFin(j) => Drop(s.(st := s.st[j := RUNNABLE]), PLock(j), p, Free)
    case _ => s
  }

  predicate AtLock(ctl: Ctl) {
    ctl.AcqTest? || ctl.AcqDone? || ctl.RelHave? || ctl.RelDone? || ctl.DevHave? || ctl.IntrHave?
  }
  predicate AtWake(ctl: Ctl) { ctl.Wake? || ctl.WakeHave? }
  predicate AtExit(ctl: Ctl) { ctl.ExitScan? || ctl.ExitLock? || ctl.ExitZombie? }
  predicate AtWait(ctl: Ctl) { ctl.WaitScan? || ctl.WaitHave? || ctl.WaitKilled? || ctl.WaitRet? }
  predicate AtAlloc(ctl: Ctl) { ctl.AllocHave? || ctl.ForkHave? }
  predicate AtFork(ctl: Ctl) { ctl.ForkParent? || ctl.ForkSet? || ctl.ForkRun? || ctl.ForkFin? }

  function ThreadStep(s: State, c: nat, p: nat, ch: Choice): State
    requires Wf(s) && p < |s.st| && c < |s.on|
  {
    if s.ctl[p].Free? then FreeStep(s, c, p, ch)
    else if s.ctl[p].Sched? then SwtchStep(s, c, p)
    else if AtLock(s.ctl[p]) then LockStep(s, c, p, ch)
    else if AtWake(s.ctl[p]) then WakeStep(s, c, p)
    else if AtExit(s.ctl[p]) then ExitStep(s, c, p)
    else if AtWait(s.ctl[p]) then WaitStep(s, c, p, ch)
    else if s.ctl[p].KillHave? then KillStep(s, p)
    else if AtAlloc(s.ctl[p]) then AllocStep(s, p, ch)
    else if AtFork(s.ctl[p]) then ForkStep(s, c, p, ch)
    else SleepStep(s, c, p, ch)
  }

  /** A device interrupt taken in the scheduler loop: myproc() is null, so wakeup visits every
      process. */
  function IdleStep(s: State, c: nat, ch: Choice): State
    requires Wf(s) && c < |s.on|
  {
    match s.on[c]
    case IdleIntr(d) =>
      if ch.DoWake? then s.(on := s.on[c := IdleWake(d, ch.x, 0)])
      else s.(held := s.held - {DevLock(d)}, on := s.on[c := Idle])
    case IdleWake(d, x, j) =>
      if j >= |s.st| then s.(on := s.on[c := IdleIntr(d)])
      else if PLock(j) in s.held then s
      else s.(held := s.held[PLock(j) := c], on := s.on[c := IdleWakeHave(d, x, j)])
    case IdleWakeHave(d, x, j) =>
      var st := if s.st[j] == SLEEPING && s.chan[j] == DevChan(d, x) then s.st[j := RUNNABLE] else s.st;
      s.(st := st, held := s.held - {PLock(j)}, on := s.on[c := IdleWake(d, x, j + 1)])
    case _ => s
  }

  predicate AtIdle(on: Exec) { on.IdleIntr? || on.IdleWake? || on.IdleWakeHave? }

  /** The scheduler loop. */
  function SchedulerStep(s: State, c: nat, ch: Choice): State
    requires Wf(s) && c < |s.on|
  {
    match s.on[c]
    case Idle =>
      if ch.Pick? && ch.j < |s.st| && PLock(ch.j) !in s.held then
        s.(held := s.held[PLock(ch.j) := c], on := s.on[c := Have(ch.j)])
      else if ch.Device? && DevLock(ch.d) !in s.held then
        s.(held := s.held[DevLock(ch.d) := c], on := s.on[c := IdleIntr(ch.d)])
      else s
    case Have(j) =>
      if s.st[j] == RUNNABLE then
        s.(st := s.st[j := RUNNING], at := s.at[j := c], on := s.on[c := Run(j)], cur := s.cur[c := j])
      else s.(held := s.held - {PLock(j)}, on := s.on[c := Idle])
    case Back(j) => s.(held := s.held - {PLock(j)}, on := s.on[c := Idle], cur := s.cur[c := -1])
    case _ => s
  }

  /** One step of CPU `c`. */
  function Step(s: State, c: nat, ch: Choice): State
    requires Wf(s) && c < |s.on|
  {
    if s.on[c].Run? then ThreadStep(s, c, s.on[c].p, ch)
    else if AtIdle(s.on[c]) then IdleStep(s, c, ch)
    else SchedulerStep(s, c, ch)
  }
}
