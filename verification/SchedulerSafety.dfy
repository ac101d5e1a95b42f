/** What every step of the transition system keeps. */
module SchedulerSafety {
  import opened Scheduler

  /** The lock table agrees with the program points: CPU `c` holds `l` exactly when the
      code it is executing is between the acquire and the release of `l`. */
  ghost predicate Locks(s: State)
    requires Sizes(s)
  {
    && (forall l :: l in s.held ==> s.held[l] < |s.on|)
    && (forall c, l :: 0 <= c < |s.on| ==> (l in HeldBy(s, c) <==> l in s.held && s.held[l] == c))
  }

  function CurOf(on: Exec): int {
    match on
    case Back(j) => j
    case Run(p) => p
    case _ => -1
  }

  ghost predicate CpuOk(s: State, c: nat)
    requires Sizes(s) && c < |s.on|
  {
    && s.cur[c] == CurOf(s.on[c])
    && (s.on[c].Run? ==> s.on[c].p < |s.at| && s.at[s.on[c].p] == c)
  }

  /** A process that is executing is RUNNING, except between setting its new state and
      the swtch. */
  predicate RunningOk(st: PState, chan: Chan, p: nat, ctl: Ctl) {
    if ctl.Sched? then
      match ctl.after
      case AfterYield(_) => st == RUNNABLE
      case AfterSleep(site) => st == SLEEPING && chan == SiteChan(site, p)
      case Never => st == ZOMBIE
      case FirstRun => false
    else st == RUNNING && ctl != Resumed(Never)
  }

  /** A process that is not executing has a saved context to resume. */
  predicate SavedOk(st: PState, chan: Chan, p: nat, ctl: Ctl) {
    && st != RUNNING
    && (st == RUNNABLE ==> ctl.Resumed? && ctl.after != Never)
    && (st == SLEEPING ==> ctl.Resumed? && ctl.after.AfterSleep? && chan == SiteChan(ctl.after.site, p))
    && (st == USED ==> ctl == Resumed(FirstRun))
    && (ctl.Resumed? && ctl.after == Never ==> st == ZOMBIE || st == UNUSED)
    && (st == ZOMBIE || st == UNUSED ==> ctl == Resumed(Never) || ctl == Resumed(FirstRun))
  }

  ghost predicate ProcOk(s: State, p: nat)
    requires Sizes(s) && p < |s.st|
  {
    if s.at[p] == -1 then SavedOk(s.st[p], s.chan[p], p, s.ctl[p])
    else 0 <= s.at[p] < |s.on| && s.on[s.at[p]] == Run(p) && RunningOk(s.st[p], s.chan[p], p, s.ctl[p])
  }

  function RestChild(rest: Rest): int {
    match rest
    case AtForkParent(j) => j
    case AtForkRun(j) => j
    case _ => -1
  }

  /** The process a thread is in the middle of creating, -1 if none. */
  function ChildOf(ctl: Ctl): int {
    match ctl
    case ForkHave(j) => j
    case ForkParent(j) => j
    case ForkSet(j) => j
    case ForkRun(j) => j
    case ForkFin(j) => j
    case YieldHave(rest) => RestChild(rest)
    case IntrHave(_, rest) => RestChild(rest)
    case Wake(why, _) => if why.Interrupt? then RestChild(why.rest) else -1
    case WakeHave(why, _) => if why.Interrupt? then RestChild(why.rest) else -1
    case Sched(after) => if after.AfterYield? then RestChild(after.rest) else -1
    case Resumed(after) => if after.AfterYield? then RestChild(after.rest) else -1
    case _ => -1
  }

  ghost predicate Forks(s: State)
    requires Sizes(s)
  {
    && (forall p :: 0 <= p < |s.ctl| && ChildOf(s.ctl[p]) != -1 ==>
          0 <= ChildOf(s.ctl[p]) < |s.st| && s.st[ChildOf(s.ctl[p])] == USED)
    && (forall p, q :: 0 <= p < |s.ctl| && 0 <= q < |s.ctl| && ChildOf(s.ctl[p]) == ChildOf(s.ctl[q]) != -1 ==> p == q)
  }

  ghost predicate Base(s: State) {
    && Wf(s) && Locks(s)
    && (forall c :: 0 <= c < |s.on| ==> CpuOk(s, c))
    && (forall p :: 0 <= p < |s.st| ==> ProcOk(s, p))
    && Forks(s)
  }

  lemma BaseIsWf(s: State)
    requires Base(s)
    ensures Wf(s)
  {
  }

  /** `held'` is `held` after CPU `c` went from holding `h` to holding `h'`. */
  ghost predicate Relock(held: map<Lock, nat>, held': map<Lock, nat>, c: nat, h: set<Lock>, h': set<Lock>) {
    && (forall l :: l in held' <==> l in h' || (l in held && l !in h))
    && (forall l :: l in held' ==> held'[l] == if l in h' then c else held[l])
    && (forall l :: l in h' && l !in h ==> l !in held)
  }

  /** Everything outside processes `p` and `j` is as before. */
  ghost predicate Touches(s: State, s': State, p: nat, j: nat)
    requires Sizes(s)
  {
    && Sizes(s') && |s'.st| == |s.st| && |s'.owner| == |s.owner|
    && s'.on == s.on && s'.at == s.at && s'.cur == s.cur && s'.init == s.init
    && (forall q :: 0 <= q < |s.st| && q != p && q != j ==>
          s'.st[q] == s.st[q] && s'.chan[q] == s.chan[q] && s'.ctl[q] == s.ctl[q])
    && (forall q :: 0 <= q < |s.parent| ==> -1 <= s'.parent[q] < |s.st|)
  }

  /** A thread's step keeps the base invariants if its new program point and the process it
      touched are in order. */
  lemma Advance(s: State, s': State, c: nat, p: nat, j: nat)
    requires Base(s) && c < |s.on| && s.on[c] == Run(p) && p < |s.st| && j < |s.st| && Touches(s, s', p, j)
    requires CtlOk(|s.st|, |s.owner|, s'.ctl[p]) && CtlOk(|s.st|, |s.owner|, s'.ctl[j])
    requires RunningOk(s'.st[p], s'.chan[p], p, s'.ctl[p])
    requires j != p ==> ProcOk(s', j) && (s.at[j] == -1 || s'.ctl[j] == s.ctl[j])
    requires Relock(s.held, s'.held, c, Held(p, s.ctl[p]), Held(p, s'.ctl[p]))
    requires Forks(s')
    ensures Base(s')
  {
    assert CpuOk(s, c);
    AdvanceLocks(s, s', c, p, j);
    forall q | 0 <= q < |s'.st| ensures ProcOk(s', q) {
      assert ProcOk(s, q);
    }
    forall d | 0 <= d < |s'.on| ensures CpuOk(s', d) {
      assert CpuOk(s, d);
    }
  }

  lemma AdvanceLocks(s: State, s': State, c: nat, p: nat, j: nat)
    requires Base(s) && c < |s.on| && s.on[c] == Run(p) && p < |s.st| && j < |s.st| && Touches(s, s', p, j)
    requires j != p ==> s.at[j] == -1 || s'.ctl[j] == s.ctl[j]
    requires Relock(s.held, s'.held, c, Held(p, s.ctl[p]), Held(p, s'.ctl[p]))
    ensures Locks(s')
  {
    hide Held, Forks, ProcOk, CtlOk;
    assert CpuOk(s, c);
    forall d, l | 0 <= d < |s'.on| ensures l in HeldBy(s', d) <==> l in s'.held && s'.held[l] == d {
      assert CpuOk(s, d);
      assert l in HeldBy(s, d) <==> l in s.held && s.held[l] == d;
      assert l in HeldBy(s, c) <==> l in s.held && s.held[l] == c;
    }
  }

  lemma AdvanceForks(s: State, s': State, c: nat, p: nat, j: nat)
    requires Base(s) && c < |s.on| && s.on[c] == Run(p) && p < |s.st| && j < |s.st| && Touches(s, s', p, j)
    requires j != p ==> ChildOf(s'.ctl[j]) == ChildOf(s.ctl[j])
    requires
      var x := ChildOf(s'.ctl[p]);
      && (x == -1 || x == ChildOf(s.ctl[p]) || (x == j && s.st[j] != USED && s'.st[j] == USED))
      && (s.st[j] == USED && s'.st[j] != USED ==> ChildOf(s.ctl[p]) == j && x == -1)
    ensures Forks(s')
  {
    hide ChildOf, Locks, CtlOk;
    assert s.st[p] != USED by { assert CpuOk(s, c) && ProcOk(s, p); }
    hide ProcOk, CpuOk;
  }

  /** CPU `c` holds exactly what its program point says. */
  lemma HoldsItsLocks(s: State, c: nat, p: nat)
    requires Base(s) && c < |s.on| && s.on[c] == Run(p) && p < |s.st|
    ensures forall l :: l in Held(p, s.ctl[p]) ==> l in s.held && s.held[l] == c
    ensures s.at[p] == c && RunningOk(s.st[p], s.chan[p], p, s.ctl[p]) && CtlOk(|s.st|, |s.owner|, s.ctl[p])
    ensures forall d, l :: 0 <= d < |s.on| && d != c && l in HeldBy(s, d) ==> l !in Held(p, s.ctl[p])
  {
    hide Held, Forks, CtlOk, RunningOk;
    assert CpuOk(s, c) && ProcOk(s, p);
    forall l | l in Held(p, s.ctl[p]) ensures l in s.held && s.held[l] == c {
      assert l in HeldBy(s, c);
    }
  }

  lemma TakeKeeps(s: State, c: nat, lock: Lock, p: nat, k: Ctl)
    requires Base(s) && c < |s.on| && s.on[c] == Run(p) && p < |s.st| && CtlOk(|s.st|, |s.owner|, k)
    requires RunningOk(s.st[p], s.chan[p], p, k) && ChildOf(k) == ChildOf(s.ctl[p])
    requires Held(p, k) == Held(p, s.ctl[p]) + {lock}
    ensures Base(Take(s, c, lock, p, k))
  {
    hide Held, ChildOf, CtlOk, RunningOk;
    HoldsItsLocks(s, c, p);
    if lock !in s.held {
      var s' := Take(s, c, lock, p, k);
      AdvanceForks(s, s', c, p, p);
      Advance(s, s', c, p, p);
    }
  }

  lemma DropKeeps(s: State, c: nat, lock: Lock, p: nat, k: Ctl)
    requires Base(s) && c < |s.on| && s.on[c] == Run(p) && p < |s.st| && CtlOk(|s.st|, |s.owner|, k)
    requires RunningOk(s.st[p], s.chan[p], p, k) && ChildOf(k) == ChildOf(s.ctl[p])
    requires lock in Held(p, s.ctl[p]) && Held(p, k) == Held(p, s.ctl[p]) - {lock}
    ensures Base(Drop(s, lock, p, k))
  {
    hide Held, ChildOf, CtlOk, RunningOk;
    HoldsItsLocks(s, c, p);
    var s' := Drop(s, lock, p, k);
    AdvanceForks(s, s', c, p, p);
    Advance(s, s', c, p, p);
  }

  lemma MoveKeeps(s: State, c: nat, p: nat, k: Ctl)
    requires Base(s) && c < |s.on| && s.on[c] == Run(p) && p < |s.st| && CtlOk(|s.st|, |s.owner|, k)
    requires RunningOk(s.st[p], s.chan[p], p, k) && ChildOf(k) == ChildOf(s.ctl[p])
    requires Held(p, k) == Held(p, s.ctl[p])
    ensures Base(Move(s, p, k))
  {
    hide Held, ChildOf, CtlOk, RunningOk;
    HoldsItsLocks(s, c, p);
    var s' := Move(s, p, k);
    AdvanceForks(s, s', c, p, p);
    Advance(s, s', c, p, p);
  }

  /** CPU `c` executes process `p`. */
  ghost predicate Runs(s: State, c: nat, p: nat) {
    c < |s.on| && s.on[c] == Run(p) && p < |s.st|
  }

  lemma OwnKeeps(s: State, s': State, c: nat, p: nat)
    requires Base(s) && Runs(s, c, p) && Touches(s, s', p, p)
    requires CtlOk(|s.st|, |s.owner|, s'.ctl[p]) && RunningOk(s'.st[p], s'.chan[p], p, s'.ctl[p])
    requires Relock(s.held, s'.held, c, Held(p, s.ctl[p]), Held(p, s'.ctl[p]))
    requires ChildOf(s'.ctl[p]) == ChildOf(s.ctl[p])
    ensures Base(s')
  {
    hide Held, ChildOf, CtlOk;
    HoldsItsLocks(s, c, p);
    AdvanceForks(s, s', c, p, p);
    Advance(s, s', c, p, p);
  }

  lemma FreeKeeps(s: State, c: nat, p: nat, ch: Choice)
    requires Base(s) && Runs(s, c, p) && s.ctl[p].Free?
    ensures Base(FreeStep(s, c, p, ch))
  {
    hide Base;
    BaseWf(s, c, p);
    match ch {
      case Tick => TakeKeeps(s, c, PLock(p), p, YieldHave(AtFree));
      case Acquire(k) => if k < |s.owner| { TakeKeeps(s, c, Inner(k), p, AcqTest(k)); }
      case Release(k) => if k < |s.owner| { TakeKeeps(s, c, Inner(k), p, RelHave(k)); }
      case Device(d) => TakeKeeps(s, c, DevLock(d), p, DevHave(d));
      case Exit => TakeKeeps(s, c, WaitLock, p, ExitScan(0));
      case Wait => TakeKeeps(s, c, WaitLock, p, WaitScan(0, false));
      case Kill(j, hit) => if j < |s.st| { TakeKeeps(s, c, PLock(j), p, KillHave(j, hit)); }
      case Fork(j) => if j < |s.st| { TakeKeeps(s, c, PLock(j), p, AllocHave(j)); }
      case _ =>
    }
  }

  lemma BaseWf(s: State, c: nat, p: nat)
    requires Base(s) && Runs(s, c, p)
    ensures Wf(s) && s.at[p] == c && RunningOk(s.st[p], s.chan[p], p, s.ctl[p]) && CtlOk(|s.st|, |s.owner|, s.ctl[p])
  {
    HoldsItsLocks(s, c, p);
  }

  lemma InterruptedKeeps(s: State, c: nat, p: nat, rest: Rest, ch: Choice)
    requires Base(s) && Runs(s, c, p) && Wf(s) && s.ctl[p] == RestCtl(rest) && IsIntr(ch)
    ensures Base(Interrupted(s, c, p, rest, ch))
  {
    hide Base;
    BaseWf(s, c, p);
    if ch.Tick? { TakeKeeps(s, c, PLock(p), p, YieldHave(rest)); }
    else { TakeKeeps(s, c, DevLock(ch.d), p, IntrHave(ch.d, rest)); }
  }

  lemma YieldKeeps(s: State, c: nat, p: nat, ch: Choice)
    requires Base(s) && Runs(s, c, p) && Wf(s) && s.ctl[p].YieldHave?
    ensures Base(SleepStep(s, c, p, ch))
  {
    hide Base;
    BaseWf(s, c, p);
    HoldsRelock(s, c, p, s.held, {PLock(p)});
    OwnKeeps(s, SleepStep(s, c, p, ch), c, p);
  }

  lemma ResumedKeeps(s: State, c: nat, p: nat, ch: Choice)
    requires Base(s) && Runs(s, c, p) && Wf(s) && s.ctl[p].Resumed?
    ensures Base(SleepStep(s, c, p, ch))
  {
    hide Base;
    BaseWf(s, c, p);
    var after := s.ctl[p].after;
    if after.AfterYield? {
      DropKeeps(s, c, PLock(p), p, RestCtl(after.rest));
    } else if after.AfterSleep? {
      HoldsRelock(s, c, p, s.held - {PLock(p)}, {});
      OwnKeeps(s, SleepStep(s, c, p, ch), c, p);
    } else if after.FirstRun? {
      DropKeeps(s, c, PLock(p), p, Free);
    }
  }

  lemma SleepOneKeeps(s: State, c: nat, p: nat, ch: Choice)
    requires Base(s) && Runs(s, c, p) && Wf(s) && s.ctl[p].SleepOne?
    ensures Base(SleepStep(s, c, p, ch))
  {
    hide Base;
    BaseWf(s, c, p);
    HoldsRelock(s, c, p, s.held, {PLock(p)});
    OwnKeeps(s, SleepStep(s, c, p, ch), c, p);
  }

  lemma SleepKeeps(s: State, c: nat, p: nat, ch: Choice)
    requires Base(s) && Runs(s, c, p)
    ensures Base(SleepStep(s, c, p, ch))
  {
    hide Base, Interrupted;
    BaseWf(s, c, p);
    match s.ctl[p] {
      case YieldHave(rest) => YieldKeeps(s, c, p, ch);
      case Resumed(after) => ResumedKeeps(s, c, p, ch);
      case SleepEnter(site) => TakeKeeps(s, c, PLock(p), p, SleepBoth(site));
      case SleepBoth(site) => DropKeeps(s, c, SiteLock(site), p, SleepOne(site));
      case SleepOne(site) => SleepOneKeeps(s, c, p, ch);
      case Reacquire(site) =>
        if IsIntr(ch) { InterruptedKeeps(s, c, p, AtReacquire(site), ch); }
        else { TakeKeeps(s, c, SiteLock(site), p, SiteReturn(site)); }
      case _ =>
    }
  }

  /** Shrinking the set of held locks. */
  lemma HoldsRelock(s: State, c: nat, p: nat, held': map<Lock, nat>, h': set<Lock>)
    requires Base(s) && Runs(s, c, p) && h' <= Held(p, s.ctl[p])
    requires held' == s.held - (Held(p, s.ctl[p]) - h')
    ensures Relock(s.held, held', c, Held(p, s.ctl[p]), h')
  {
    hide Held;
    HoldsItsLocks(s, c, p);
  }

  /** A process whose lock another CPU holds is not between setting its state and swtch. */
  lemma LockedOther(s: State, c: nat, j: nat)
    requires Base(s) && c < |s.on| && j < |s.st| && PLock(j) in HeldBy(s, c) && s.on[c] != Run(j)
    ensures s.at[j] == -1 || (s.st[j] == RUNNING && !s.ctl[j].Sched?)
    ensures s.st[j] != RUNNING ==> s.at[j] == -1
  {
    hide Forks, CtlOk;
    assert ProcOk(s, j);
    if s.at[j] != -1 {
      var d := s.at[j] as nat;
      assert d != c;
      assert PLock(j) in s.held && s.held[PLock(j)] == c;
      assert PLock(j) !in HeldBy(s, d);
    }
  }

  lemma OtherKeeps(s: State, s': State, c: nat, p: nat, j: nat)
    requires Base(s) && Runs(s, c, p) && j < |s.st| && j != p && Touches(s, s', p, j)
    requires CtlOk(|s.st|, |s.owner|, s'.ctl[p]) && RunningOk(s'.st[p], s'.chan[p], p, s'.ctl[p])
    requires s.at[j] == -1 && SavedOk(s'.st[j], s'.chan[j], j, s'.ctl[j]) && s'.ctl[j].Resumed?
    requires CtlOk(|s.st|, |s.owner|, s'.ctl[j]) && ChildOf(s'.ctl[j]) == ChildOf(s.ctl[j])
    requires Relock(s.held, s'.held, c, Held(p, s.ctl[p]), Held(p, s'.ctl[p]))
    requires
      var x := ChildOf(s'.ctl[p]);
      && (x == -1 || x == ChildOf(s.ctl[p]) || (x == j && s.st[j] != USED && s'.st[j] == USED))
      && (s.st[j] == USED && s'.st[j] != USED ==> ChildOf(s.ctl[p]) == j && x == -1)
    ensures Base(s')
  {
    hide Held, ChildOf, CtlOk, SavedOk, RunningOk;
    AdvanceForks(s, s', c, p, j);
    Advance(s, s', c, p, j);
  }

  lemma AcqTestKeeps(s: State, c: nat, p: nat, ch: Choice)
    requires Base(s) && Runs(s, c, p) && Wf(s) && s.ctl[p].AcqTest?
    ensures Base(LockStep(s, c, p, ch))
  {
    hide Base;
    BaseWf(s, c, p);
    HoldsRelock(s, c, p, s.held, {Inner(s.ctl[p].k)});
    OwnKeeps(s, LockStep(s, c, p, ch), c, p);
  }

  lemma RelHaveKeeps(s: State, c: nat, p: nat, ch: Choice)
    requires Base(s) && Runs(s, c, p) && Wf(s) && s.ctl[p].RelHave?
    ensures Base(LockStep(s, c, p, ch))
  {
    hide Base;
    BaseWf(s, c, p);
    HoldsRelock(s, c, p, s.held, {Inner(s.ctl[p].k)});
    OwnKeeps(s, LockStep(s, c, p, ch), c, p);
  }

  lemma DriverKeeps(s: State, c: nat, p: nat, ch: Choice)
    requires Base(s) && Runs(s, c, p) && Wf(s) && (s.ctl[p].DevHave? || s.ctl[p].IntrHave?)
    ensures Base(LockStep(s, c, p, ch))
  {
    hide Base;
    BaseWf(s, c, p);
    var d := s.ctl[p].d;
    if s.ctl[p].IntrHave? {
      var rest := s.ctl[p].rest;
      if ch.DoWake? { MoveKeeps(s, c, p, Wake(Interrupt(d, ch.x, rest), 0)); }
      else { DropKeeps(s, c, DevLock(d), p, RestCtl(rest)); }
    } else {
      if ch.DoSleep? { MoveKeeps(s, c, p, SleepEnter(OnDevice(d, ch.x))); }
      else if ch.DoWake? { MoveKeeps(s, c, p, Wake(FromDevice(d, ch.x), 0)); }
      else { DropKeeps(s, c, DevLock(d), p, Free); }
    }
  }

  lemma LockStepKeeps(s: State, c: nat, p: nat, ch: Choice)
    requires Base(s) && Runs(s, c, p)
    ensures Base(LockStep(s, c, p, ch))
  {
    hide Base;
    BaseWf(s, c, p);
    match s.ctl[p] {
      case AcqTest(k) => AcqTestKeeps(s, c, p, ch);
      case AcqDone(k) => DropKeeps(s, c, Inner(k), p, Free);
      case RelHave(k) => RelHaveKeeps(s, c, p, ch);
      case RelDone(k) => DropKeeps(s, c, Inner(k), p, Free);
      case DevHave(d) => DriverKeeps(s, c, p, ch);
      case IntrHave(d, rest) => DriverKeeps(s, c, p, ch);
      case _ =>
    }
  }

  /** wakeup and kkill make a sleeper runnable while holding its lock. */
  lemma SleeperWoken(s: State, s': State, c: nat, p: nat, j: nat, h: set<Lock>)
    requires Base(s) && Runs(s, c, p) && j < |s.st| && s.st[j] == SLEEPING && PLock(j) in Held(p, s.ctl[p])
    requires Touches(s, s', p, j) && s'.st == s.st[j := RUNNABLE] && s'.chan == s.chan &&
             s'.ctl == s.ctl[p := s'.ctl[p]]
    requires CtlOk(|s.st|, |s.owner|, s'.ctl[p]) && !s'.ctl[p].Sched? && !s.ctl[p].Sched? && s'.ctl[p] != Resumed(Never)
    requires ChildOf(s'.ctl[p]) == ChildOf(s.ctl[p])
    requires h == Held(p, s.ctl[p]) - {PLock(j)} && Held(p, s'.ctl[p]) == h && s'.held == s.held - {PLock(j)}
    ensures Base(s')
  {
    hide Base, Held, ChildOf;
    BaseWf(s, c, p);
    OffCpu(s, c, p, j);
    HoldsRelock(s, c, p, s'.held, h);
    OtherKeeps(s, s', c, p, j);
  }

  lemma WakeHaveKeeps(s: State, c: nat, p: nat, why: Why, j: nat)
    requires Base(s) && Runs(s, c, p) && s.ctl[p] == WakeHave(why, j)
    ensures Base(WakeStep(s, c, p))
  {
    hide Base;
    BaseWf(s, c, p);
    if s.st[j] == SLEEPING && s.chan[j] == WhyChan(why, s.init) {
      SleeperWoken(s, WakeStep(s, c, p), c, p, j, {WhyLock(why)});
    } else {
      DropKeeps(s, c, PLock(j), p, Wake(why, j + 1));
    }
  }

  lemma WakeKeeps(s: State, c: nat, p: nat)
    requires Base(s) && Runs(s, c, p)
    ensures Base(WakeStep(s, c, p))
  {
    hide Base;
    BaseWf(s, c, p);
    match s.ctl[p] {
      case Wake(why, j) =>
        if j >= |s.st| { MoveKeeps(s, c, p, WhyReturn(why)); }
        else if j == p { MoveKeeps(s, c, p, Wake(why, j + 1)); }
        else { TakeKeeps(s, c, PLock(j), p, WakeHave(why, j)); }
      case WakeHave(why, j) => WakeHaveKeeps(s, c, p, why, j);
      case _ =>
    }
  }

  lemma ExitScanKeeps(s: State, c: nat, p: nat, i: nat)
    requires Base(s) && Runs(s, c, p) && Wf(s) && s.ctl[p] == ExitScan(i)
    ensures Base(ExitStep(s, c, p))
  {
    hide Base;
    BaseWf(s, c, p);
    HoldsRelock(s, c, p, s.held, {WaitLock});
    var s' := ExitStep(s, c, p);
    assert s'.held == s.held && s'.st == s.st && s'.chan == s.chan && !s'.ctl[p].Sched?;
    assert Held(p, s'.ctl[p]) == {WaitLock} && ChildOf(s'.ctl[p]) == -1;
    hide Held, ChildOf;
    OwnKeeps(s, s', c, p);
  }

  lemma ExitZombieKeeps(s: State, c: nat, p: nat)
    requires Base(s) && Runs(s, c, p) && Wf(s) && s.ctl[p] == ExitZombie
    ensures Base(ExitStep(s, c, p))
  {
    hide Base;
    BaseWf(s, c, p);
    HoldsRelock(s, c, p, s.held - {WaitLock}, {PLock(p)});
    OwnKeeps(s, ExitStep(s, c, p), c, p);
  }

  lemma ExitKeeps(s: State, c: nat, p: nat)
    requires Base(s) && Runs(s, c, p)
    ensures Base(ExitStep(s, c, p))
  {
    hide Base;
    BaseWf(s, c, p);
    match s.ctl[p] {
      case ExitScan(i) => ExitScanKeeps(s, c, p, i);
      case ExitLock => TakeKeeps(s, c, PLock(p), p, ExitZombie);
      case ExitZombie => ExitZombieKeeps(s, c, p);
      case _ =>
    }
  }

  lemma WaitScanKeeps(s: State, c: nat, p: nat, ch: Choice)
    requires Base(s) && Runs(s, c, p) && Wf(s) && s.ctl[p].WaitScan?
    ensures Base(WaitStep(s, c, p, ch))
  {
    hide Base;
    BaseWf(s, c, p);
    var i, kids := s.ctl[p].i, s.ctl[p].kids;
    if i < |s.st| {
      if s.parent[i] == p { TakeKeeps(s, c, PLock(i), p, WaitHave(i, kids)); }
      else { MoveKeeps(s, c, p, WaitScan(i + 1, kids)); }
    } else if !kids { MoveKeeps(s, c, p, WaitRet); }
    else { TakeKeeps(s, c, PLock(p), p, WaitKilled); }
  }

  lemma WaitHaveKeeps(s: State, c: nat, p: nat, ch: Choice)
    requires Base(s) && Runs(s, c, p) && Wf(s) && s.ctl[p].WaitHave?
    ensures Base(WaitStep(s, c, p, ch))
  {
    hide Base;
    BaseWf(s, c, p);
    var i, kids := s.ctl[p].i, s.ctl[p].kids;
    if s.st[i] != ZOMBIE { DropKeeps(s, c, PLock(i), p, WaitScan(i + 1, true)); }
    else if ch.Fail? { DropKeeps(s, c, PLock(i), p, WaitRet); }
    else { Reaped(s, WaitStep(s, c, p, ch), c, p, i, kids); }
  }

  lemma WaitKeeps(s: State, c: nat, p: nat, ch: Choice)
    requires Base(s) && Runs(s, c, p)
    ensures Base(WaitStep(s, c, p, ch))
  {
    hide Base;
    BaseWf(s, c, p);
    match s.ctl[p] {
      case WaitScan(i, kids) => WaitScanKeeps(s, c, p, ch);
      case WaitHave(i, kids) => WaitHaveKeeps(s, c, p, ch);
      case WaitKilled => DropKeeps(s, c, PLock(p), p, if s.killed[p] then WaitRet else SleepEnter(InWait));
      case WaitRet => DropKeeps(s, c, WaitLock, p, Free);
      case _ =>
    }
  }

  lemma Reaped(s: State, s': State, c: nat, p: nat, i: nat, kids: bool)
    requires Base(s) && Runs(s, c, p) && s.ctl[p] == WaitHave(i, kids) && i < |s.st| && s.st[i] == ZOMBIE
    requires s' == Drop(Freeproc(s, i).(reaps := s.reaps[i := s.reaps[i] + 1]), PLock(i), p, WaitRet)
    ensures Base(s') && s.at[i] == -1
  {
    hide Base;
    BaseWf(s, c, p);
    OffCpu(s, c, p, i);
    HoldsRelock(s, c, p, s.held - {PLock(i)}, {WaitLock});
    hide Wf;
    OtherKeeps(s, s', c, p, i);
  }

  /** A process whose lock `p` holds and which is not RUNNING is on no CPU. */
  lemma OffCpu(s: State, c: nat, p: nat, j: nat)
    requires Base(s) && Runs(s, c, p) && j < |s.st| && PLock(j) in Held(p, s.ctl[p]) && s.st[j] != RUNNING &&
             s.st[p] == RUNNING
    ensures j != p && s.at[j] == -1 && SavedOk(s.st[j], s.chan[j], j, s.ctl[j]) && CtlOk(|s.st|, |s.owner|, s.ctl[j])
  {
    hide Forks, Locks, Held;
    assert PLock(j) in HeldBy(s, c);
    LockedOther(s, c, j);
    assert ProcOk(s, j);
  }

  lemma KillKeeps(s: State, c: nat, p: nat)
    requires Base(s) && Runs(s, c, p) && s.ctl[p].KillHave?
    ensures Base(KillStep(s, p))
  {
    hide Base;
    BaseWf(s, c, p);
    var s', j := KillStep(s, p), s.ctl[p].j;
    if s.ctl[p].hit && s.st[j] == SLEEPING {
      SleeperWoken(s, s', c, p, j, {});
    } else {
      HoldsRelock(s, c, p, s.held - {PLock(j)}, {});
      OwnKeeps(s, s', c, p);
    }
  }

  lemma AllocKeeps(s: State, c: nat, p: nat, ch: Choice)
    requires Base(s) && Runs(s, c, p) && AtAlloc(s.ctl[p])
    ensures Base(AllocStep(s, p, ch))
  {
    hide Base;
    BaseWf(s, c, p);
    var s', j := AllocStep(s, p, ch), s.ctl[p].j;
    if s.ctl[p].AllocHave? {
      if s.st[j] == UNUSED { SlotTaken(s, s', c, p, j); }
      else { DropKeeps(s, c, PLock(j), p, Free); }
    } else {
      if ch.Fail? { ChildDone(s, s', c, p, j); }
      else { DropKeeps(s, c, PLock(j), p, ForkParent(j)); }
    }
  }

  lemma ForkSetKeeps(s: State, c: nat, p: nat, ch: Choice)
    requires Base(s) && Runs(s, c, p) && s.ctl[p].ForkSet?
    ensures Base(ForkStep(s, c, p, ch))
  {
    hide Base;
    BaseWf(s, c, p);
    HoldsRelock(s, c, p, s.held - {WaitLock}, {});
    OwnKeeps(s, ForkStep(s, c, p, ch), c, p);
  }

  lemma ForkKeeps(s: State, c: nat, p: nat, ch: Choice)
    requires Base(s) && Runs(s, c, p) && AtFork(s.ctl[p])
    ensures Base(ForkStep(s, c, p, ch))
  {
    hide Base;
    BaseWf(s, c, p);
    var s' := ForkStep(s, c, p, ch);
    match s.ctl[p] {
      case ForkParent(j) =>
        if IsIntr(ch) { InterruptedKeeps(s, c, p, AtForkParent(j), ch); }
        else { TakeKeeps(s, c, WaitLock, p, ForkSet(j)); }
      case ForkSet(j) => ForkSetKeeps(s, c, p, ch);
      case ForkRun(j) =>
        if IsIntr(ch) { InterruptedKeeps(s, c, p, AtForkRun(j), ch); }
        else { TakeKeeps(s, c, PLock(j), p, ForkFin(j)); }
      case ForkFin(j) => ChildDone(s, s', c, p, j);
    }
  }

  lemma SlotTaken(s: State, s': State, c: nat, p: nat, j: nat)
    requires Base(s) && Runs(s, c, p) && j < |s.st| && s.st[j] == UNUSED && s.ctl[p] == AllocHave(j)
    requires s' == Move(s.(st := s.st[j := USED], ctl := s.ctl[j := Resumed(FirstRun)]), p, ForkHave(j))
    ensures Base(s')
  {
    hide Locks;
    BaseWf(s, c, p);
    assert j != p;
    assert ProcOk(s, j);
    assert s.at[j] == -1 && ChildOf(s.ctl[j]) == -1;
    HoldsRelock(s, c, p, s.held, {PLock(j)});
    hide Base, ProcOk, CpuOk;
    assert Touches(s, s', p, j);
    hide Touches;
    OtherKeeps(s, s', c, p, j);
  }

  /** kfork either frees the new process or makes it runnable. */
  lemma ChildDone(s: State, s': State, c: nat, p: nat, j: nat)
    requires Base(s) && Runs(s, c, p) && j < |s.st| && (s.ctl[p] == ForkHave(j) || s.ctl[p] == ForkFin(j))
    requires s' == Drop(if s.ctl[p].ForkHave? then Freeproc(s, j) else s.(st := s.st[j := RUNNABLE]), PLock(j), p, Free)
    ensures Base(s')
  {
    hide Locks;
    BaseWf(s, c, p);
    assert ChildOf(s.ctl[p]) == j && s.st[j] == USED;
    assert j != p;
    assert ProcOk(s, j);
    HoldsRelock(s, c, p, s.held - {PLock(j)}, {});
    hide Base, ProcOk, CpuOk;
    assert Touches(s, s', p, j);
    hide Touches;
    OtherKeeps(s, s', c, p, j);
  }

  lemma SwtchLocks(s: State, c: nat, p: nat)
    requires Base(s) && Runs(s, c, p) && Wf(s) && s.ctl[p].Sched?
    ensures Locks(SwtchStep(s, c, p))
  {
    hide CtlOk, Forks, ProcOk;
    var s' := SwtchStep(s, c, p);
    forall d, l | 0 <= d < |s'.on| ensures l in HeldBy(s', d) <==> l in s'.held && s'.held[l] == d {
      assert CpuOk(s, d) && CpuOk(s, c);
      assert l in HeldBy(s, d) <==> l in s.held && s.held[l] == d;
    }
  }

  lemma SwtchForks(s: State, c: nat, p: nat)
    requires Wf(s) && Forks(s) && c < |s.on| && p < |s.st| && s.ctl[p].Sched?
    ensures Sizes(SwtchStep(s, c, p)) && Forks(SwtchStep(s, c, p))
  {
    hide CtlOk;
    var s' := SwtchStep(s, c, p);
    forall q | 0 <= q < |s'.ctl| ensures ChildOf(s'.ctl[q]) == ChildOf(s.ctl[q]) {}
    hide ChildOf;
  }

  lemma SwtchKeeps(s: State, c: nat, p: nat)
    requires Base(s) && Runs(s, c, p) && s.ctl[p].Sched?
    ensures Base(SwtchStep(s, c, p))
  {
    var s' := SwtchStep(s, c, p);
    BaseWf(s, c, p);
    assert CtlOk(|s.st|, |s.owner|, s'.ctl[p]);
    hide CtlOk, Locks, Forks;
    SwtchLocks(s, c, p);
    SwtchForks(s, c, p);
    forall q | 0 <= q < |s'.st| ensures ProcOk(s', q) { assert ProcOk(s, q); }
    forall d | 0 <= d < |s'.on| ensures CpuOk(s', d) { assert CpuOk(s, d); }
  }

  /** The lock table after CPU `c` alone changed what it executes. */
  lemma RelockCpu(s: State, s': State, c: nat)
    requires Base(s) && c < |s.on| && Sizes(s') && s'.ctl == s.ctl && |s'.st| == |s.st| && |s'.on| == |s.on|
    requires forall d :: 0 <= d < |s.on| && d != c ==> s'.on[d] == s.on[d]
    requires Relock(s.held, s'.held, c, HeldBy(s, c), HeldBy(s', c))
    ensures Locks(s')
  {
    hide Held, Forks, ProcOk, CtlOk, CpuOk;
    forall d, l | 0 <= d < |s'.on| ensures l in HeldBy(s', d) <==> l in s'.held && s'.held[l] == d {
      assert l in HeldBy(s, d) <==> l in s.held && s.held[l] == d;
      assert l in HeldBy(s, c) <==> l in s.held && s.held[l] == c;
    }
  }

  lemma CpuHolds(s: State, c: nat)
    requires Base(s) && c < |s.on|
    ensures forall l :: l in HeldBy(s, c) ==> l in s.held && s.held[l] == c
    ensures Wf(s) && CpuOk(s, c)
  {
  }

  /** A step of a CPU without a process changes what it executes and at most one process. */
  ghost predicate CpuMoves(s: State, s': State, c: nat, j: nat)
    requires Sizes(s) && c < |s.on| && j < |s.st|
  {
    && Sizes(s') && |s'.st| == |s.st| && |s'.owner| == |s.owner| && |s'.on| == |s.on| && s'.init == s.init
    && s'.ctl == s.ctl && s'.chan == s.chan && s'.parent == s.parent
    && s'.on == s.on[c := s'.on[c]] && s'.cur == s.cur[c := CurOf(s'.on[c])]
    && s'.st == s.st[j := s'.st[j]] && s'.at == s.at[j := s'.at[j]]
    && (s'.st[j] == USED <==> s.st[j] == USED) && (s'.at[j] == s.at[j] || s.at[j] == -1)
    && ExecOk(|s.st|, s'.on[c]) && (s'.on[c].Run? ==> s'.on[c].p == j && s'.at[j] == c)
  }

  lemma CpuKeeps(s: State, s': State, c: nat, j: nat)
    requires Base(s) && c < |s.on| && !s.on[c].Run? && j < |s.st| && CpuMoves(s, s', c, j) && ProcOk(s', j)
    requires Relock(s.held, s'.held, c, HeldBy(s, c), HeldBy(s', c))
    ensures Base(s')
  {
    hide CtlOk, ChildOf, HeldBy, Relock, SavedOk, RunningOk;
    RelockCpu(s, s', c);
    hide Locks;
    forall q | 0 <= q < |s'.st| ensures ProcOk(s', q) { assert ProcOk(s, q); }
    forall d | 0 <= d < |s'.on| ensures CpuOk(s', d) { assert CpuOk(s, d); }
  }

  /** What a CPU without a process knows of the process whose lock it holds. */
  lemma CpuSees(s: State, c: nat, j: nat)
    requires Base(s) && c < |s.on| && !s.on[c].Run? && j < |s.st| && PLock(j) in HeldBy(s, c)
    ensures Wf(s) && ProcOk(s, j) && (s.st[j] != RUNNING ==> s.at[j] == -1)
  {
    hide CtlOk, ChildOf, HeldBy;
    LockedOther(s, c, j);
  }

  lemma AnyProc(s: State, j: nat)
    requires Base(s) && j < |s.st|
    ensures Wf(s) && ProcOk(s, j)
  {
  }

  lemma IdleCpuKeeps(s: State, c: nat, ch: Choice)
    requires Base(s) && c < |s.on| && s.on[c].Idle?
    ensures Base(SchedulerStep(s, c, ch))
  {
    var s' := SchedulerStep(s, c, ch);
    CpuHolds(s, c);
    hide Base, CtlOk, RunningOk, SavedOk;
    AnyProc(s, s.init);
    if s' != s { CpuKeeps(s, s', c, s.init); }
  }

  lemma PickedKeeps(s: State, c: nat, ch: Choice)
    requires Base(s) && c < |s.on| && (s.on[c].Have? || s.on[c].Back?)
    ensures Base(SchedulerStep(s, c, ch))
  {
    var s', j := SchedulerStep(s, c, ch), s.on[c].j;
    CpuHolds(s, c);
    hide Base, CtlOk;
    CpuSees(s, c, j);
    CpuKeeps(s, s', c, j);
  }

  lemma SchedulerKeeps(s: State, c: nat, ch: Choice)
    requires Base(s) && c < |s.on| && !s.on[c].Run? && !AtIdle(s.on[c])
    ensures Base(SchedulerStep(s, c, ch))
  {
    hide Base, SchedulerStep;
    if s.on[c].Idle? { IdleCpuKeeps(s, c, ch); } else { PickedKeeps(s, c, ch); }
  }

  /** A CPU without a process, handling a device interrupt: what changes no process. */
  lemma HandlerKeeps(s: State, c: nat, ch: Choice)
    requires Base(s) && c < |s.on| && (s.on[c].IdleIntr? || s.on[c].IdleWake?)
    ensures Base(IdleStep(s, c, ch))
  {
    var s' := IdleStep(s, c, ch);
    CpuHolds(s, c);
    hide Base, CtlOk, RunningOk, SavedOk;
    AnyProc(s, s.init);
    if s' != s { CpuKeeps(s, s', c, s.init); }
  }

  /** A CPU without a process, handling a device interrupt. */
  lemma IdleKeeps(s: State, c: nat, ch: Choice)
    requires Base(s) && c < |s.on| && AtIdle(s.on[c])
    ensures Base(IdleStep(s, c, ch))
  {
    if s.on[c].IdleWakeHave? {
      var s', j := IdleStep(s, c, ch), s.on[c].j;
      CpuHolds(s, c);
      hide Base, CtlOk;
      CpuSees(s, c, j);
      CpuKeeps(s, s', c, j);
    } else {
      hide Base, IdleStep;
      HandlerKeeps(s, c, ch);
    }
  }

  /** Every step of every CPU keeps the base invariants. */
  lemma StepKeepsBase(s: State, c: nat, ch: Choice)
    requires Base(s) && c < |s.on|
    ensures Base(Step(s, c, ch))
  {
    if s.on[c].Run? {
      ThreadKeepsBase(s, c, s.on[c].p, ch);
    } else if AtIdle(s.on[c]) {
      IdleKeeps(s, c, ch);
    } else {
      SchedulerKeeps(s, c, ch);
    }
  }

  lemma ThreadKeepsBase(s: State, c: nat, p: nat, ch: Choice)
    requires Base(s) && Runs(s, c, p)
    ensures Base(ThreadStep(s, c, p, ch))
  {
    hide Base, FreeStep, SleepStep, SwtchStep, LockStep, WakeStep, ExitStep, WaitStep, KillStep, AllocStep, ForkStep,
         AtLock, AtWake, AtExit, AtWait, AtAlloc, AtFork;
    BaseWf(s, c, p);
    if s.ctl[p].Free? { FreeKeeps(s, c, p, ch); }
    else if s.ctl[p].Sched? { SwtchKeeps(s, c, p); }
    else if AtLock(s.ctl[p]) { LockStepKeeps(s, c, p, ch); }
    else if AtWake(s.ctl[p]) { WakeKeeps(s, c, p); }
    else if AtExit(s.ctl[p]) { ExitKeeps(s, c, p); }
    else if AtWait(s.ctl[p]) { WaitKeeps(s, c, p, ch); }
    else if s.ctl[p].KillHave? { KillKeeps(s, c, p); }
    else if AtAlloc(s.ctl[p]) { AllocKeeps(s, c, p, ch); }
    else if AtFork(s.ctl[p]) { ForkKeeps(s, c, p, ch); }
    else { SleepKeeps(s, c, p, ch); }
  }
}
