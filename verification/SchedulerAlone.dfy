/** What each operation does when its CPU goes through it without another's interference: the steps of the
    scheduler system add up to what the operations promise. */
module SchedulerAlone {
  import opened Scheduler
  import opened SchedulerSafety

  /** The state after CPU `c` has moved with these choices and nobody else has moved. */
  ghost function Alone(s: State, c: nat, chs: seq<Choice>): State
    decreases |chs|
  {
    if chs == [] || !Wf(s) || c >= |s.on| then s else Alone(Step(s, c, chs[0]), c, chs[1..])
  }

  /** CPU `c` can get from `s` to `s'` by its own moves. */
  ghost predicate Goes(s: State, c: nat, s': State) { exists chs :: Alone(s, c, chs) == s' }

  lemma {:induction false} AloneThen(s: State, c: nat, a: seq<Choice>, b: seq<Choice>)
    ensures Alone(s, c, a + b) == Alone(Alone(s, c, a), c, b) || !Wf(Alone(s, c, a)) || c >= |Alone(s, c, a).on|
    decreases |a|
  {
    if a == [] {
      assert a + b == b;
    } else if Wf(s) && c < |s.on| {
      assert (a + b)[0] == a[0] && (a + b)[1..] == a[1..] + b;
      AloneThen(Step(s, c, a[0]), c, a[1..], b);
    }
  }

  lemma ByStep(s: State, c: nat, ch: Choice)
    requires Base(s) && c < |s.on|
    ensures Wf(s) && Goes(s, c, Step(s, c, ch)) && Base(Step(s, c, ch))
  {
    hide Step;
    StepKeepsBase(s, c, ch);
    assert Alone(s, c, [ch]) == Step(s, c, ch);
  }

  lemma Then(s: State, c: nat, s1: State, s2: State)
    requires Goes(s, c, s1) && Goes(s1, c, s2) && Wf(s1) && c < |s1.on|
    ensures Goes(s, c, s2)
  {
    hide Alone, Wf;
    var a :| Alone(s, c, a) == s1;
    var b :| Alone(s1, c, b) == s2;
    AloneThen(s, c, a, b);
  }

  /** CPU `c` runs process `p`, and nobody holds a process's lock. */
  ghost predicate Clear(s: State, c: nat, p: nat) {
    Base(s) && Runs(s, c, p) && forall q: nat :: PLock(q) !in s.held
  }

  /** Every sleeper on the channel from `j` on, but `p`, is runnable. */
  ghost function Awake(s: State, p: nat, chan: Chan, j: nat): (st: seq<PState>)
    requires Sizes(s)
    ensures |st| == |s.st|
    ensures forall q :: 0 <= q < |st| ==>
              st[q] == if j <= q && q != p && s.st[q] == SLEEPING && s.chan[q] == chan then RUNNABLE else s.st[q]
  {
    seq(|s.st|, q requires 0 <= q < |s.st| =>
      if j <= q && q != p && s.st[q] == SLEEPING && s.chan[q] == chan then RUNNABLE else s.st[q])
  }

  /** One process of the scan of wakeup. */
  lemma VisitAlone(s: State, c: nat, p: nat, why: Why, j: nat)
    requires Clear(s, c, p) && Wf(s) && s.ctl[p] == Wake(why, j) && j < |s.st| && j != p
    ensures var st := if s.st[j] == SLEEPING && s.chan[j] == WhyChan(why, s.init) then s.st[j := RUNNABLE] else s.st;
            var s' := s.(st := st, ctl := s.ctl[p := Wake(why, j + 1)]);
            Goes(s, c, s') && Base(s')
  {
    hide Base, WhyChan, CtlOk, FreeStep, SleepStep, LockStep, ExitStep, WaitStep, AllocStep, ForkStep, Goes;
    ByStep(s, c, Go);
    var s1 := Step(s, c, Go);
    assert s1 == s.(held := s.held[PLock(j) := c], ctl := s.ctl[p := WakeHave(why, j)]);
    ByStep(s1, c, Go);
    var ctl := Wake(why, j + 1);
    assert s1.held - {PLock(j)} == s.held && s1.ctl[p := ctl] == s.ctl[p := ctl];
    Then(s, c, s1, Step(s1, c, Go));
  }

  /** wakeup wakes everyone on the channel but the caller, and returns. */
  lemma {:induction false} WakeAlone(s: State, c: nat, p: nat, why: Why, j: nat)
    requires Clear(s, c, p) && Wf(s) && s.ctl[p] == Wake(why, j)
    ensures var s' := s.(st := Awake(s, p, WhyChan(why, s.init), j), ctl := s.ctl[p := WhyReturn(why)]);
            Goes(s, c, s') && Base(s')
    decreases |s.st| - j
  {
    hide Base, WhyChan, WhyReturn, CtlOk, FreeStep, SleepStep, LockStep, ExitStep, WaitStep, AllocStep, ForkStep, Goes;
    var chan, ctl := WhyChan(why, s.init), WhyReturn(why);
    if j >= |s.st| {
      ByStep(s, c, Go);
      assert Awake(s, p, chan, j) == s.st;
    } else {
      var s1 := s.(ctl := s.ctl[p := Wake(why, j + 1)]);
      if j == p {
        ByStep(s, c, Go);
      } else {
        VisitAlone(s, c, p, why, j);
        if s.st[j] == SLEEPING && s.chan[j] == chan { s1 := s1.(st := s.st[j := RUNNABLE]); }
      }
      BaseIsWf(s1);
      WakeAlone(s1, c, p, why, j + 1);
      assert Awake(s1, p, chan, j + 1) == Awake(s, p, chan, j) && s1.ctl[p := ctl] == s.ctl[p := ctl];
      Then(s, c, s1, s.(st := Awake(s, p, chan, j), ctl := s.ctl[p := ctl]));
    }
  }

  /** releasesleep: the lock is free, and whoever slept on it is runnable. */
  lemma ReleaseAlone(s: State, c: nat, p: nat, k: nat)
    requires Clear(s, c, p) && Wf(s) && s.ctl[p] == Free && k < |s.owner| && k in s.slk[p] && Inner(k) !in s.held
    ensures Goes(s, c, s.(owner := s.owner[k := -1], slk := s.slk[p := s.slk[p] - {k}],
                          st := Awake(s, p, LockChan(k), 0)))
  {
    hide Base, CtlOk, SleepStep, WakeStep, ExitStep, WaitStep, AllocStep, ForkStep, Goes;
    ByStep(s, c, Release(k));
    var s1 := s.(held := s.held[Inner(k) := c], ctl := s.ctl[p := RelHave(k)]);
    assert Step(s, c, Release(k)) == s1;
    ByStep(s1, c, Go);
    var s2 := s1.(owner := s.owner[k := -1], slk := s.slk[p := s.slk[p] - {k}],
                  ctl := s1.ctl[p := Wake(Releasing(k), 0)]);
    assert Step(s1, c, Go) == s2;
    BaseIsWf(s2);
    WakeAlone(s2, c, p, Releasing(k), 0);
    var s3 := s2.(st := Awake(s2, p, LockChan(k), 0), ctl := s2.ctl[p := RelDone(k)]);
    BaseIsWf(s3);
    ByStep(s3, c, Go);
    var s4 := s.(owner := s2.owner, slk := s2.slk, st := Awake(s, p, LockChan(k), 0));
    assert s3.held - {Inner(k)} == s.held && s3.ctl[p := Free] == s.ctl && s3.st == s4.st;
    assert Step(s3, c, Go) == s4;
    Then(s, c, s1, s2);
    Then(s, c, s2, s3);
    Then(s, c, s3, s4);
  }

  /** What sleep leaves behind. */
  ghost function Asleep(s: State, c: nat, p: nat, site: Site): State
    requires Sizes(s) && p < |s.st| && c < |s.on|
  {
    s.(held := s.held - {SiteLock(site)}, chan := s.chan[p := SiteChan(site, p)], st := s.st[p := SLEEPING],
       ctl := s.ctl[p := Resumed(AfterSleep(site))], at := s.at[p := -1], on := s.on[c := Idle],
       cur := s.cur[c := -1])
  }

  /** sleep: the process is asleep on its channel, the lock it came with is released and the CPU free. */
  lemma SleepAlone(s: State, c: nat, p: nat, site: Site)
    requires Clear(s, c, p) && Wf(s) && s.ctl[p] == SleepEnter(site)
    ensures Goes(s, c, Asleep(s, c, p, site)) && Base(Asleep(s, c, p, site))
  {
    hide Base, CtlOk, SiteLock, SiteChan, FreeStep, LockStep, WakeStep, ExitStep, WaitStep, AllocStep, ForkStep, Goes;
    ByStep(s, c, Go);
    var s1 := s.(held := s.held[PLock(p) := c], ctl := s.ctl[p := SleepBoth(site)]);
    assert Step(s, c, Go) == s1;
    ByStep(s1, c, Go);
    var s2 := s1.(held := s1.held - {SiteLock(site)}, ctl := s1.ctl[p := SleepOne(site)]);
    assert Step(s1, c, Go) == s2;
    ByStep(s2, c, Go);
    var s3 := s2.(chan := s.chan[p := SiteChan(site, p)], st := s.st[p := SLEEPING],
                  ctl := s2.ctl[p := Sched(AfterSleep(site))]);
    assert Step(s2, c, Go) == s3;
    ByStep(s3, c, Go);
    var s4 := s3.(ctl := s3.ctl[p := Resumed(AfterSleep(site))], at := s.at[p := -1], on := s.on[c := Back(p)]);
    assert Step(s3, c, Go) == s4;
    ByStep(s4, c, Go);
    var s5 := Asleep(s, c, p, site);
    assert s4.held - {PLock(p)} == s5.held && s4.ctl == s5.ctl && s4.on[c := Idle] == s5.on;
    assert Step(s4, c, Go) == s5;
    Then(s, c, s1, s2);
    Then(s, c, s2, s3);
    Then(s, c, s3, s4);
    Then(s, c, s4, s5);
  }

  /** acquiresleep: the process has the lock if it was free, and else is asleep on it. */
  lemma AcquireAlone(s: State, c: nat, p: nat, k: nat)
    requires Clear(s, c, p) && Wf(s) && s.ctl[p] == Free && k < |s.owner| && Inner(k) !in s.held
    ensures s.owner[k] == -1 ==> Goes(s, c, s.(owner := s.owner[k := p], slk := s.slk[p := s.slk[p] + {k}]))
    ensures s.owner[k] != -1 ==>
              Goes(s, c, s.(chan := s.chan[p := LockChan(k)], st := s.st[p := SLEEPING],
                            ctl := s.ctl[p := Resumed(AfterSleep(OnSleepLock(k)))], at := s.at[p := -1],
                            on := s.on[c := Idle], cur := s.cur[c := -1]))
  {
    hide Base, CtlOk, SleepStep, WakeStep, ExitStep, WaitStep, AllocStep, ForkStep, Goes;
    ByStep(s, c, Acquire(k));
    var s1 := s.(held := s.held[Inner(k) := c], ctl := s.ctl[p := AcqTest(k)]);
    assert Step(s, c, Acquire(k)) == s1;
    ByStep(s1, c, Go);
    if s.owner[k] == -1 {
      var s2 := s1.(owner := s.owner[k := p], slk := s.slk[p := s.slk[p] + {k}], ctl := s1.ctl[p := AcqDone(k)]);
      assert Step(s1, c, Go) == s2;
      ByStep(s2, c, Go);
      var s3 := s.(owner := s2.owner, slk := s2.slk);
      assert s2.held - {Inner(k)} == s.held && s2.ctl[p := Free] == s.ctl;
      assert Step(s2, c, Go) == s3;
      Then(s, c, s1, s2);
      Then(s, c, s2, s3);
    } else {
      var s2 := s1.(ctl := s1.ctl[p := SleepEnter(OnSleepLock(k))]);
      assert Step(s1, c, Go) == s2;
      BaseIsWf(s2);
      SleepAlone(s2, c, p, OnSleepLock(k));
      var s3 := Asleep(s2, c, p, OnSleepLock(k));
      assert s3.held == s.held && s3.ctl == s.ctl[p := Resumed(AfterSleep(OnSleepLock(k)))];
      Then(s, c, s1, s2);
      Then(s, c, s2, s3);
    }
  }

  /** allocproc takes the slot. */
  lemma SlotAlone(s: State, c: nat, p: nat, j: nat)
    requires Clear(s, c, p) && Wf(s) && s.ctl[p] == Free && j < |s.st| && s.st[j] == UNUSED && j != p
    ensures var s' := s.(held := s.held[PLock(j) := c], st := s.st[j := USED],
                         ctl := s.ctl[j := Resumed(FirstRun)][p := ForkHave(j)]);
            Goes(s, c, s') && Base(s')
  {
    hide Base, CtlOk, SleepStep, LockStep, WakeStep, ExitStep, WaitStep, ForkStep, Goes;
    ByStep(s, c, Fork(j));
    var s1 := s.(held := s.held[PLock(j) := c], ctl := s.ctl[p := AllocHave(j)]);
    assert Step(s, c, Fork(j)) == s1;
    hide FreeStep;
    ByStep(s1, c, Go);
    assert s1.ctl[j := Resumed(FirstRun)][p := ForkHave(j)] == s.ctl[j := Resumed(FirstRun)][p := ForkHave(j)];
    Then(s, c, s1, Step(s1, c, Go));
  }

  /** It is filled in and its lock released. */
  lemma FillAlone(s: State, c: nat, p: nat, j: nat)
    requires Base(s) && Runs(s, c, p) && Wf(s) && s.ctl[p] == ForkHave(j)
    ensures var s' := s.(held := s.held - {PLock(j)}, ctl := s.ctl[p := ForkParent(j)]);
            Goes(s, c, s') && Base(s')
  {
    hide Base, CtlOk, FreeStep, SleepStep, LockStep, WakeStep, ExitStep, WaitStep, ForkStep, Goes;
    ByStep(s, c, Go);
  }

  /** The child gets its parent. */
  lemma ParentAlone(s: State, c: nat, p: nat, j: nat)
    requires Clear(s, c, p) && Wf(s) && s.ctl[p] == ForkParent(j) && WaitLock !in s.held && j < |s.st|
    ensures var s' := s.(parent := s.parent[j := p], ctl := s.ctl[p := ForkRun(j)]);
            Goes(s, c, s') && Base(s')
  {
    hide Base, CtlOk, FreeStep, SleepStep, LockStep, WakeStep, ExitStep, WaitStep, AllocStep, Interrupted, Goes;
    ByStep(s, c, Go);
    var s1 := s.(held := s.held[WaitLock := c], ctl := s.ctl[p := ForkSet(j)]);
    assert Step(s, c, Go) == s1;
    ByStep(s1, c, Go);
    assert s1.held - {WaitLock} == s.held && s1.ctl[p := ForkRun(j)] == s.ctl[p := ForkRun(j)];
    Then(s, c, s1, Step(s1, c, Go));
  }

  /** The child becomes runnable. */
  lemma StartAlone(s: State, c: nat, p: nat, j: nat)
    requires Clear(s, c, p) && Wf(s) && s.ctl[p] == ForkRun(j) && j < |s.st|
    ensures var s' := s.(st := s.st[j := RUNNABLE], ctl := s.ctl[p := Free]);
            Goes(s, c, s') && Base(s')
  {
    hide Base, CtlOk, FreeStep, SleepStep, LockStep, WakeStep, ExitStep, WaitStep, AllocStep, Interrupted, Goes;
    ByStep(s, c, Go);
    var s1 := s.(held := s.held[PLock(j) := c], ctl := s.ctl[p := ForkFin(j)]);
    assert Step(s, c, Go) == s1;
    ByStep(s1, c, Go);
    assert s1.held - {PLock(j)} == s.held && s1.ctl[p := Free] == s.ctl[p := Free];
    Then(s, c, s1, Step(s1, c, Go));
  }

  /** kfork with a free slot: the child is runnable, starts afresh and has its parent. */
  lemma ForkAlone(s: State, c: nat, p: nat, j: nat)
    requires Clear(s, c, p) && Wf(s) && s.ctl[p] == Free && j < |s.st| && s.st[j] == UNUSED && j != p
    requires WaitLock !in s.held
    ensures var s' := s.(st := s.st[j := RUNNABLE], ctl := s.ctl[j := Resumed(FirstRun)], parent := s.parent[j := p]);
            Goes(s, c, s') && Base(s')
  {
    hide Base, CtlOk, Step, Goes;
    SlotAlone(s, c, p, j);
    var s0 := s.(held := s.held[PLock(j) := c], st := s.st[j := USED],
                 ctl := s.ctl[j := Resumed(FirstRun)][p := ForkHave(j)]);
    BaseIsWf(s0);
    FillAlone(s0, c, p, j);
    var s1 := s.(st := s.st[j := USED], ctl := s.ctl[j := Resumed(FirstRun)][p := ForkParent(j)]);
    assert s0.held - {PLock(j)} == s.held && s0.ctl[p := ForkParent(j)] == s1.ctl;
    Then(s, c, s0, s1);
    BaseIsWf(s1);
    ParentAlone(s1, c, p, j);
    var s2 := s1.(parent := s1.parent[j := p], ctl := s1.ctl[p := ForkRun(j)]);
    BaseIsWf(s2);
    StartAlone(s2, c, p, j);
    assert s2.ctl[p := Free] == s.ctl[j := Resumed(FirstRun)] && s2.st[j := RUNNABLE] == s.st[j := RUNNABLE];
    Then(s, c, s1, s2);
    Then(s, c, s2, s2.(st := s2.st[j := RUNNABLE], ctl := s2.ctl[p := Free]));
  }

  /** sched: the context is saved and the CPU back in its scheduler loop, without the process's lock. */
  lemma SchedAlone(s: State, c: nat, p: nat)
    requires Base(s) && Runs(s, c, p) && Wf(s) && s.ctl[p].Sched?
    ensures var s' := s.(ctl := s.ctl[p := Resumed(s.ctl[p].after)], at := s.at[p := -1], on := s.on[c := Idle],
                         cur := s.cur[c := -1], held := s.held - {PLock(p)});
            Goes(s, c, s') && Base(s')
  {
    hide Base, CtlOk, FreeStep, SleepStep, LockStep, WakeStep, ExitStep, WaitStep, AllocStep, ForkStep, Goes;
    ByStep(s, c, Go);
    var s1 := s.(ctl := s.ctl[p := Resumed(s.ctl[p].after)], at := s.at[p := -1], on := s.on[c := Back(p)]);
    assert Step(s, c, Go) == s1;
    ByStep(s1, c, Go);
    assert s1.on[c := Idle] == s.on[c := Idle];
    Then(s, c, s1, Step(s1, c, Go));
  }

  /** A timer interrupt wherever the process holds no lock. */
  lemma TickAlone(s: State, c: nat, p: nat, rest: Rest)
    requires Clear(s, c, p) && Wf(s) && s.ctl[p] == RestCtl(rest)
    ensures var s' := s.(held := s.held[PLock(p) := c], ctl := s.ctl[p := YieldHave(rest)]);
            Goes(s, c, s') && Base(s')
  {
    hide Base, CtlOk, LockStep, WakeStep, ExitStep, WaitStep, AllocStep, Goes;
    ByStep(s, c, Tick);
  }

  /** yield from there: the process is runnable, to go on where it was, and the CPU free. */
  lemma YieldAlone(s: State, c: nat, p: nat, rest: Rest)
    requires Clear(s, c, p) && Wf(s) && s.ctl[p] == RestCtl(rest)
    ensures Goes(s, c, s.(st := s.st[p := RUNNABLE], ctl := s.ctl[p := Resumed(AfterYield(rest))], at := s.at[p := -1],
                          on := s.on[c := Idle], cur := s.cur[c := -1]))
  {
    hide Base, CtlOk, RestCtl, FreeStep, LockStep, WakeStep, ExitStep, WaitStep, AllocStep, ForkStep, Goes;
    TickAlone(s, c, p, rest);
    var s1 := s.(held := s.held[PLock(p) := c], ctl := s.ctl[p := YieldHave(rest)]);
    ByStep(s1, c, Go);
    var s2 := s1.(st := s.st[p := RUNNABLE], ctl := s1.ctl[p := Sched(AfterYield(rest))]);
    assert Step(s1, c, Go) == s2;
    Then(s, c, s1, s2);
    hide Step;
    BaseIsWf(s2);
    SchedAlone(s2, c, p);
    var s3 := s2.(ctl := s2.ctl[p := Resumed(AfterYield(rest))], at := s2.at[p := -1], on := s2.on[c := Idle],
                  cur := s2.cur[c := -1], held := s2.held - {PLock(p)});
    assert s3.held == s.held && s3.ctl == s.ctl[p := Resumed(AfterYield(rest))];
    Then(s, c, s2, s3);
  }

  /** scheduler: a runnable process runs, its CPU's current process, and goes on where it was. */
  lemma DispatchAlone(s: State, c: nat, j: nat)
    requires Base(s) && Wf(s) && c < |s.on| && s.on[c] == Idle && j < |s.st| && s.st[j] == RUNNABLE
    requires PLock(j) !in s.held
    ensures var s' := s.(st := s.st[j := RUNNING], at := s.at[j := c], on := s.on[c := Run(j)], cur := s.cur[c := j],
                         held := s.held[PLock(j) := c]);
            Goes(s, c, s') && Base(s')
  {
    hide Base, CtlOk, ThreadStep, Goes;
    ByStep(s, c, Pick(j));
    var s1 := s.(held := s.held[PLock(j) := c], on := s.on[c := Have(j)]);
    assert Step(s, c, Pick(j)) == s1;
    ByStep(s1, c, Go);
    assert s1.on[c := Run(j)] == s.on[c := Run(j)];
    Then(s, c, s1, Step(s1, c, Go));
  }

  /** A child of `p` among the processes from `i` to `n`. */
  ghost predicate Child(s: State, p: nat, i: nat, n: nat)
    requires Sizes(s)
  {
    exists z :: i <= z < n && z < |s.st| && s.parent[z] == p
  }

  /** kwait takes the lock of a child. */
  lemma HoldAlone(s: State, c: nat, p: nat, i: nat, kids: bool)
    requires Clear(s, c, p) && Wf(s) && s.ctl[p] == WaitScan(i, kids) && i < |s.st| && s.parent[i] == p
    ensures var s' := s.(held := s.held[PLock(i) := c], ctl := s.ctl[p := WaitHave(i, kids)]);
            Goes(s, c, s') && Base(s')
  {
    hide Base, CtlOk, FreeStep, SleepStep, LockStep, WakeStep, ExitStep, AllocStep, ForkStep, Goes;
    ByStep(s, c, Go);
  }

  /** One process of the scan of kwait that is not an exited child. */
  lemma PassAlone(s: State, c: nat, p: nat, i: nat, kids: bool)
    requires Clear(s, c, p) && Wf(s) && s.ctl[p] == WaitScan(i, kids) && i < |s.st|
    requires s.parent[i] == p ==> s.st[i] != ZOMBIE
    ensures var s' := s.(ctl := s.ctl[p := WaitScan(i + 1, kids || s.parent[i] == p)]);
            Goes(s, c, s') && Base(s')
  {
    hide Base, CtlOk, FreeStep, SleepStep, LockStep, WakeStep, ExitStep, AllocStep, ForkStep, Goes;
    if s.parent[i] != p {
      ByStep(s, c, Go);
    } else {
      HoldAlone(s, c, p, i, kids);
      var s1 := s.(held := s.held[PLock(i) := c], ctl := s.ctl[p := WaitHave(i, kids)]);
      ByStep(s1, c, Go);
      assert s1.held - {PLock(i)} == s.held && s1.ctl[p := WaitScan(i + 1, true)] == s.ctl[p := WaitScan(i + 1, true)];
      Then(s, c, s1, Step(s1, c, Go));
    }
  }

  /** The scan of kwait, as long as it meets no exited child. */
  lemma {:induction false} ScanAlone(s: State, c: nat, p: nat, i: nat, n: nat, kids: bool)
    requires Clear(s, c, p) && Wf(s) && s.ctl[p] == WaitScan(i, kids) && i <= n <= |s.st|
    requires forall z :: i <= z < n && s.parent[z] == p ==> s.st[z] != ZOMBIE
    ensures var s' := s.(ctl := s.ctl[p := WaitScan(n, kids || Child(s, p, i, n))]);
            Goes(s, c, s') && Base(s')
    decreases n - i
  {
    hide Base, CtlOk, Step, Goes;
    if i == n {
      assert s.ctl[p := WaitScan(n, kids || Child(s, p, i, n))] == s.ctl;
      StaysPut(s, c);
    } else {
      PassAlone(s, c, p, i, kids);
      var kids' := kids || s.parent[i] == p;
      var s1 := s.(ctl := s.ctl[p := WaitScan(i + 1, kids')]);
      BaseIsWf(s1);
      ScanAlone(s1, c, p, i + 1, n, kids');
      assert kids' || Child(s1, p, i + 1, n) <==> kids || Child(s, p, i, n);
      var ctl := WaitScan(n, kids || Child(s, p, i, n));
      assert s1.ctl[p := ctl] == s.ctl[p := ctl];
      Then(s, c, s1, s.(ctl := s.ctl[p := ctl]));
    }
  }

  lemma StaysPut(s: State, c: nat)
    ensures Goes(s, c, s)
  {
    hide Step, Wf;
    assert Alone(s, c, []) == s;
  }

  /** kwait at an exited child: its slot is free again and the exit counted. */
  lemma ReapAlone(s: State, c: nat, p: nat, z: nat, kids: bool)
    requires Clear(s, c, p) && Wf(s) && s.ctl[p] == WaitScan(z, kids) && z < |s.st| && z != p
    requires s.parent[z] == p && s.st[z] == ZOMBIE
    ensures var s' := s.(st := s.st[z := UNUSED], chan := s.chan[z := NoChan], killed := s.killed[z := false],
                         parent := s.parent[z := -1], reaps := s.reaps[z := s.reaps[z] + 1],
                         ctl := s.ctl[p := WaitRet]);
            Goes(s, c, s') && Base(s')
  {
    hide Base, CtlOk, FreeStep, SleepStep, LockStep, WakeStep, ExitStep, AllocStep, ForkStep, Goes;
    HoldAlone(s, c, p, z, kids);
    var s1 := s.(held := s.held[PLock(z) := c], ctl := s.ctl[p := WaitHave(z, kids)]);
    ByStep(s1, c, Go);
    assert s1.held - {PLock(z)} == s.held && s1.ctl[p := WaitRet] == s.ctl[p := WaitRet];
    Then(s, c, s1, Step(s1, c, Go));
  }

  /** kwait returns. */
  lemma LeaveAlone(s: State, c: nat, p: nat)
    requires Base(s) && Runs(s, c, p) && Wf(s) && s.ctl[p] == WaitRet
    ensures Goes(s, c, s.(held := s.held - {WaitLock}, ctl := s.ctl[p := Free]))
  {
    hide Base, CtlOk, FreeStep, SleepStep, LockStep, WakeStep, ExitStep, AllocStep, ForkStep, Goes;
    ByStep(s, c, Go);
  }

  /** kwait with an exited child: the first one's slot is free again and nothing else has changed. */
  lemma WaitAlone(s: State, c: nat, p: nat, z: nat)
    requires Clear(s, c, p) && Wf(s) && s.ctl[p] == Free && WaitLock !in s.held
    requires z < |s.st| && z != p && s.parent[z] == p && s.st[z] == ZOMBIE
    requires forall y :: 0 <= y < z && s.parent[y] == p ==> s.st[y] != ZOMBIE
    ensures Goes(s, c, s.(st := s.st[z := UNUSED], chan := s.chan[z := NoChan], killed := s.killed[z := false],
                          parent := s.parent[z := -1], reaps := s.reaps[z := s.reaps[z] + 1]))
  {
    hide Base, CtlOk, SleepStep, LockStep, WakeStep, ExitStep, WaitStep, AllocStep, ForkStep, Goes;
    ByStep(s, c, Wait);
    var s1 := s.(held := s.held[WaitLock := c], ctl := s.ctl[p := WaitScan(0, false)]);
    assert Step(s, c, Wait) == s1;
    BaseIsWf(s1);
    ScanAlone(s1, c, p, 0, z, false);
    var kids := Child(s1, p, 0, z);
    var s2 := s1.(ctl := s1.ctl[p := WaitScan(z, kids)]);
    BaseIsWf(s2);
    ReapAlone(s2, c, p, z, kids);
    var s3 := s2.(st := s.st[z := UNUSED], chan := s.chan[z := NoChan], killed := s.killed[z := false],
                  parent := s.parent[z := -1], reaps := s.reaps[z := s.reaps[z] + 1], ctl := s2.ctl[p := WaitRet]);
    BaseIsWf(s3);
    LeaveAlone(s3, c, p);
    assert s3.held - {WaitLock} == s.held && s3.ctl[p := Free] == s.ctl;
    Then(s, c, s1, s2);
    Then(s, c, s2, s3);
    Then(s, c, s3, s3.(held := s.held, ctl := s.ctl));
  }

  /** The test of killed. */
  lemma LookAlone(s: State, c: nat, p: nat)
    requires Clear(s, c, p) && Wf(s) && s.ctl[p] == WaitScan(|s.st|, true)
    ensures var s' := s.(ctl := s.ctl[p := if s.killed[p] then WaitRet else SleepEnter(InWait)]);
            Goes(s, c, s') && Base(s')
  {
    hide Base, CtlOk, FreeStep, SleepStep, LockStep, WakeStep, ExitStep, AllocStep, ForkStep, Goes;
    ByStep(s, c, Go);
    var s1 := s.(held := s.held[PLock(p) := c], ctl := s.ctl[p := WaitKilled]);
    assert Step(s, c, Go) == s1;
    ByStep(s1, c, Go);
    var ctl := if s.killed[p] then WaitRet else SleepEnter(InWait);
    assert s1.held - {PLock(p)} == s.held && s1.ctl[p := ctl] == s.ctl[p := ctl];
    Then(s, c, s1, Step(s1, c, Go));
  }

  /** kwait with children of which none has exited gets past its test of killed, if it is not. */
  lemma TestAlone(s: State, c: nat, p: nat)
    requires Clear(s, c, p) && Wf(s) && s.ctl[p] == Free && WaitLock !in s.held && !s.killed[p]
    requires Child(s, p, 0, |s.st|) && forall y :: 0 <= y < |s.st| && s.parent[y] == p ==> s.st[y] != ZOMBIE
    ensures var s' := s.(held := s.held[WaitLock := c], ctl := s.ctl[p := SleepEnter(InWait)]);
            Goes(s, c, s') && Base(s')
  {
    hide Base, CtlOk, SleepStep, LockStep, WakeStep, ExitStep, AllocStep, ForkStep, Goes;
    ByStep(s, c, Wait);
    var s1 := s.(held := s.held[WaitLock := c], ctl := s.ctl[p := WaitScan(0, false)]);
    assert Step(s, c, Wait) == s1;
    BaseIsWf(s1);
    ScanAlone(s1, c, p, 0, |s.st|, false);
    var s2 := s1.(ctl := s1.ctl[p := WaitScan(|s.st|, true)]);
    assert Child(s1, p, 0, |s.st|);
    BaseIsWf(s2);
    Then(s, c, s1, s2);
    LookAlone(s2, c, p);
    var ctl := SleepEnter(InWait);
    assert s2.ctl[p := ctl] == s.ctl[p := ctl];
    Then(s, c, s2, s2.(ctl := s2.ctl[p := ctl]));
  }

  /** kwait with children of which none has exited, by a process that is not killed: it is asleep on its own
      channel, and wait_lock is free. */
  lemma WaitSleeps(s: State, c: nat, p: nat)
    requires Clear(s, c, p) && Wf(s) && s.ctl[p] == Free && WaitLock !in s.held && !s.killed[p]
    requires Child(s, p, 0, |s.st|) && forall y :: 0 <= y < |s.st| && s.parent[y] == p ==> s.st[y] != ZOMBIE
    ensures Goes(s, c, s.(chan := s.chan[p := ProcChan(p)], st := s.st[p := SLEEPING],
                          ctl := s.ctl[p := Resumed(AfterSleep(InWait))], at := s.at[p := -1],
                          on := s.on[c := Idle], cur := s.cur[c := -1]))
  {
    hide Base, CtlOk, Step, Goes;
    TestAlone(s, c, p);
    var s1 := s.(held := s.held[WaitLock := c], ctl := s.ctl[p := SleepEnter(InWait)]);
    BaseIsWf(s1);
    SleepAlone(s1, c, p, InWait);
    var s2 := Asleep(s1, c, p, InWait);
    assert s2.held == s.held && s2.ctl == s.ctl[p := Resumed(AfterSleep(InWait))];
    Then(s, c, s1, s2);
  }

  /** The children of `p` from `i` on are init's. */
  ghost function Adopted(s: State, p: nat, i: nat): (r: seq<int>)
    requires Sizes(s)
    ensures |r| == |s.parent|
    ensures forall z :: 0 <= z < |r| ==> r[z] == if i <= z && s.parent[z] == p then s.init else s.parent[z]
  {
    seq(|s.parent|, z requires 0 <= z < |s.parent| =>
      if i <= z && s.parent[z] == p then s.init else s.parent[z])
  }

  /** init has been woken if it adopted a child. */
  ghost function InitAwake(s: State, p: nat, i: nat): seq<PState>
    requires Sizes(s)
  {
    if Child(s, p, i, |s.st|) then Awake(s, p, ProcChan(s.init), 0) else s.st
  }

  /** One process of the scan of reparent. */
  lemma AdoptAlone(s: State, c: nat, p: nat, i: nat)
    requires Clear(s, c, p) && Wf(s) && s.ctl[p] == ExitScan(i) && i < |s.st|
    ensures var s' := if s.parent[i] != p then s.(ctl := s.ctl[p := ExitScan(i + 1)])
                      else s.(parent := s.parent[i := s.init], st := Awake(s, p, ProcChan(s.init), 0),
                              ctl := s.ctl[p := ExitScan(i + 1)]);
            Goes(s, c, s') && Base(s')
  {
    hide Base, CtlOk, FreeStep, SleepStep, LockStep, WakeStep, WaitStep, AllocStep, ForkStep, Goes;
    ByStep(s, c, Go);
    if s.parent[i] == p {
      var s1 := s.(parent := s.parent[i := s.init], ctl := s.ctl[p := Wake(Adopting(i), 0)]);
      assert Step(s, c, Go) == s1;
      hide ExitStep;
      BaseIsWf(s1);
      WakeAlone(s1, c, p, Adopting(i), 0);
      var s2 := s1.(st := Awake(s, p, ProcChan(s.init), 0), ctl := s.ctl[p := ExitScan(i + 1)]);
      assert Awake(s1, p, ProcChan(s.init), 0) == s2.st && s1.ctl[p := ExitScan(i + 1)] == s2.ctl;
      Then(s, c, s1, s2);
    }
  }

  /** reparent: every child is init's, which is awake if there was one. */
  lemma {:induction false} ReparentAlone(s: State, c: nat, p: nat, i: nat)
    requires Clear(s, c, p) && Wf(s) && s.ctl[p] == ExitScan(i) && i <= |s.st| && p != s.init
    ensures var s' := s.(parent := Adopted(s, p, i), st := InitAwake(s, p, i), ctl := s.ctl[p := ExitScan(|s.st|)]);
            Goes(s, c, s') && Base(s')
    decreases |s.st| - i
  {
    hide Base, CtlOk, Step, Goes;
    var end := s.(parent := Adopted(s, p, i), st := InitAwake(s, p, i), ctl := s.ctl[p := ExitScan(|s.st|)]);
    if i == |s.st| {
      assert end.parent == s.parent && end.ctl == s.ctl;
      StaysPut(s, c);
    } else {
      AdoptAlone(s, c, p, i);
      var s1 := if s.parent[i] != p then s.(ctl := s.ctl[p := ExitScan(i + 1)])
                else s.(parent := s.parent[i := s.init], st := Awake(s, p, ProcChan(s.init), 0),
                        ctl := s.ctl[p := ExitScan(i + 1)]);
      BaseIsWf(s1);
      ReparentAlone(s1, c, p, i + 1);
      assert Adopted(s1, p, i + 1) == Adopted(s, p, i);
      assert InitAwake(s1, p, i + 1) == InitAwake(s, p, i);
      assert s1.ctl[p := ExitScan(|s.st|)] == end.ctl;
      Then(s, c, s1, end);
    }
  }

  /** What kexit leaves: the children are init's, which is awake if there are any, and so is the parent; the
      process is a zombie and its CPU free. */
  ghost function Exited(s: State, c: nat, p: nat): State
    requires Sizes(s) && p < |s.st| && c < |s.on|
  {
    var parent := Adopted(s, p, 0);
    var chan := if parent[p] < 0 then NoChan else ProcChan(parent[p]);
    var st := Awake(s.(st := InitAwake(s, p, 0)), p, chan, 0);
    s.(parent := parent, st := st[p := ZOMBIE], exits := s.exits[p := s.exits[p] + 1],
       ctl := s.ctl[p := Resumed(Never)], at := s.at[p := -1], on := s.on[c := Idle], cur := s.cur[c := -1])
  }

  /** The parent is woken. */
  lemma TellAlone(s: State, c: nat, p: nat)
    requires Clear(s, c, p) && Wf(s) && s.ctl[p] == ExitScan(|s.st|)
    ensures var chan := if s.parent[p] < 0 then NoChan else ProcChan(s.parent[p]);
            var s' := s.(st := Awake(s, p, chan, 0), ctl := s.ctl[p := ExitLock]);
            Goes(s, c, s') && Base(s')
  {
    hide Base, CtlOk, FreeStep, SleepStep, LockStep, WakeStep, WaitStep, AllocStep, ForkStep, Goes;
    ByStep(s, c, Go);
    var s1 := s.(ctl := s.ctl[p := Wake(ToParent(s.parent[p]), 0)]);
    assert Step(s, c, Go) == s1;
    hide ExitStep;
    BaseIsWf(s1);
    WakeAlone(s1, c, p, ToParent(s.parent[p]), 0);
    var chan := if s.parent[p] < 0 then NoChan else ProcChan(s.parent[p]);
    var s2 := s.(st := Awake(s, p, chan, 0), ctl := s.ctl[p := ExitLock]);
    assert Awake(s1, p, chan, 0) == s2.st && s1.ctl[p := ExitLock] == s2.ctl;
    Then(s, c, s1, s2);
  }

  /** The process is gone. */
  lemma VanishAlone(s: State, c: nat, p: nat)
    requires Clear(s, c, p) && Wf(s) && s.ctl[p] == ExitLock
    ensures Goes(s, c, s.(st := s.st[p := ZOMBIE], exits := s.exits[p := s.exits[p] + 1], held := s.held - {WaitLock},
                          ctl := s.ctl[p := Resumed(Never)], at := s.at[p := -1], on := s.on[c := Idle],
                          cur := s.cur[c := -1]))
  {
    hide Base, CtlOk, FreeStep, SleepStep, LockStep, WakeStep, WaitStep, AllocStep, ForkStep, Goes;
    ByStep(s, c, Go);
    var s1 := s.(held := s.held[PLock(p) := c], ctl := s.ctl[p := ExitZombie]);
    assert Step(s, c, Go) == s1;
    ByStep(s1, c, Go);
    var s2 := s1.(st := s.st[p := ZOMBIE], exits := s.exits[p := s.exits[p] + 1], held := s1.held - {WaitLock},
                  ctl := s1.ctl[p := Sched(Never)]);
    assert Step(s1, c, Go) == s2;
    Then(s, c, s1, s2);
    hide Step;
    BaseIsWf(s2);
    SchedAlone(s2, c, p);
    var s3 := s2.(ctl := s2.ctl[p := Resumed(Never)], at := s2.at[p := -1], on := s2.on[c := Idle],
                  cur := s2.cur[c := -1], held := s2.held - {PLock(p)});
    assert s3.held == s.held - {WaitLock} && s3.ctl == s.ctl[p := Resumed(Never)];
    Then(s, c, s2, s3);
  }

  /** kexit up to where the parent has been woken. */
  lemma LeavingAlone(s: State, c: nat, p: nat)
    requires Clear(s, c, p) && Wf(s) && s.ctl[p] == ExitScan(0) && p != s.init
    ensures var parent := Adopted(s, p, 0);
            var chan := if parent[p] < 0 then NoChan else ProcChan(parent[p]);
            var s' := s.(parent := parent, st := Awake(s.(st := InitAwake(s, p, 0)), p, chan, 0),
                         ctl := s.ctl[p := ExitLock]);
            Goes(s, c, s') && Base(s')
  {
    hide Base, CtlOk, Step, Goes;
    ReparentAlone(s, c, p, 0);
    var s1 := s.(parent := Adopted(s, p, 0), st := InitAwake(s, p, 0), ctl := s.ctl[p := ExitScan(|s.st|)]);
    BaseIsWf(s1);
    TellAlone(s1, c, p);
    var chan := if s1.parent[p] < 0 then NoChan else ProcChan(s1.parent[p]);
    var s2 := s1.(st := Awake(s.(st := InitAwake(s, p, 0)), p, chan, 0), ctl := s.ctl[p := ExitLock]);
    assert s2.st == Awake(s1, p, chan, 0) && s1.ctl[p := ExitLock] == s2.ctl;
    Then(s, c, s1, s2);
  }

  /** kexit of any process but init. */
  lemma ExitAlone(s: State, c: nat, p: nat)
    requires Clear(s, c, p) && Wf(s) && s.ctl[p] == Free && p != s.init && WaitLock !in s.held
    ensures Goes(s, c, Exited(s, c, p))
  {
    hide Base, CtlOk, SleepStep, LockStep, WakeStep, ExitStep, WaitStep, AllocStep, ForkStep, Goes;
    ByStep(s, c, Exit);
    var s1 := s.(held := s.held[WaitLock := c], ctl := s.ctl[p := ExitScan(0)]);
    assert Step(s, c, Exit) == s1;
    hide Step;
    BaseIsWf(s1);
    LeavingAlone(s1, c, p);
    var parent := Adopted(s, p, 0);
    var chan := if parent[p] < 0 then NoChan else ProcChan(parent[p]);
    var s2 := s1.(parent := parent, st := Awake(s.(st := InitAwake(s, p, 0)), p, chan, 0), ctl := s.ctl[p := ExitLock]);
    assert Adopted(s1, p, 0) == parent && InitAwake(s1, p, 0) == InitAwake(s, p, 0);
    assert Awake(s1.(st := InitAwake(s1, p, 0)), p, chan, 0) == s2.st && s1.ctl[p := ExitLock] == s2.ctl;
    BaseIsWf(s2);
    Then(s, c, s1, s2);
    VanishAlone(s2, c, p);
    assert s2.held - {WaitLock} == s.held && s2.ctl[p := Resumed(Never)] == s.ctl[p := Resumed(Never)];
    Then(s, c, s2, Exited(s, c, p));
  }

  /** A process that slept on a sleep lock which is now free is dispatched: it has the lock. */
  lemma ResumeAlone(s: State, c: nat, p: nat, k: nat)
    requires Base(s) && Wf(s) && c < |s.on| && s.on[c] == Idle && p < |s.st| && s.st[p] == RUNNABLE
    requires s.ctl[p] == Resumed(AfterSleep(OnSleepLock(k))) && k < |s.owner| && s.owner[k] == -1
    requires PLock(p) !in s.held && Inner(k) !in s.held
    ensures Goes(s, c, s.(st := s.st[p := RUNNING], at := s.at[p := c], on := s.on[c := Run(p)], cur := s.cur[c := p],
                          chan := s.chan[p := NoChan], ctl := s.ctl[p := Free], owner := s.owner[k := p],
                          slk := s.slk[p := s.slk[p] + {k}]))
  {
    hide Base, CtlOk, Step, Goes;
    DispatchAlone(s, c, p);
    var s1 := s.(st := s.st[p := RUNNING], at := s.at[p := c], on := s.on[c := Run(p)], cur := s.cur[c := p],
                 held := s.held[PLock(p) := c]);
    BaseIsWf(s1);
    BackAlone(s1, c, p, k);
    var s2 := s1.(held := s1.held - {PLock(p)}, chan := s.chan[p := NoChan], ctl := s.ctl[p := Free],
                  owner := s.owner[k := p], slk := s.slk[p := s.slk[p] + {k}]);
    assert s2.held == s.held;
    Then(s, c, s1, s2);
  }

  /** sleep returns into acquiresleep, which takes the lock. */
  lemma BackAlone(s: State, c: nat, p: nat, k: nat)
    requires Base(s) && Runs(s, c, p) && Wf(s) && s.ctl[p] == Resumed(AfterSleep(OnSleepLock(k)))
    requires k < |s.owner| && s.owner[k] == -1 && Inner(k) !in s.held
    ensures Goes(s, c, s.(held := s.held - {PLock(p)}, chan := s.chan[p := NoChan], ctl := s.ctl[p := Free],
                          owner := s.owner[k := p], slk := s.slk[p := s.slk[p] + {k}]))
  {
    hide Base, CtlOk, FreeStep, WakeStep, ExitStep, WaitStep, AllocStep, ForkStep, Interrupted, Goes;
    var site, held := OnSleepLock(k), s.held - {PLock(p)};
    ByStep(s, c, Go);
    var s1 := s.(held := held, chan := s.chan[p := NoChan], ctl := s.ctl[p := Reacquire(site)]);
    assert Step(s, c, Go) == s1;
    ByStep(s1, c, Go);
    var s2 := s1.(held := held[Inner(k) := c], ctl := s1.ctl[p := AcqTest(k)]);
    assert Step(s1, c, Go) == s2;
    Then(s, c, s1, s2);
    hide SleepStep;
    ByStep(s2, c, Go);
    var s3 := s2.(owner := s.owner[k := p], slk := s.slk[p := s.slk[p] + {k}], ctl := s2.ctl[p := AcqDone(k)]);
    assert Step(s2, c, Go) == s3;
    ByStep(s3, c, Go);
    assert s3.held - {Inner(k)} == held && s3.ctl[p := Free] == s.ctl[p := Free];
    Then(s, c, s2, s3);
    Then(s, c, s3, Step(s3, c, Go));
  }

  /** A driver wakes everyone else who sleeps on its channel. */
  lemma DeviceAlone(s: State, c: nat, p: nat, d: nat, x: nat)
    requires Clear(s, c, p) && Wf(s) && s.ctl[p] == Free && DevLock(d) !in s.held
    ensures Goes(s, c, s.(st := Awake(s, p, DevChan(d, x), 0)))
  {
    hide Base, CtlOk, SleepStep, WakeStep, ExitStep, WaitStep, AllocStep, ForkStep, Goes;
    ByStep(s, c, Device(d));
    var s1 := s.(held := s.held[DevLock(d) := c], ctl := s.ctl[p := DevHave(d)]);
    assert Step(s, c, Device(d)) == s1;
    ByStep(s1, c, DoWake(x));
    var s2 := s1.(ctl := s1.ctl[p := Wake(FromDevice(d, x), 0)]);
    assert Step(s1, c, DoWake(x)) == s2;
    BaseIsWf(s2);
    WakeAlone(s2, c, p, FromDevice(d, x), 0);
    var s3 := s2.(st := Awake(s2, p, DevChan(d, x), 0), ctl := s2.ctl[p := DevHave(d)]);
    BaseIsWf(s3);
    ByStep(s3, c, Go);
    var s4 := s.(st := Awake(s, p, DevChan(d, x), 0));
    assert s3.held - {DevLock(d)} == s.held && s3.ctl[p := Free] == s.ctl && s3.st == s4.st;
    assert Step(s3, c, Go) == s4;
    Then(s, c, s1, s2);
    Then(s, c, s2, s3);
    Then(s, c, s3, s4);
  }

  /** One process of the scan of a wakeup on an idle CPU. */
  lemma IdleVisitAlone(s: State, c: nat, d: nat, x: nat, j: nat)
    requires Base(s) && Wf(s) && c < |s.on| && s.on[c] == IdleWake(d, x, j) && j < |s.st| && PLock(j) !in s.held
    ensures var st := if s.st[j] == SLEEPING && s.chan[j] == DevChan(d, x) then s.st[j := RUNNABLE] else s.st;
            var s' := s.(st := st, on := s.on[c := IdleWake(d, x, j + 1)]);
            Goes(s, c, s') && Base(s')
  {
    hide Base, CtlOk, ThreadStep, SchedulerStep, Goes;
    ByStep(s, c, Go);
    var s1 := s.(held := s.held[PLock(j) := c], on := s.on[c := IdleWakeHave(d, x, j)]);
    assert Step(s, c, Go) == s1;
    ByStep(s1, c, Go);
    var on := IdleWake(d, x, j + 1);
    assert s1.held - {PLock(j)} == s.held && s1.on[c := on] == s.on[c := on];
    Then(s, c, s1, Step(s1, c, Go));
  }

  /** The scan of a wakeup on an idle CPU wakes everyone. */
  lemma {:induction false} IdleWakeAlone(s: State, c: nat, d: nat, x: nat, j: nat)
    requires Base(s) && Wf(s) && c < |s.on| && s.on[c] == IdleWake(d, x, j) && forall q: nat :: PLock(q) !in s.held
    ensures var s' := s.(st := Awake(s, |s.st|, DevChan(d, x), j), on := s.on[c := IdleIntr(d)]);
            Goes(s, c, s') && Base(s')
    decreases |s.st| - j
  {
    hide Base, CtlOk, ThreadStep, SchedulerStep, Goes;
    var n := |s.st|;
    if j >= n {
      ByStep(s, c, Go);
      assert Awake(s, n, DevChan(d, x), j) == s.st;
    } else {
      IdleVisitAlone(s, c, d, x, j);
      var st := if s.st[j] == SLEEPING && s.chan[j] == DevChan(d, x) then s.st[j := RUNNABLE] else s.st;
      var s1 := s.(st := st, on := s.on[c := IdleWake(d, x, j + 1)]);
      BaseIsWf(s1);
      IdleWakeAlone(s1, c, d, x, j + 1);
      assert Awake(s1, n, DevChan(d, x), j + 1) == Awake(s, n, DevChan(d, x), j);
      assert s1.on[c := IdleIntr(d)] == s.on[c := IdleIntr(d)];
      Then(s, c, s1, s.(st := Awake(s, n, DevChan(d, x), j), on := s.on[c := IdleIntr(d)]));
    }
  }

  /** A device's interrupt on an idle CPU wakes everyone who sleeps on the channel. */
  lemma InterruptAlone(s: State, c: nat, d: nat, x: nat)
    requires Base(s) && Wf(s) && c < |s.on| && s.on[c] == Idle && DevLock(d) !in s.held
    requires forall q: nat :: PLock(q) !in s.held
    ensures Goes(s, c, s.(st := Awake(s, |s.st|, DevChan(d, x), 0)))
  {
    hide Base, CtlOk, ThreadStep, Goes;
    ByStep(s, c, Device(d));
    var s1 := s.(held := s.held[DevLock(d) := c], on := s.on[c := IdleIntr(d)]);
    assert Step(s, c, Device(d)) == s1;
    ByStep(s1, c, DoWake(x));
    var s2 := s1.(on := s1.on[c := IdleWake(d, x, 0)]);
    assert Step(s1, c, DoWake(x)) == s2;
    BaseIsWf(s2);
    IdleWakeAlone(s2, c, d, x, 0);
    var s3 := s2.(st := Awake(s2, |s.st|, DevChan(d, x), 0), on := s2.on[c := IdleIntr(d)]);
    BaseIsWf(s3);
    ByStep(s3, c, Go);
    var s4 := s.(st := Awake(s, |s.st|, DevChan(d, x), 0));
    assert s3.held - {DevLock(d)} == s.held && s3.on[c := Idle] == s.on && s3.st == s4.st;
    assert Step(s3, c, Go) == s4;
    Then(s, c, s1, s2);
    Then(s, c, s2, s3);
    Then(s, c, s3, s4);
  }

  /** A new process is dispatched for the first time. */
  lemma FirstAlone(s: State, c: nat, p: nat)
    requires Base(s) && Wf(s) && c < |s.on| && s.on[c] == Idle && p < |s.st| && s.st[p] == RUNNABLE
    requires s.ctl[p] == Resumed(FirstRun) && PLock(p) !in s.held
    ensures var s' := s.(st := s.st[p := RUNNING], at := s.at[p := c], on := s.on[c := Run(p)], cur := s.cur[c := p],
                         ctl := s.ctl[p := Free]);
            Goes(s, c, s') && Base(s')
  {
    hide Base, CtlOk, FreeStep, LockStep, WakeStep, ExitStep, WaitStep, AllocStep, ForkStep, Goes;
    DispatchAlone(s, c, p);
    var s1 := s.(st := s.st[p := RUNNING], at := s.at[p := c], on := s.on[c := Run(p)], cur := s.cur[c := p],
                 held := s.held[PLock(p) := c]);
    ByStep(s1, c, Go);
    assert s1.held - {PLock(p)} == s.held;
    Then(s, c, s1, Step(s1, c, Go));
  }

  /** kkill of a process that is not asleep marks it. */
  lemma KillAlone(s: State, c: nat, p: nat, q: nat)
    requires Clear(s, c, p) && Wf(s) && s.ctl[p] == Free && q < |s.st| && s.st[q] != SLEEPING
    ensures Goes(s, c, s.(killed := s.killed[q := true])) && Base(s.(killed := s.killed[q := true]))
  {
    hide Base, CtlOk, SleepStep, LockStep, WakeStep, ExitStep, WaitStep, AllocStep, ForkStep, Goes;
    ByStep(s, c, Kill(q, true));
    var s1 := s.(held := s.held[PLock(q) := c], ctl := s.ctl[p := KillHave(q, true)]);
    assert Step(s, c, Kill(q, true)) == s1;
    ByStep(s1, c, Go);
    assert s1.held - {PLock(q)} == s.held && s1.ctl[p := Free] == s.ctl;
    Then(s, c, s1, Step(s1, c, Go));
  }

  /** A process that yielded is dispatched and goes on where it was. */
  lemma GoOnAlone(s: State, c: nat, p: nat, rest: Rest)
    requires Base(s) && Wf(s) && c < |s.on| && s.on[c] == Idle && p < |s.st| && s.st[p] == RUNNABLE
    requires s.ctl[p] == Resumed(AfterYield(rest)) && PLock(p) !in s.held
    ensures Goes(s, c, s.(st := s.st[p := RUNNING], at := s.at[p := c], on := s.on[c := Run(p)], cur := s.cur[c := p],
                          ctl := s.ctl[p := RestCtl(rest)]))
  {
    hide Base, CtlOk, RestCtl, FreeStep, LockStep, WakeStep, ExitStep, WaitStep, AllocStep, ForkStep, Goes;
    DispatchAlone(s, c, p);
    var s1 := s.(st := s.st[p := RUNNING], at := s.at[p := c], on := s.on[c := Run(p)], cur := s.cur[c := p],
                 held := s.held[PLock(p) := c]);
    ByStep(s1, c, Go);
    assert s1.held - {PLock(p)} == s.held;
    Then(s, c, s1, Step(s1, c, Go));
  }

  /** A device's interrupt in the middle of kfork or before sleep takes its lock again. */
  lemma IntrAlone(s: State, c: nat, p: nat, d: nat, rest: Rest)
    requires Clear(s, c, p) && Wf(s) && s.ctl[p] == RestCtl(rest) && rest != AtFree && DevLock(d) !in s.held
    ensures var s' := s.(held := s.held[DevLock(d) := c], ctl := s.ctl[p := IntrHave(d, rest)]);
            Goes(s, c, s') && Base(s')
  {
    hide Base, CtlOk, FreeStep, LockStep, WakeStep, ExitStep, WaitStep, AllocStep, Goes;
    ByStep(s, c, Device(d));
  }

  /** Its handler wakes everyone else who sleeps on the channel, and the process goes on where it was. */
  lemma HandlerAlone(s: State, c: nat, p: nat, d: nat, x: nat, rest: Rest)
    requires Clear(s, c, p) && Wf(s) && s.ctl[p] == RestCtl(rest) && rest != AtFree && DevLock(d) !in s.held
    ensures Goes(s, c, s.(st := Awake(s, p, DevChan(d, x), 0)))
  {
    hide Base, CtlOk, RestCtl, FreeStep, SleepStep, WakeStep, ExitStep, WaitStep, AllocStep, ForkStep, Goes;
    IntrAlone(s, c, p, d, rest);
    var s1 := s.(held := s.held[DevLock(d) := c], ctl := s.ctl[p := IntrHave(d, rest)]);
    ByStep(s1, c, DoWake(x));
    var s2 := s1.(ctl := s1.ctl[p := Wake(Interrupt(d, x, rest), 0)]);
    assert Step(s1, c, DoWake(x)) == s2;
    BaseIsWf(s2);
    WakeAlone(s2, c, p, Interrupt(d, x, rest), 0);
    var s3 := s2.(st := Awake(s2, p, DevChan(d, x), 0), ctl := s2.ctl[p := IntrHave(d, rest)]);
    BaseIsWf(s3);
    ByStep(s3, c, Go);
    var s4 := s.(st := Awake(s, p, DevChan(d, x), 0));
    assert s3.held - {DevLock(d)} == s.held && s3.ctl[p := RestCtl(rest)] == s.ctl && s3.st == s4.st;
    assert Step(s3, c, Go) == s4;
    Then(s, c, s1, s2);
    Then(s, c, s2, s3);
    Then(s, c, s3, s4);
  }
}
