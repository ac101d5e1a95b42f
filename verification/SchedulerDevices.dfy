/** The wakeups of device drivers over every run: nobody that the scan has passed is asleep on the
    channel. */
module SchedulerDevices {
  import opened Scheduler
  import opened SchedulerSafety
  import opened SchedulerLocks

  predicate ByDevice(why: Why, d: nat, x: nat) {
    match why
    case FromDevice(e, y) => e == d && y == x
    case Interrupt(e, y, _) => e == d && y == x
    case _ => false
  }

  /** CPU `c` is in a wakeup of channel `x` of device `d`, by a driver or a handler, on top of a process
      or of none, and has gone past process `i`. */
  predicate Passed(s: State, c: nat, d: nat, x: nat, i: nat)
    requires Sizes(s) && c < |s.on|
  {
    match s.on[c]
    case IdleWake(e, y, j) => e == d && y == x && i < j
    case IdleWakeHave(e, y, j) => e == d && y == x && i < j
    case Run(p) => p < |s.st| && i != p && AtWake(s.ctl[p]) && ByDevice(s.ctl[p].why, d, x) && i < s.ctl[p].j
    case _ => false
  }

  /** Whoever a device's wakeup has passed is not asleep on its channel, nor on the way there. */
  ghost predicate Woken(s: State)
    requires Sizes(s)
  {
    forall c, i, d, x ::
      0 <= c < |s.on| && 0 <= i < |s.st| && Passed(s, c, d, x, i) ==> !Dozes(s, i, OnDevice(d, x))
  }

  ghost predicate DeviceInv(s: State) { Base(s) && Woken(s) }

  /** The device's lock is held all the way through. */
  lemma ScannerHolds(s: State, c: nat, d: nat, x: nat, i: nat)
    requires Base(s) && c < |s.on| && Passed(s, c, d, x, i)
    ensures DevLock(d) in HeldBy(s, c)
  {
  }

  lemma LockSleeps(s: State, c: nat, p: nat, ch: Choice, d: nat, x: nat)
    requires Wf(s) && p < |s.st| && AtLock(s.ctl[p]) && Sizes(LockStep(s, c, p, ch))
    requires |LockStep(s, c, p, ch).st| == |s.st| && Dozes(LockStep(s, c, p, ch), p, OnDevice(d, x))
    ensures s.ctl[p] == DevHave(d)
  {
    hide CtlOk;
  }

  lemma WakeStays(s: State, c: nat, p: nat, d: nat, x: nat)
    requires Wf(s) && p < |s.st| && AtWake(s.ctl[p]) && Sizes(WakeStep(s, c, p)) && |WakeStep(s, c, p).st| == |s.st|
    ensures !Dozes(WakeStep(s, c, p), p, OnDevice(d, x))
  {
    hide CtlOk;
  }

  /** A thread that goes to sleep on a device holds its lock as it does. */
  lemma GoesToSleep(s: State, s': State, c: nat, p: nat, ch: Choice, d: nat, x: nat)
    requires Base(s) && Wf(s) && Runs(s, c, p) && s' == ThreadStep(s, c, p, ch) && Quiet(s, s', p)
    requires Dozes(s', p, OnDevice(d, x)) && !Dozes(s, p, OnDevice(d, x))
    ensures DevLock(d) in HeldBy(s, c)
  {
    hide Base, Quiet, Dozes, FreeStep, SleepStep, SwtchStep, LockStep, WakeStep, ExitStep, WaitStep, KillStep,
         AllocStep, ForkStep;
    ThreadQuiet(s, c, p, ch);
    BaseWf(s, c, p);
    assert Sizes(s') && |s'.st| == |s.st| by { IsQuiet(s, s', p); }
    if AtLock(s.ctl[p]) {
      LockSleeps(s, c, p, ch, d, x);
    } else if AtWake(s.ctl[p]) {
      WakeStays(s, c, p, d, x);
    }
  }

  lemma IsQuiet(s: State, s': State, p: nat)
    requires Sizes(s) && Quiet(s, s', p)
    ensures Sizes(s') && |s'.st| == |s.st|
  {
  }

  /** Nobody else begins to doze. */
  lemma NobodyElse(s: State, s': State, p: nat, q: nat, site: Site)
    requires Sizes(s) && Quiet(s, s', p) && q < |s.st| && q != p && Dozes(s', q, site)
    ensures Dozes(s, q, site)
  {
  }

  lemma FreeOn(s: State, c: nat, p: nat, ch: Choice)
    requires Wf(s) && p < |s.st|
    ensures FreeStep(s, c, p, ch).on == s.on && WakeStep(s, c, p).on == s.on && ExitStep(s, c, p).on == s.on
    ensures AllocStep(s, p, ch).on == s.on && (s.ctl[p].KillHave? ==> KillStep(s, p).on == s.on)
  {
    hide CtlOk;
  }

  lemma LockOn(s: State, c: nat, p: nat, ch: Choice)
    requires Wf(s) && p < |s.st|
    ensures LockStep(s, c, p, ch).on == s.on && ForkStep(s, c, p, ch).on == s.on
  {
    hide CtlOk;
  }

  lemma SleepOn(s: State, c: nat, p: nat, ch: Choice)
    requires Wf(s) && p < |s.st|
    ensures SleepStep(s, c, p, ch).on == s.on && WaitStep(s, c, p, ch).on == s.on
  {
    hide CtlOk;
  }

  /** A step of one CPU's process moves no other CPU. */
  lemma OtherCpus(s: State, c: nat, p: nat, ch: Choice, b: nat)
    requires Wf(s) && p < |s.st| && c < |s.on| && b < |s.on| && b != c
    ensures |ThreadStep(s, c, p, ch).on| == |s.on| && ThreadStep(s, c, p, ch).on[b] == s.on[b]
  {
    FreeOn(s, c, p, ch);
    LockOn(s, c, p, ch);
    SleepOn(s, c, p, ch);
    hide CtlOk, FreeStep, SleepStep, LockStep, WakeStep, ExitStep, WaitStep, KillStep, AllocStep, ForkStep;
  }

  lemma OtherScan(s: State, s': State, p: nat, b: nat, d: nat, x: nat, i: nat)
    requires Sizes(s) && Quiet(s, s', p) && b < |s.on| && b < |s'.on| && s'.on[b] == s.on[b] && s.on[b] != Run(p)
    requires Passed(s', b, d, x, i)
    ensures Passed(s, b, d, x, i)
  {
  }

  /** The scan itself: the process it has just left was woken if it slept on the channel. */
  lemma OwnScan(s: State, s': State, c: nat, p: nat, d: nat, x: nat, i: nat)
    requires DeviceInv(s) && Wf(s) && Runs(s, c, p) && AtWake(s.ctl[p]) && s' == WakeStep(s, c, p)
    requires Quiet(s, s', p) && |s'.on| == |s.on| && i < |s.st| && Passed(s', c, d, x, i)
    ensures !Dozes(s', i, OnDevice(d, x))
  {
    hide Base;
    if Dozes(s', i, OnDevice(d, x)) {
      NobodyElse(s, s', p, i, OnDevice(d, x));
      if !Passed(s, c, d, x, i) {
        Visited(s, s', c, p, d, x);
      }
      assert false;
    }
  }

  lemma Visited(s: State, s': State, c: nat, p: nat, d: nat, x: nat)
    requires Base(s) && Wf(s) && Runs(s, c, p) && s.ctl[p].WakeHave? && s' == WakeStep(s, c, p)
    requires Sizes(s') && |s'.st| == |s.st| && ByDevice(s.ctl[p].why, d, x) && s.ctl[p].j != p
    ensures s.ctl[p].j < |s.st| && !Dozes(s', s.ctl[p].j, OnDevice(d, x))
  {
    var j := s.ctl[p].j;
    BaseWf(s, c, p);
    assert PLock(j) in HeldBy(s, c) && DevLock(d) in HeldBy(s, c);
    LockedOther(s, c, j);
    assert ProcOk(s, j);
    if s.at[j] != -1 {
      NotBoth(s, c, s.at[j], DevLock(d));
      NotBoth(s, c, s.at[j], PLock(j));
    }
  }

  lemma LockScan(s: State, c: nat, p: nat, ch: Choice, d: nat, x: nat, i: nat)
    requires Wf(s) && c < |s.on| && s.on[c] == Run(p) && p < |s.st| && AtLock(s.ctl[p])
    requires Sizes(LockStep(s, c, p, ch)) && LockStep(s, c, p, ch).on == s.on
    ensures !Passed(LockStep(s, c, p, ch), c, d, x, i)
  {
    hide CtlOk;
  }

  /** A thread's step, seen from its own CPU. */
  lemma OwnCpu(s: State, s': State, c: nat, p: nat, ch: Choice, d: nat, x: nat, i: nat)
    requires DeviceInv(s) && Wf(s) && Runs(s, c, p) && s' == ThreadStep(s, c, p, ch) && Quiet(s, s', p)
    requires |s'.on| == |s.on| && i < |s.st| && Passed(s', c, d, x, i)
    ensures !Dozes(s', i, OnDevice(d, x))
  {
    hide Base, Woken, Quiet, Dozes, FreeStep, SleepStep, LockStep, WakeStep, ExitStep, WaitStep, KillStep, AllocStep,
         ForkStep;
    ThreadQuiet(s, c, p, ch);
    FreeOn(s, c, p, ch);
    LockOn(s, c, p, ch);
    SleepOn(s, c, p, ch);
    IsQuiet(s, s', p);
    if AtWake(s.ctl[p]) {
      OwnScan(s, s', c, p, d, x, i);
    } else if AtLock(s.ctl[p]) {
      LockScan(s, c, p, ch, d, x, i);
    }
  }

  /** A thread's step, seen from another CPU: whoever would go to sleep on the channel needs the lock
      that the scanning CPU holds. */
  lemma OtherCpu(s: State, s': State, c: nat, p: nat, ch: Choice, b: nat, d: nat, x: nat, i: nat)
    requires DeviceInv(s) && Wf(s) && Runs(s, c, p) && s' == ThreadStep(s, c, p, ch) && Quiet(s, s', p)
    requires b < |s.on| && b != c && |s'.on| == |s.on| && i < |s.st| && Passed(s', b, d, x, i)
    ensures !Dozes(s', i, OnDevice(d, x))
  {
    assert s.on[b] != Run(p) by { assert CpuOk(s, b) && CpuOk(s, c); }
    hide Base, Quiet, Dozes, ThreadStep;
    OtherCpus(s, c, p, ch, b);
    OtherScan(s, s', p, b, d, x, i);
    IsQuiet(s, s', p);
    if Dozes(s', i, OnDevice(d, x)) {
      if i != p {
        NobodyElse(s, s', p, i, OnDevice(d, x));
      } else {
        GoesToSleep(s, s', c, p, ch, d, x);
        ScannerHolds(s, b, d, x, i);
        NotBoth(s, b, c, DevLock(d));
      }
      assert false;
    }
  }

  lemma ThreadWoken(s: State, c: nat, p: nat, ch: Choice)
    requires DeviceInv(s) && Wf(s) && Runs(s, c, p) && Sizes(ThreadStep(s, c, p, ch))
    ensures Woken(ThreadStep(s, c, p, ch))
  {
    hide DeviceInv, Passed, Dozes, ThreadStep, Quiet;
    IsInv(s);
    var s' := ThreadStep(s, c, p, ch);
    ThreadQuiet(s, c, p, ch);
    IsQuiet(s, s', p);
    CpuCount(s, c, p, ch);
    forall b, i, d, x | 0 <= b < |s'.on| && 0 <= i < |s'.st| && Passed(s', b, d, x, i)
      ensures !Dozes(s', i, OnDevice(d, x))
    {
      if b == c { OwnCpu(s, s', c, p, ch, d, x, i); } else { OtherCpu(s, s', c, p, ch, b, d, x, i); }
    }
  }

  lemma IsInv(s: State)
    requires DeviceInv(s)
    ensures Base(s)
  {
  }

  lemma CpuCount(s: State, c: nat, p: nat, ch: Choice)
    requires Wf(s) && p < |s.st| && c < |s.on|
    ensures |ThreadStep(s, c, p, ch).on| == |s.on|
  {
    FreeOn(s, c, p, ch);
    LockOn(s, c, p, ch);
    SleepOn(s, c, p, ch);
    hide CtlOk, FreeStep, SleepStep, LockStep, WakeStep, ExitStep, WaitStep, KillStep, AllocStep, ForkStep;
  }

  /** The scan of a handler on a CPU without a process. */
  lemma IdleVisited(s: State, c: nat, d: nat, x: nat)
    requires Base(s) && Wf(s) && c < |s.on| && s.on[c].IdleWakeHave? && s.on[c].d == d && s.on[c].x == x
    requires Sizes(IdleStep(s, c, Go)) && |IdleStep(s, c, Go).st| == |s.st|
    ensures s.on[c].j < |s.st| && !Dozes(IdleStep(s, c, Go), s.on[c].j, OnDevice(d, x))
  {
    var j := s.on[c].j;
    assert PLock(j) in HeldBy(s, c) && DevLock(d) in HeldBy(s, c);
    LockedOther(s, c, j);
    assert ProcOk(s, j);
    if s.at[j] != -1 {
      NotBoth(s, c, s.at[j], DevLock(d));
      NotBoth(s, c, s.at[j], PLock(j));
    }
  }

  /** A step that moves no thread and puts nobody to sleep. */
  ghost predicate Asleep(s: State, s': State)
    requires Sizes(s)
  {
    Sizes(s') && |s'.st| == |s.st| && |s'.on| == |s.on| && s'.ctl == s.ctl &&
    forall q :: 0 <= q < |s.st| && s'.st[q] == SLEEPING ==> s.st[q] == SLEEPING
  }

  lemma AsleepDozes(s: State, s': State, q: nat, site: Site)
    requires Sizes(s) && Asleep(s, s') && q < |s.st| && Dozes(s', q, site)
    ensures Dozes(s, q, site)
  {
  }

  lemma IdleWoken(s: State, c: nat, ch: Choice)
    requires DeviceInv(s) && Wf(s) && c < |s.on| && AtIdle(s.on[c]) && Sizes(IdleStep(s, c, ch))
    ensures Woken(IdleStep(s, c, ch))
  {
    var s' := IdleStep(s, c, ch);
    assert Asleep(s, s') && forall b :: 0 <= b < |s.on| && b != c ==> s'.on[b] == s.on[b];
    hide Base, Dozes;
    forall b, i, d, x | 0 <= b < |s'.on| && 0 <= i < |s'.st| && Passed(s', b, d, x, i)
      ensures !Dozes(s', i, OnDevice(d, x))
    {
      if Dozes(s', i, OnDevice(d, x)) {
        AsleepDozes(s, s', i, OnDevice(d, x));
        if !Passed(s, b, d, x, i) {
          IdleVisited(s, c, d, x);
        }
        assert false;
      }
    }
  }

  /** The scheduler loop starts no scan: what it resumes is after a swtch. */
  lemma SchedulerWoken(s: State, c: nat, ch: Choice)
    requires DeviceInv(s) && Wf(s) && c < |s.on| && !s.on[c].Run? && !AtIdle(s.on[c]) && Sizes(SchedulerStep(s, c, ch))
    ensures Woken(SchedulerStep(s, c, ch))
  {
    var s' := SchedulerStep(s, c, ch);
    assert Asleep(s, s') && forall b :: 0 <= b < |s.on| && b != c ==> s'.on[b] == s.on[b];
    if s'.on[c].Run? {
      var j := s'.on[c].p;
      assert s.on[c] == Have(j) && PLock(j) in HeldBy(s, c);
      LockedOther(s, c, j);
      assert ProcOk(s, j) && s.ctl[j].Resumed?;
    }
    hide Base, Dozes;
    forall b, i, d, x | 0 <= b < |s'.on| && 0 <= i < |s'.st| && Passed(s', b, d, x, i)
      ensures !Dozes(s', i, OnDevice(d, x))
    {
      assert b != c && Passed(s, b, d, x, i);
      if Dozes(s', i, OnDevice(d, x)) {
        AsleepDozes(s, s', i, OnDevice(d, x));
        assert false;
      }
    }
  }

  /** Every step of every CPU keeps the invariant. */
  lemma StepKeepsDevices(s: State, c: nat, ch: Choice)
    requires DeviceInv(s) && Wf(s) && c < |s.on|
    ensures DeviceInv(Step(s, c, ch))
  {
    StepKeepsBase(s, c, ch);
    hide Woken, ThreadStep, IdleStep, SchedulerStep;
    if s.on[c].Run? {
      ThreadWoken(s, c, s.on[c].p, ch);
    } else if AtIdle(s.on[c]) {
      IdleWoken(s, c, ch);
    } else {
      SchedulerWoken(s, c, ch);
    }
  }

  /** Nobody that a device's wakeup has passed is SLEEPING on the channel. */
  lemma NobodyLeft(s: State, c: nat, d: nat, x: nat, i: nat)
    requires DeviceInv(s) && c < |s.on| && i < |s.st| && Passed(s, c, d, x, i)
    ensures !(s.st[i] == SLEEPING && s.chan[i] == DevChan(d, x))
  {
    assert ProcOk(s, i) && !Dozes(s, i, OnDevice(d, x));
  }
}
