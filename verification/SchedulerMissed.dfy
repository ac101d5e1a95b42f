/** A kill that kwait does not notice: one that comes between its test of killed and its going to sleep. */
module SchedulerMissed {
  import opened Scheduler
  import opened SchedulerSafety
  import opened SchedulerKill

  /** Process `p` is past the test of killed in kwait and on its way to sleep, or asleep. */
  predicate Resting(s: State, p: nat)
    requires Sizes(s) && p < |s.st|
  {
    || s.ctl[p] == SleepEnter(InWait) || s.ctl[p] == SleepBoth(InWait) || s.ctl[p] == SleepOne(InWait)
    || s.ctl[p] == Sched(AfterSleep(InWait)) || (s.ctl[p] == Resumed(AfterSleep(InWait)) && s.st[p] == SLEEPING)
  }

  /** Nobody starts to rest. */
  ghost predicate NoneRests(s: State, s': State, q: nat)
    requires Sizes(s) && q < |s.st|
  {
    Sizes(s') && |s'.st| == |s.st| && (Resting(s', q) ==> Resting(s, q))
  }

  lemma FreeRests(s: State, c: nat, p: nat, ch: Choice, q: nat)
    requires Wf(s) && p < |s.st| && q < |s.st|
    ensures NoneRests(s, FreeStep(s, c, p, ch), q)
  {
    hide CtlOk;
  }

  /** The step concerns only process `p`. */
  ghost predicate Own(s: State, s': State, p: nat)
    requires Sizes(s)
  {
    && Sizes(s') && |s'.st| == |s.st|
    && forall q :: 0 <= q < |s.st| && q != p ==> s'.ctl[q] == s.ctl[q] && s'.st[q] == s.st[q]
  }

  lemma InterruptedOwn(s: State, c: nat, p: nat, rest: Rest, ch: Choice)
    requires Wf(s) && p < |s.st| && IsIntr(ch)
    ensures var s' := Interrupted(s, c, p, rest, ch);
            Own(s, s', p) && s'.st == s.st && (s' == s || s'.ctl[p].YieldHave? || s'.ctl[p].IntrHave?)
  {
    hide CtlOk;
  }

  lemma SleepOwn(s: State, c: nat, p: nat, ch: Choice)
    requires Wf(s) && p < |s.st|
    ensures Own(s, SleepStep(s, c, p, ch), p)
  {
    hide CtlOk, SiteLock, SiteChan, SiteReturn, RestCtl, Interrupted;
    if s.ctl[p].Reacquire? && IsIntr(ch) { InterruptedOwn(s, c, p, AtReacquire(s.ctl[p].site), ch); }
  }

  lemma ReacquireRests(s: State, c: nat, p: nat, ch: Choice)
    requires Wf(s) && p < |s.st| && s.ctl[p].Reacquire?
    ensures NoneRests(s, SleepStep(s, c, p, ch), p)
  {
    hide CtlOk, SiteLock, Interrupted;
    if IsIntr(ch) { InterruptedOwn(s, c, p, AtReacquire(s.ctl[p].site), ch); }
  }

  lemma ResumedRests(s: State, c: nat, p: nat, ch: Choice)
    requires Wf(s) && p < |s.st| && s.ctl[p].Resumed?
    ensures NoneRests(s, SleepStep(s, c, p, ch), p)
  {
    hide CtlOk;
  }

  lemma SleeperRests(s: State, c: nat, p: nat, ch: Choice)
    requires Wf(s) && p < |s.st|
    ensures NoneRests(s, SleepStep(s, c, p, ch), p)
  {
    hide CtlOk, SiteLock, SiteChan, Interrupted, RestCtl, SiteReturn;
    if s.ctl[p].Reacquire? {
      ReacquireRests(s, c, p, ch);
    } else if s.ctl[p].Resumed? {
      ResumedRests(s, c, p, ch);
    }
  }

  lemma SleepRests(s: State, c: nat, p: nat, ch: Choice, q: nat)
    requires Wf(s) && p < |s.st| && q < |s.st|
    ensures NoneRests(s, SleepStep(s, c, p, ch), q)
  {
    hide CtlOk, SleepStep;
    SleepOwn(s, c, p, ch);
    SleeperRests(s, c, p, ch);
  }

  lemma LockRests(s: State, c: nat, p: nat, ch: Choice, q: nat)
    requires Wf(s) && p < |s.st| && q < |s.st| && AtLock(s.ctl[p])
    ensures NoneRests(s, LockStep(s, c, p, ch), q)
  {
    assert CtlOk(|s.st|, |s.owner|, s.ctl[p]);
  }

  lemma ExitRests(s: State, c: nat, p: nat, q: nat)
    requires Wf(s) && p < |s.st| && q < |s.st|
    ensures NoneRests(s, ExitStep(s, c, p), q)
  {
    hide CtlOk;
  }

  lemma WakeRests(s: State, c: nat, p: nat, q: nat)
    requires Wf(s) && p < |s.st| && q < |s.st|
    ensures NoneRests(s, WakeStep(s, c, p), q)
  {
    hide WhyChan;
    assert CtlOk(|s.st|, |s.owner|, s.ctl[p]);
  }

  lemma ForkRests(s: State, c: nat, p: nat, ch: Choice, q: nat)
    requires Wf(s) && p < |s.st| && q < |s.st|
    ensures NoneRests(s, ForkStep(s, c, p, ch), q)
  {
    assert CtlOk(|s.st|, |s.owner|, s.ctl[p]);
  }

  lemma SwtchRests(s: State, c: nat, p: nat, q: nat)
    requires Wf(s) && p < |s.st| && q < |s.st| && c < |s.on| && s.ctl[p].Sched?
    ensures NoneRests(s, SwtchStep(s, c, p), q)
  {
    hide CtlOk;
  }

  lemma KillRests(s: State, p: nat, q: nat)
    requires Wf(s) && p < |s.st| && q < |s.st| && s.ctl[p].KillHave?
    ensures NoneRests(s, KillStep(s, p), q)
  {
    assert CtlOk(|s.st|, |s.owner|, s.ctl[p]);
  }

  lemma AllocRests(s: State, p: nat, ch: Choice, q: nat)
    requires Wf(s) && p < |s.st| && q < |s.st|
    ensures NoneRests(s, AllocStep(s, p, ch), q)
  {
    assert CtlOk(|s.st|, |s.owner|, s.ctl[p]);
  }

  /** kwait starts to rest only if it is not killed. */
  lemma WaitRests(s: State, c: nat, p: nat, ch: Choice, q: nat)
    requires Wf(s) && p < |s.st| && q < |s.st|
    ensures NoneRests(s, WaitStep(s, c, p, ch), q) || (q == p && !s.killed[p] && s.ctl[p] == WaitKilled)
  {
    assert CtlOk(|s.st|, |s.owner|, s.ctl[p]);
  }

  lemma IdleRests(s: State, c: nat, ch: Choice, q: nat)
    requires Wf(s) && c < |s.on| && q < |s.st|
    ensures NoneRests(s, IdleStep(s, c, ch), q)
  {
    hide CtlOk;
  }

  lemma SchedulerRests(s: State, c: nat, ch: Choice, q: nat)
    requires Wf(s) && c < |s.on| && q < |s.st|
    ensures NoneRests(s, SchedulerStep(s, c, ch), q)
  {
    hide CtlOk;
  }

  lemma ThreadRests(s: State, c: nat, p: nat, ch: Choice, q: nat)
    requires Wf(s) && p < |s.st| && q < |s.st| && c < |s.on|
    ensures NoneRests(s, ThreadStep(s, c, p, ch), q) || (q == p && !s.killed[p] && s.ctl[p] == WaitKilled)
  {
    hide FreeStep, SleepStep, SwtchStep, LockStep, WakeStep, ExitStep, WaitStep, KillStep, AllocStep, ForkStep,
         AtWake, AtExit, AtWait, AtAlloc, AtFork, CtlOk, NoneRests;
    if s.ctl[p].Free? { FreeRests(s, c, p, ch, q); }
    else if s.ctl[p].Sched? { SwtchRests(s, c, p, q); }
    else if AtLock(s.ctl[p]) { LockRests(s, c, p, ch, q); }
    else if AtWake(s.ctl[p]) { WakeRests(s, c, p, q); }
    else if AtExit(s.ctl[p]) { ExitRests(s, c, p, q); }
    else if AtWait(s.ctl[p]) { WaitRests(s, c, p, ch, q); }
    else if s.ctl[p].KillHave? { KillRests(s, p, q); }
    else if AtAlloc(s.ctl[p]) { AllocRests(s, p, ch, q); }
    else if AtFork(s.ctl[p]) { ForkRests(s, c, p, ch, q); }
    else { SleepRests(s, c, p, ch, q); }
  }

  /** A process starts to rest only if it is not killed, and not by a kill. */
  lemma StepRests(s: State, c: nat, ch: Choice, q: nat)
    requires Wf(s) && c < |s.on| && q < |s.st|
    ensures NoneRests(s, Step(s, c, ch), q) || (!s.killed[q] && !Hits(s, c, q))
  {
    hide ThreadStep, IdleStep, SchedulerStep, AtIdle, NoneRests;
    if s.on[c].Run? { ThreadRests(s, c, s.on[c].p, ch, q); }
    else if AtIdle(s.on[c]) { IdleRests(s, c, ch, q); }
    else { SchedulerRests(s, c, ch, q); }
  }

  /** A kill that leaves its target resting finds it before it has its own lock. */
  lemma HitAtEntry(s: State, c: nat, ch: Choice, q: nat)
    requires Base(s) && Wf(s) && c < |s.on| && q < |s.st| && Hits(s, c, q) && Resting(s, q)
    requires Sizes(Step(s, c, ch)) && |Step(s, c, ch).st| == |s.st| && Resting(Step(s, c, ch), q)
    ensures s.ctl[q] == SleepEnter(InWait)
  {
    var p := s.on[c].p;
    HoldsItsLocks(s, c, p);
    assert ProcOk(s, q);
    if s.at[q] != -1 {
      assert PLock(q) in HeldBy(s, c);
      HoldsItsLocks(s, s.at[q], q);
    }
    hide Base;
  }

  lemma RestingUsed(s: State, q: nat)
    requires Base(s) && Wf(s) && q < |s.st| && Resting(s, q)
    ensures s.st[q] != UNUSED
  {
    assert ProcOk(s, q);
    hide Base;
  }
}
