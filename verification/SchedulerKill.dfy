/** Killed processes: kkill marks its target for good and leaves it awake. */
module SchedulerKill {
  import opened Scheduler
  import opened SchedulerSafety

  /** CPU `c` is in kkill at process `q`, which has the pid. */
  predicate Hits(s: State, c: nat, q: nat)
    requires Wf(s) && c < |s.on|
  {
    s.on[c].Run? && s.ctl[s.on[c].p] == KillHave(q, true)
  }

  /** The slot of `q` was in use and no longer is. */
  predicate Freed(s: State, s': State, q: nat) { q < |s.st| == |s'.st| && s.st[q] != UNUSED && s'.st[q] == UNUSED }

  /** The process table keeps its size, and `q` is killed afterwards exactly when kkill found it or
      it was killed before and its slot was not freed. */
  ghost predicate Marked(s: State, s': State, q: nat, hit: bool)
    requires q < |s.killed|
  {
    && |s'.st| == |s'.killed| == |s.killed| == |s.st| && |s'.on| == |s.on|
    && (s'.killed[q] <==> hit || (s.killed[q] && !Freed(s, s', q)))
  }

  lemma ReapMarks(s: State, c: nat, p: nat, ch: Choice, q: nat)
    requires Wf(s) && p < |s.st| && q < |s.st| && AtWait(s.ctl[p])
    ensures Marked(s, WaitStep(s, c, p, ch), q, false)
  {
  }

  lemma AllocMarks(s: State, p: nat, ch: Choice, q: nat)
    requires Base(s) && p < |s.st| && q < |s.st|
    ensures Marked(s, AllocStep(s, p, ch), q, false)
  {
    assert ChildOf(s.ctl[p]) != -1 ==> s.st[ChildOf(s.ctl[p])] == USED;
    hide Base;
  }

  lemma StartMarks(s: State, c: nat, p: nat, ch: Choice, q: nat)
    requires Wf(s) && p < |s.st| && q < |s.st|
    ensures Marked(s, FreeStep(s, c, p, ch), q, false)
  {
    hide CtlOk;
  }

  lemma SleepMarks(s: State, c: nat, p: nat, ch: Choice, q: nat)
    requires Wf(s) && p < |s.st| && q < |s.st|
    ensures Marked(s, SleepStep(s, c, p, ch), q, false)
  {
    hide CtlOk, SiteLock, SiteReturn, RestCtl, SiteChan;
  }

  lemma DriverMarks(s: State, c: nat, p: nat, ch: Choice, q: nat)
    requires Wf(s) && p < |s.st| && q < |s.st|
    ensures AtLock(s.ctl[p]) ==> Marked(s, LockStep(s, c, p, ch), q, false)
    ensures Marked(s, ExitStep(s, c, p), q, false)
  {
    hide SiteReturn, WhyReturn, RestCtl;
    assert CtlOk(|s.st|, |s.owner|, s.ctl[p]);
  }

  lemma WakeMarks(s: State, c: nat, p: nat, ch: Choice, q: nat)
    requires Wf(s) && p < |s.st| && q < |s.st|
    ensures Marked(s, WakeStep(s, c, p), q, false) && Marked(s, ForkStep(s, c, p, ch), q, false)
  {
    hide WhyReturn, RestCtl, WhyChan;
    assert CtlOk(|s.st|, |s.owner|, s.ctl[p]);
  }

  lemma SwtchMarks(s: State, c: nat, p: nat, q: nat)
    requires Wf(s) && p < |s.st| && q < |s.st| && c < |s.on|
    ensures s.ctl[p].Sched? ==> Marked(s, SwtchStep(s, c, p), q, false)
    ensures s.ctl[p].KillHave? ==> Marked(s, KillStep(s, p), q, s.ctl[p] == KillHave(q, true))
  {
    assert CtlOk(|s.st|, |s.owner|, s.ctl[p]);
  }

  lemma IdleMarks(s: State, c: nat, ch: Choice, q: nat)
    requires Wf(s) && c < |s.on| && q < |s.st|
    ensures Marked(s, IdleStep(s, c, ch), q, false) && Marked(s, SchedulerStep(s, c, ch), q, false)
  {
  }

  /** A kill: the target is marked, and awake if it was asleep; every other process stays as it was. */
  lemma KillHits(s: State, c: nat, ch: Choice, q: nat)
    requires Wf(s) && c < |s.on| && Hits(s, c, q)
    ensures var s' := Step(s, c, ch);
            && |s'.st| == |s.st| && |s'.killed| == |s.killed| && s'.killed[q]
            && s'.st[q] == (if s.st[q] == SLEEPING then RUNNABLE else s.st[q])
            && (forall z :: 0 <= z < |s.st| && z != q ==> s'.st[z] == s.st[z] && s'.killed[z] == s.killed[z])
  {
    assert CtlOk(|s.st|, |s.owner|, s.ctl[s.on[c].p]);
  }

  lemma ThreadMarks(s: State, c: nat, p: nat, ch: Choice, q: nat)
    requires Base(s) && p < |s.st| && q < |s.st| && c < |s.on|
    ensures Marked(s, ThreadStep(s, c, p, ch), q, s.ctl[p] == KillHave(q, true))
  {
    BaseIsWf(s);
    hide FreeStep, SleepStep, SwtchStep, LockStep, WakeStep, ExitStep, WaitStep, KillStep, AllocStep, ForkStep,
         AtWake, AtExit, AtAlloc, AtFork, Base, Wf, Marked;
    if s.ctl[p].Free? { StartMarks(s, c, p, ch, q); }
    else if s.ctl[p].Sched? { SwtchMarks(s, c, p, q); }
    else if AtLock(s.ctl[p]) { DriverMarks(s, c, p, ch, q); }
    else if AtWake(s.ctl[p]) { WakeMarks(s, c, p, ch, q); }
    else if AtExit(s.ctl[p]) { DriverMarks(s, c, p, ch, q); }
    else if AtWait(s.ctl[p]) { ReapMarks(s, c, p, ch, q); }
    else if s.ctl[p].KillHave? { SwtchMarks(s, c, p, q); }
    else if AtAlloc(s.ctl[p]) { AllocMarks(s, p, ch, q); }
    else if AtFork(s.ctl[p]) { WakeMarks(s, c, p, ch, q); }
    else { SleepMarks(s, c, p, ch, q); }
  }

  /** No step but a kill marks a process, and no step unmarks one but by freeing its slot. */
  lemma StepMarks(s: State, c: nat, ch: Choice, q: nat)
    requires Base(s) && c < |s.on| && q < |s.st|
    ensures Marked(s, Step(s, c, ch), q, Hits(s, c, q))
  {
    hide Base, ThreadStep, IdleStep, SchedulerStep, AtIdle, Marked;
    BaseIsWf(s);
    if s.on[c].Run? { ThreadMarks(s, c, s.on[c].p, ch, q); } else { IdleMarks(s, c, ch, q); }
  }
}
