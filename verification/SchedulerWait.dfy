/** exit and wait over every run: parents never sleep through a child's exit, and nobody's
    parent is dead. */
module SchedulerWait {
  import opened Scheduler
  import opened SchedulerSafety
  import opened SchedulerLocks

  predicate Alive(st: PState) { st == RUNNABLE || st == RUNNING || st == SLEEPING }

  /** The child's parent pointer is already set. */
  predicate ParentSet(ctl: Ctl) {
    match ctl
    case ForkRun(_) => true
    case ForkFin(_) => true
    case YieldHave(rest) => rest.AtForkRun?
    case IntrHave(_, rest) => rest.AtForkRun?
    case Wake(why, _) => why.Interrupt? && why.rest.AtForkRun?
    case WakeHave(why, _) => why.Interrupt? && why.rest.AtForkRun?
    case Sched(after) => after.AfterYield? && after.rest.AtForkRun?
    case Resumed(after) => after.AfterYield? && after.rest.AtForkRun?
    case _ => false
  }

  /** None of the first `n` processes is a child of `p`. */
  ghost predicate NoKids(s: State, p: nat, n: nat)
    requires Sizes(s)
  {
    forall z :: 0 <= z < n && z < |s.parent| ==> s.parent[z] != p
  }

  /** None of the first `n` processes is an exited child of `p`. */
  ghost predicate NoZombies(s: State, p: nat, n: nat)
    requires Sizes(s)
  {
    forall z :: 0 <= z < n && z < |s.parent| && s.parent[z] == p ==> s.st[z] != ZOMBIE
  }

  predicate Exiting(ctl: Ctl) {
    AtExit(ctl) || (AtWake(ctl) && (ctl.why.Adopting? || ctl.why.ToParent?))
  }

  /** How far kexit has got. */
  ghost predicate ExitOk(s: State, p: nat)
    requires Sizes(s) && p < |s.st|
  {
    && (Exiting(s.ctl[p]) ==> p != s.init)
    && (s.ctl[p].ExitScan? ==> NoKids(s, p, s.ctl[p].i))
    && (AtWake(s.ctl[p]) && s.ctl[p].why.Adopting? ==> NoKids(s, p, s.ctl[p].why.i + 1))
    && (AtWake(s.ctl[p]) && s.ctl[p].why.ToParent? ==>
          NoKids(s, p, |s.st|) && s.ctl[p].why.parent == s.parent[p] && 0 <= s.parent[p] < |s.st| &&
          (s.ctl[p].j > s.parent[p] ==> !Dozes(s, s.parent[p], InWait)))
    && (s.ctl[p].ExitLock? || s.ctl[p].ExitZombie? ==>
          NoKids(s, p, |s.st|) && 0 <= s.parent[p] < |s.st| && !Dozes(s, s.parent[p], InWait))
  }

  /** How far kwait has got. */
  ghost predicate WaitOk(s: State, p: nat)
    requires Sizes(s) && p < |s.st|
  {
    && (s.ctl[p].WaitScan? || s.ctl[p].WaitHave? ==>
          NoZombies(s, p, s.ctl[p].i) && (s.ctl[p].kids <==> !NoKids(s, p, s.ctl[p].i)))
    && (s.ctl[p].WaitHave? && s.ctl[p].i < |s.st| ==> s.parent[s.ctl[p].i] == p)
    && (s.ctl[p].WaitKilled? ==> NoZombies(s, p, |s.st|) && !NoKids(s, p, |s.st|))
  }

  /** How far kfork has got. */
  ghost predicate ForkOk(s: State, p: nat)
    requires Sizes(s) && p < |s.st|
  {
    0 <= ChildOf(s.ctl[p]) < |s.st| ==> s.parent[ChildOf(s.ctl[p])] == if ParentSet(s.ctl[p]) then p else -1
  }

  /** A thread in reparent whose wakeup loop has yet to visit init. */
  predicate AdoptsLater(ctl: Ctl, init: nat) {
    AtWake(ctl) && ctl.why.Adopting? && ctl.j <= init
  }

  ghost predicate ParentOk(s: State, z: nat)
    requires Sizes(s) && z < |s.st|
  {
    && -1 <= s.parent[z] < |s.st|
    && (s.parent[z] >= 0 ==> Alive(s.st[s.parent[z]]))
    && (s.st[z] == UNUSED ==> s.parent[z] == -1)
    && (z != s.init && (Alive(s.st[z]) || s.st[z] == ZOMBIE) ==> s.parent[z] != -1)
    && s.exits[z] == s.reaps[z] + (if s.st[z] == ZOMBIE then 1 else 0)
  }

  /** A parent dozing in kwait has no exited child, except init while being woken for it. */
  ghost predicate ZombieOk(s: State, z: nat)
    requires Sizes(s) && z < |s.st|
  {
    s.st[z] == ZOMBIE && 0 <= s.parent[z] < |s.st| && Dozes(s, s.parent[z], InWait) ==>
      s.parent[z] == s.init && exists w :: 0 <= w < |s.ctl| && AdoptsLater(s.ctl[w], s.init)
  }

  ghost predicate ThreadOk(s: State, p: nat)
    requires Sizes(s) && p < |s.st|
  {
    ExitOk(s, p) && WaitOk(s, p) && ForkOk(s, p)
  }

  ghost predicate WaitInv(s: State) {
    && Sizes(s) && Base(s) && Alive(s.st[s.init])
    && (forall z :: 0 <= z < |s.st| ==> ParentOk(s, z))
    && (forall z :: 0 <= z < |s.st| ==> ZombieOk(s, z))
    && (forall p :: 0 <= p < |s.st| ==> ThreadOk(s, p))
  }

  /** A step that changes no parent and exits or reaps nobody. */
  ghost predicate Mild(s: State, s': State)
    requires Sizes(s)
  {
    && Sizes(s') && |s'.st| == |s.st| && s'.init == s.init && s'.exits == s.exits && s'.reaps == s.reaps
    && s'.parent == s.parent
    && forall z :: 0 <= z < |s.st| ==>
         && (s'.st[z] == ZOMBIE <==> s.st[z] == ZOMBIE)
         && (Alive(s.st[z]) ==> Alive(s'.st[z]))
         && (Alive(s'.st[z]) && !Alive(s.st[z]) ==> s.parent[z] != -1)
         && (s'.st[z] == UNUSED ==> s.parent[z] == -1)
  }

  /** A program point that promises something about other processes' parents or states. */
  predicate Watching(ctl: Ctl) {
    Exiting(ctl) || ctl.WaitScan? || ctl.WaitHave? || ctl.WaitKilled?
  }

  /** While one thread holds wait_lock, no other is in the middle of kexit or kwait. */
  lemma SoleWatcher(s: State, c: nat, p: nat, r: nat)
    requires Base(s) && Runs(s, c, p) && WaitLock in Held(p, s.ctl[p]) && r < |s.st| && r != p
    ensures !Watching(s.ctl[r])
  {
    assert ProcOk(s, r);
    assert WaitLock in HeldBy(s, c);
    if s.at[r] != -1 {
      NotBoth(s, c, s.at[r], WaitLock);
    }
  }

  /** A mild step after which the stepping thread's own new point is in order. */
  ghost predicate Gentle(s: State, s': State, p: nat)
    requires Sizes(s) && p < |s.st|
  {
    && Mild(s, s') && ThreadOk(s', p)
    && (AdoptsLater(s.ctl[p], s.init) && !AdoptsLater(s'.ctl[p], s.init) ==> !Dozes(s', s.init, InWait))
    && (Dozes(s', p, InWait) && !Dozes(s, p, InWait) ==> WaitLock in Held(p, s.ctl[p]) && NoZombies(s, p, |s.st|))
  }

  /** Mild steps keep the invariants if the stepping thread's own new point is in order. */
  lemma MildKeeps(s: State, s': State, c: nat, p: nat)
    requires WaitInv(s) && Runs(s, c, p) && Base(s') && Quiet(s, s', p) && Gentle(s, s', p)
    ensures WaitInv(s')
  {
    hide Base, Dozes, Held, ChildOf, ParentSet;
    BaseWf(s, c, p);
    forall z | 0 <= z < |s'.st| ensures ParentOk(s', z) { assert ParentOk(s, z); }
    forall z | 0 <= z < |s'.st| ensures ZombieOk(s', z) { MildZombie(s, s', p, z); }
    forall r | 0 <= r < |s'.st| ensures ThreadOk(s', r) {
      if r != p { MildThread(s, s', c, p, r); }
    }
  }

  lemma MildZombie(s: State, s': State, p: nat, z: nat)
    requires Sizes(s) && p < |s.st| && z < |s.st| && ParentOk(s, z) && ZombieOk(s, z) && Mild(s, s') && Quiet(s, s', p)
    requires AdoptsLater(s.ctl[p], s.init) && !AdoptsLater(s'.ctl[p], s.init) ==> !Dozes(s', s.init, InWait)
    requires Dozes(s', p, InWait) && !Dozes(s, p, InWait) ==> NoZombies(s, p, |s.st|)
    ensures ZombieOk(s', z)
  {
    if s'.st[z] == ZOMBIE && 0 <= s'.parent[z] && Dozes(s', s'.parent[z], InWait) {
      assert Dozes(s, s.parent[z], InWait);
      var w :| 0 <= w < |s.ctl| && AdoptsLater(s.ctl[w], s.init);
      assert AdoptsLater(s'.ctl[w], s'.init);
    }
  }

  lemma MildThread(s: State, s': State, c: nat, p: nat, r: nat)
    requires Base(s) && Runs(s, c, p) && r < |s.st| && r != p && Mild(s, s') && Quiet(s, s', p) && ThreadOk(s, r)
    requires Dozes(s', p, InWait) && !Dozes(s, p, InWait) ==> WaitLock in Held(p, s.ctl[p])
    ensures ThreadOk(s', r)
  {
    assert Sizes(s') && |s'.st| == |s.st|;
    hide Base, Held, ExitOk, WaitOk, ForkOk, Mild, Quiet;
    BaseWf(s, c, p);
    if Dozes(s', p, InWait) && !Dozes(s, p, InWait) {
      SoleWatcher(s, c, p, r);
    }
    MildExit(s, s', p, r);
    MildRest(s, s', p, r);
  }

  lemma MildExit(s: State, s': State, p: nat, r: nat)
    requires Sizes(s) && p < |s.st| && r < |s.st| && r != p && Mild(s, s') && Quiet(s, s', p) && ExitOk(s, r)
    requires Dozes(s', p, InWait) && !Dozes(s, p, InWait) ==> !Watching(s.ctl[r])
    ensures ExitOk(s', r)
  {
    assert s'.ctl[r] == s.ctl[r] || s'.ctl[r] == Resumed(FirstRun);
    if Exiting(s.ctl[r]) && 0 <= s.parent[r] < |s.st| {
      assert Dozes(s', s.parent[r], InWait) ==> Dozes(s, s.parent[r], InWait);
    }
    hide Dozes, Quiet;
  }

  lemma MildRest(s: State, s': State, p: nat, r: nat)
    requires Sizes(s) && p < |s.st| && r < |s.st| && r != p && Mild(s, s') && Quiet(s, s', p)
    requires WaitOk(s, r) && ForkOk(s, r)
    ensures WaitOk(s', r) && ForkOk(s', r)
  {
    assert s'.ctl[r] == s.ctl[r] || s'.ctl[r] == Resumed(FirstRun);
    hide Quiet, ParentSet;
  }

  /** No process state changed, except perhaps `j`'s from one living state to another. */
  lemma LivingMild(s: State, s': State, j: nat)
    requires WaitInv(s) && Sizes(s') && |s'.st| == |s.st| && j < |s.st|
    requires s'.st == s.st || (s'.st == s.st[j := s'.st[j]] && Alive(s.st[j]) && Alive(s'.st[j]))
    requires s'.parent == s.parent && s'.init == s.init && s'.exits == s.exits && s'.reaps == s.reaps
    ensures Mild(s, s')
  {
    hide Base, ZombieOk, ThreadOk;
    forall z | 0 <= z < |s.st| ensures s.st[z] == UNUSED ==> s.parent[z] == -1 { assert ParentOk(s, z); }
  }

  /** The child of a fork changed state, in keeping with its parent pointer. */
  lemma ChildMild(s: State, s': State, j: nat)
    requires WaitInv(s) && Sizes(s') && |s'.st| == |s.st| && j < |s.st|
    requires s'.st == s.st[j := s'.st[j]] && (s.st[j] == USED || s.st[j] == UNUSED) && s'.st[j] != ZOMBIE
    requires Alive(s'.st[j]) ==> s.parent[j] != -1
    requires s'.st[j] == UNUSED ==> s.parent[j] == -1
    requires s'.parent == s.parent && s'.init == s.init && s'.exits == s.exits && s'.reaps == s.reaps
    ensures Mild(s, s')
  {
    hide Base, ZombieOk, ThreadOk;
    forall z | 0 <= z < |s.st| ensures s.st[z] == UNUSED ==> s.parent[z] == -1 { assert ParentOk(s, z); }
  }

  /** A new program point that promises nothing. */
  lemma Boring(s: State, s': State, p: nat)
    requires Sizes(s) && p < |s.st| && Mild(s, s') && !Watching(s'.ctl[p]) && ChildOf(s'.ctl[p]) == -1
    requires !AdoptsLater(s.ctl[p], s.init) && (Dozes(s', p, InWait) ==> Dozes(s, p, InWait))
    ensures Gentle(s, s', p)
  {
    hide Mild, Dozes, Held, ChildOf;
  }

  lemma WaitStarts(s: State, s': State, p: nat)
    requires Sizes(s) && p < |s.st| && Mild(s, s') && s'.ctl[p] == WaitScan(0, false)
    requires !AdoptsLater(s.ctl[p], s.init)
    ensures Gentle(s, s', p)
  {
    hide Mild, Held;
  }

  lemma ExitStarts(s: State, s': State, p: nat)
    requires Sizes(s) && p < |s.st| && Mild(s, s') && s'.ctl[p] == ExitScan(0) && p != s.init
    requires !AdoptsLater(s.ctl[p], s.init)
    ensures Gentle(s, s', p)
  {
    hide Held;
  }

  lemma FreeGentle(s: State, c: nat, p: nat, ch: Choice)
    requires WaitInv(s) && Runs(s, c, p) && s.ctl[p].Free?
    ensures Gentle(s, FreeStep(s, c, p, ch), p)
  {
    hide Base, ParentOk, ZombieOk, ThreadOk, CtlOk, Mild, Gentle;
    BaseWf(s, c, p);
    var s' := FreeStep(s, c, p, ch);
    LivingMild(s, s', p);
    hide WaitInv, RunningOk;
    if s'.ctl[p].WaitScan? { WaitStarts(s, s', p); }
    else if s'.ctl[p].ExitScan? { ExitStarts(s, s', p); }
    else { Boring(s, s', p); }
  }

  lemma SwtchGentle(s: State, c: nat, p: nat)
    requires WaitInv(s) && Runs(s, c, p) && s.ctl[p].Sched?
    ensures Gentle(s, SwtchStep(s, c, p), p)
  {
    hide Base, ParentOk, ZombieOk, CtlOk, Mild;
    BaseWf(s, c, p);
    assert ThreadOk(s, p);
    LivingMild(s, SwtchStep(s, c, p), p);
    hide WaitInv;
  }

  /** The thread goes on to a point that promises what the old one did about its child, and nothing
      else. */
  ghost predicate Passes(s: State, s': State, p: nat) {
    && Sizes(s) && Sizes(s') && |s'.st| == |s.st| && p < |s.st| && !Watching(s'.ctl[p])
    && !AdoptsLater(s.ctl[p], s.init) && (Dozes(s', p, InWait) ==> Dozes(s, p, InWait))
    && ChildOf(s'.ctl[p]) == ChildOf(s.ctl[p])
    && (ChildOf(s.ctl[p]) != -1 ==> ParentSet(s'.ctl[p]) == ParentSet(s.ctl[p]))
  }

  lemma PassesGently(s: State, s': State, p: nat)
    requires Sizes(s) && p < |s.st| && Mild(s, s') && Passes(s, s', p) && ThreadOk(s, p)
    ensures Gentle(s, s', p)
  {
    hide Dozes, Held, ChildOf, ParentSet;
  }

  lemma LockMild(s: State, c: nat, p: nat, ch: Choice)
    requires WaitInv(s) && Runs(s, c, p) && Wf(s) && AtLock(s.ctl[p])
    ensures Mild(s, LockStep(s, c, p, ch))
  {
    hide Base, ParentOk, ZombieOk, ThreadOk, Mild;
    BaseWf(s, c, p);
    LivingMild(s, LockStep(s, c, p, ch), p);
  }

  lemma LockPasses(s: State, c: nat, p: nat, ch: Choice)
    requires Wf(s) && p < |s.st| && AtLock(s.ctl[p])
    ensures Passes(s, LockStep(s, c, p, ch), p)
  {
    hide CtlOk;
  }

  lemma LockGentle(s: State, c: nat, p: nat, ch: Choice)
    requires WaitInv(s) && Runs(s, c, p) && AtLock(s.ctl[p])
    ensures Gentle(s, LockStep(s, c, p, ch), p)
  {
    hide Base, ParentOk, ZombieOk, ThreadOk, Mild, Gentle, Passes, LockStep;
    BaseWf(s, c, p);
    LockMild(s, c, p, ch);
    LockPasses(s, c, p, ch);
    assert ThreadOk(s, p);
    PassesGently(s, LockStep(s, c, p, ch), p);
  }

  lemma KillGentle(s: State, c: nat, p: nat)
    requires WaitInv(s) && Runs(s, c, p) && s.ctl[p].KillHave?
    ensures Gentle(s, KillStep(s, p), p)
  {
    hide Base, ParentOk, ZombieOk, ThreadOk, Mild;
    BaseWf(s, c, p);
    LivingMild(s, KillStep(s, p), s.ctl[p].j);
    hide WaitInv, RunningOk;
    Boring(s, KillStep(s, p), p);
  }

  lemma InterruptedPasses(s: State, c: nat, p: nat, rest: Rest, ch: Choice)
    requires Wf(s) && p < |s.st| && s.ctl[p] == RestCtl(rest) && IsIntr(ch)
    ensures Passes(s, Interrupted(s, c, p, rest, ch), p)
  {
    hide CtlOk;
  }

  lemma InterruptedGentle(s: State, c: nat, p: nat, rest: Rest, ch: Choice)
    requires WaitInv(s) && Runs(s, c, p) && Wf(s) && s.ctl[p] == RestCtl(rest) && IsIntr(ch)
    ensures Gentle(s, Interrupted(s, c, p, rest, ch), p)
  {
    hide Base, ParentOk, ZombieOk, CtlOk, Mild, ThreadOk, Gentle, Passes;
    LivingMild(s, Interrupted(s, c, p, rest, ch), p);
    InterruptedPasses(s, c, p, rest, ch);
    assert ThreadOk(s, p);
    PassesGently(s, Interrupted(s, c, p, rest, ch), p);
  }

  /** A thread in sleep, sched or yield. */
  predicate AtSleep(ctl: Ctl) {
    !(ctl.Free? || ctl.Sched? || AtLock(ctl) || AtWake(ctl) || AtExit(ctl)
      || AtWait(ctl) || ctl.KillHave? || AtAlloc(ctl) || AtFork(ctl))
  }

  lemma SleepMild(s: State, c: nat, p: nat, ch: Choice)
    requires WaitInv(s) && Runs(s, c, p) && Wf(s) && AtSleep(s.ctl[p]) && !(s.ctl[p].Reacquire? && IsIntr(ch))
    ensures Mild(s, SleepStep(s, c, p, ch))
  {
    hide Base, ParentOk, ZombieOk, ThreadOk, Mild, CtlOk, Interrupted;
    BaseWf(s, c, p);
    LivingMild(s, SleepStep(s, c, p, ch), p);
  }

  lemma SleepPasses(s: State, c: nat, p: nat, ch: Choice)
    requires Wf(s) && p < |s.st| && AtSleep(s.ctl[p]) && !s.ctl[p].Reacquire?
    ensures Passes(s, SleepStep(s, c, p, ch), p)
  {
    hide CtlOk, Interrupted, SiteReturn;
  }

  lemma ReacquirePasses(s: State, c: nat, p: nat, ch: Choice)
    requires Wf(s) && p < |s.st| && s.ctl[p].Reacquire? && !IsIntr(ch)
    ensures var s' := SleepStep(s, c, p, ch);
            Passes(s, s', p) || (s'.ctl[p] == WaitScan(0, false) && !AdoptsLater(s.ctl[p], s.init))
  {
    hide CtlOk, Interrupted, RestCtl;
  }

  lemma SleepGentle(s: State, c: nat, p: nat, ch: Choice)
    requires WaitInv(s) && Runs(s, c, p) && AtSleep(s.ctl[p])
    ensures Gentle(s, SleepStep(s, c, p, ch), p)
  {
    hide Base, ParentOk, ZombieOk, CtlOk, Mild, ThreadOk, Gentle, AtSleep, Passes, Interrupted;
    BaseWf(s, c, p);
    if s.ctl[p].Reacquire? && IsIntr(ch) {
      InterruptedGentle(s, c, p, AtReacquire(s.ctl[p].site), ch);
    } else {
      hide SleepStep;
      var s' := SleepStep(s, c, p, ch);
      SleepMild(s, c, p, ch);
      if s.ctl[p].Reacquire? {
        ReacquirePasses(s, c, p, ch);
      } else {
        SleepPasses(s, c, p, ch);
      }
      assert ThreadOk(s, p);
      if Passes(s, s', p) { PassesGently(s, s', p); } else { WaitStarts(s, s', p); }
    }
  }

  lemma WaitGentle(s: State, c: nat, p: nat, ch: Choice)
    requires WaitInv(s) && Runs(s, c, p) && AtWait(s.ctl[p])
    requires s.ctl[p].WaitHave? && s.ctl[p].i < |s.st| && s.st[s.ctl[p].i] == ZOMBIE ==> ch.Fail?
    ensures Gentle(s, WaitStep(s, c, p, ch), p)
  {
    hide Base, ParentOk, ZombieOk, Mild, Gentle, ThreadOk;
    BaseWf(s, c, p);
    var s' := WaitStep(s, c, p, ch);
    LivingMild(s, s', p);
    assert ThreadOk(s, p);
    hide WaitInv, RunningOk;
    if s'.ctl[p].Free? || s'.ctl[p].WaitRet? {
      Boring(s, s', p);
    } else {
      WaitAdvances(s, s', c, p, ch);
    }
  }

  /** On to another point of kwait. */
  lemma WaitPoint(s: State, s': State, p: nat)
    requires Sizes(s) && p < |s.st| && Mild(s, s') && WaitOk(s', p) && !AdoptsLater(s.ctl[p], s.init)
    requires s'.ctl[p].WaitScan? || s'.ctl[p].WaitHave? || s'.ctl[p].WaitKilled?
    ensures Gentle(s, s', p)
  {
    hide Mild, WaitOk, Held;
  }

  /** The end of the scan, with nothing found. */
  lemma WaitDozes(s: State, c: nat, p: nat, ch: Choice)
    requires Wf(s) && p < |s.st| && s.ctl[p].WaitKilled? && !s.killed[p] && WaitOk(s, p)
    requires Mild(s, WaitStep(s, c, p, ch))
    ensures Gentle(s, WaitStep(s, c, p, ch), p)
  {
    hide Mild, CtlOk;
  }

  lemma WaitMoves(s: State, c: nat, p: nat, ch: Choice)
    requires Wf(s) && p < |s.st| && (s.ctl[p].WaitScan? || s.ctl[p].WaitHave?) && WaitOk(s, p)
    requires !WaitStep(s, c, p, ch).ctl[p].WaitRet?
    ensures WaitOk(WaitStep(s, c, p, ch), p)
  {
    assert s.ctl[p].WaitHave? ==> s.ctl[p].i < |s.st|;
    hide CtlOk;
  }

  lemma WaitAdvances(s: State, s': State, c: nat, p: nat, ch: Choice)
    requires Wf(s) && p < |s.st| && AtWait(s.ctl[p]) && ThreadOk(s, p) && s' == WaitStep(s, c, p, ch) && Mild(s, s')
    requires !(s'.ctl[p].Free? || s'.ctl[p].WaitRet?)
    ensures Gentle(s, s', p)
  {
    hide Mild, CtlOk, WaitOk, Gentle;
    if s.ctl[p].WaitKilled? {
      WaitDozes(s, c, p, ch);
    } else {
      WaitMoves(s, c, p, ch);
      WaitPoint(s, s', p);
    }
  }

  lemma ExitPoint(s: State, c: nat, p: nat)
    requires Wf(s) && p < |s.st| && AtExit(s.ctl[p]) && !s.ctl[p].ExitZombie? && ThreadOk(s, p) && ParentOk(s, p)
    requires s.ctl[p].ExitScan? && s.ctl[p].i < |s.st| ==> s.parent[s.ctl[p].i] != p
    requires Mild(s, ExitStep(s, c, p)) && Alive(s.st[p])
    ensures Gentle(s, ExitStep(s, c, p), p)
  {
    hide CtlOk, Mild;
  }

  lemma ExitGentle(s: State, c: nat, p: nat)
    requires WaitInv(s) && Runs(s, c, p) && AtExit(s.ctl[p]) && !s.ctl[p].ExitZombie?
    requires s.ctl[p].ExitScan? && s.ctl[p].i < |s.st| ==> s.parent[s.ctl[p].i] != p
    ensures Gentle(s, ExitStep(s, c, p), p)
  {
    hide Base, ZombieOk, CtlOk, Mild, Gentle, ThreadOk, ParentOk;
    BaseWf(s, c, p);
    assert ThreadOk(s, p) && ParentOk(s, p);
    LivingMild(s, ExitStep(s, c, p), p);
    ExitPoint(s, c, p);
  }

  lemma ForkedChild(s: State, c: nat, p: nat)
    requires WaitInv(s) && Runs(s, c, p) && ChildOf(s.ctl[p]) != -1
    ensures 0 <= ChildOf(s.ctl[p]) < |s.st| && s.st[ChildOf(s.ctl[p])] == USED
    ensures s.parent[ChildOf(s.ctl[p])] == if ParentSet(s.ctl[p]) then p else -1
  {
    hide Locks, CtlOk, ZombieOk;
    assert ThreadOk(s, p);
  }

  lemma AllocGentle(s: State, c: nat, p: nat, ch: Choice)
    requires WaitInv(s) && Runs(s, c, p) && AtAlloc(s.ctl[p])
    ensures Gentle(s, AllocStep(s, p, ch), p)
  {
    hide Base, ZombieOk, ThreadOk, Mild, ParentOk, Gentle, RunningOk, Dozes;
    BaseWf(s, c, p);
    if s.ctl[p].AllocHave? { SlotGentle(s, c, p, ch); } else { HaveGentle(s, c, p, ch); }
  }

  lemma SlotGentle(s: State, c: nat, p: nat, ch: Choice)
    requires WaitInv(s) && Runs(s, c, p) && s.ctl[p].AllocHave? && Wf(s)
    ensures Gentle(s, AllocStep(s, p, ch), p)
  {
    hide Base, ZombieOk, ThreadOk, Mild;
    BaseWf(s, c, p);
    var s', j := AllocStep(s, p, ch), s.ctl[p].j;
    assert ParentOk(s, j);
    if s.st[j] == UNUSED {
      ChildMild(s, s', j);
      hide WaitInv, ParentOk, RunningOk;
      KeepsChild(s, s', p);
    } else {
      LivingMild(s, s', p);
      hide WaitInv, ParentOk, RunningOk;
      Boring(s, s', p);
    }
  }

  lemma HaveGentle(s: State, c: nat, p: nat, ch: Choice)
    requires WaitInv(s) && Runs(s, c, p) && s.ctl[p].ForkHave? && Wf(s)
    ensures Gentle(s, AllocStep(s, p, ch), p)
  {
    hide Base, ZombieOk, ThreadOk, Mild, ParentOk;
    BaseWf(s, c, p);
    var s', j := AllocStep(s, p, ch), s.ctl[p].j;
    ForkedChild(s, c, p);
    if ch.Fail? {
      assert s'.parent == s.parent;
      ChildMild(s, s', j);
      hide WaitInv, RunningOk;
      Boring(s, s', p);
    } else {
      LivingMild(s, s', p);
      hide WaitInv, RunningOk;
      KeepsChild(s, s', p);
    }
  }

  lemma KeepsChild(s: State, s': State, p: nat)
    requires Sizes(s) && p < |s.st| && Mild(s, s') && !Watching(s'.ctl[p])
    requires 0 <= ChildOf(s'.ctl[p]) < |s.st|
    requires s.parent[ChildOf(s'.ctl[p])] == if ParentSet(s'.ctl[p]) then p else -1
    requires !AdoptsLater(s.ctl[p], s.init) && !Dozes(s', p, InWait)
    ensures Gentle(s, s', p)
  {
    hide Dozes, Held, ChildOf, ParentSet;
  }

  lemma ForkFinGentle(s: State, c: nat, p: nat, ch: Choice)
    requires WaitInv(s) && Runs(s, c, p) && Wf(s) && s.ctl[p].ForkFin?
    ensures Gentle(s, ForkStep(s, c, p, ch), p)
  {
    hide Base, ParentOk, ZombieOk, ThreadOk, Mild, Gentle;
    BaseWf(s, c, p);
    var s', j := ForkStep(s, c, p, ch), s.ctl[p].j;
    ForkedChild(s, c, p);
    ChildMild(s, s', j);
    hide WaitInv, RunningOk;
    Boring(s, s', p);
  }

  lemma ForkPasses(s: State, c: nat, p: nat, ch: Choice)
    requires Wf(s) && p < |s.st| && (s.ctl[p].ForkParent? || s.ctl[p].ForkRun?) && !IsIntr(ch)
    ensures Passes(s, ForkStep(s, c, p, ch), p)
  {
    hide CtlOk, Interrupted;
  }

  lemma ForkGentle(s: State, c: nat, p: nat, ch: Choice)
    requires WaitInv(s) && Runs(s, c, p) && AtFork(s.ctl[p]) && !s.ctl[p].ForkSet?
    ensures Gentle(s, ForkStep(s, c, p, ch), p)
  {
    hide Base, ParentOk, ZombieOk, ThreadOk, Mild, Gentle, Passes, CtlOk;
    BaseWf(s, c, p);
    if s.ctl[p].ForkFin? {
      ForkFinGentle(s, c, p, ch);
    } else if IsIntr(ch) {
      var j := s.ctl[p].j;
      InterruptedGentle(s, c, p, if s.ctl[p].ForkRun? then AtForkRun(j) else AtForkParent(j), ch);
    } else {
      LivingMild(s, ForkStep(s, c, p, ch), p);
      ForkPasses(s, c, p, ch);
      assert ThreadOk(s, p);
      PassesGently(s, ForkStep(s, c, p, ch), p);
    }
  }

  /** The loop's visit to `j` on behalf of kexit ends j's doze in kwait. */
  lemma VisitWakes(s: State, c: nat, p: nat, j: nat)
    requires Base(s) && Runs(s, c, p) && s.ctl[p].WakeHave? && s.ctl[p].j == j && j != p
    requires WhyLock(s.ctl[p].why) == WaitLock && WhyChan(s.ctl[p].why, s.init) == ProcChan(j)
    ensures j < |s.st| && !Dozes(WakeStep(s, c, p), j, InWait)
  {
    BaseWf(s, c, p);
    assert PLock(j) in HeldBy(s, c) && WaitLock in HeldBy(s, c);
    LockedOther(s, c, j);
    assert ProcOk(s, j);
    if s.at[j] != -1 {
      NotBoth(s, c, s.at[j], WaitLock);
      NotBoth(s, c, s.at[j], PLock(j));
    }
  }

  /** Nobody can be going to sleep in kwait, or come to, while wait_lock is taken. */
  lemma WakeDozes(s: State, c: nat, p: nat, x: nat)
    requires Sizes(s) && Wf(s) && p < |s.st| && x < |s.st| && AtWake(s.ctl[p])
    ensures Dozes(WakeStep(s, c, p), x, InWait) ==> Dozes(s, x, InWait)
    ensures !Dozes(WakeStep(s, c, p), p, InWait)
  {
  }

  lemma WakeGentle(s: State, c: nat, p: nat)
    requires WaitInv(s) && Runs(s, c, p) && AtWake(s.ctl[p])
    ensures Gentle(s, WakeStep(s, c, p), p)
  {
    hide Base, ParentOk, ZombieOk, Mild, RunningOk;
    BaseWf(s, c, p);
    var s', j := WakeStep(s, c, p), s.ctl[p].j;
    assert ThreadOk(s, p);
    WakeMild(s, c, p);
    WakeDozes(s, c, p, s.init);
    hide WaitInv, Dozes;
    assert AdoptsLater(s.ctl[p], s.init) && !AdoptsLater(s'.ctl[p], s.init) ==> !Dozes(s', s.init, InWait) by {
      if AdoptsLater(s.ctl[p], s.init) && !AdoptsLater(s'.ctl[p], s.init) { VisitWakes(s, c, p, j); }
    }
    if s.ctl[p].why.ToParent? {
      WakeDozes(s, c, p, s.parent[p]);
      assert s.parent[p] != p;
      if s.ctl[p].WakeHave? && j == s.parent[p] { VisitWakes(s, c, p, j); }
    }
    assert ThreadOk(s', p) by { WakeThread(s, c, p); }
  }

  lemma WakeMild(s: State, c: nat, p: nat)
    requires WaitInv(s) && Runs(s, c, p) && AtWake(s.ctl[p]) && Wf(s)
    ensures Mild(s, WakeStep(s, c, p))
  {
    hide Base, ParentOk, ZombieOk, Mild, ThreadOk;
    BaseWf(s, c, p);
    LivingMild(s, WakeStep(s, c, p), if s.ctl[p].WakeHave? then s.ctl[p].j else p);
  }

  lemma WakeThread(s: State, c: nat, p: nat)
    requires Wf(s) && p < |s.st| && AtWake(s.ctl[p]) && ThreadOk(s, p)
    requires s.ctl[p].why.ToParent? && s.ctl[p].WakeHave? && s.ctl[p].j == s.parent[p] ==>
               !Dozes(WakeStep(s, c, p), s.parent[p], InWait)
    ensures ThreadOk(WakeStep(s, c, p), p)
  {
    hide ExitOk;
    WakeExit(s, c, p);
    WakeFork(s, c, p);
  }

  lemma WakeFork(s: State, c: nat, p: nat)
    requires Wf(s) && p < |s.st| && AtWake(s.ctl[p]) && ForkOk(s, p)
    ensures ForkOk(WakeStep(s, c, p), p) && WaitOk(WakeStep(s, c, p), p)
  {
    assert s.ctl[p].WakeHave? ==> s.ctl[p].j < |s.st|;
    hide CtlOk;
  }

  lemma WakeExit(s: State, c: nat, p: nat)
    requires Wf(s) && p < |s.st| && AtWake(s.ctl[p]) && ExitOk(s, p)
    requires s.ctl[p].why.ToParent? && s.ctl[p].WakeHave? && s.ctl[p].j == s.parent[p] ==>
               !Dozes(WakeStep(s, c, p), s.parent[p], InWait)
    ensures ExitOk(WakeStep(s, c, p), p)
  {
    assert s.ctl[p].WakeHave? ==> s.ctl[p].j < |s.st|;
    hide CtlOk;
    if s.ctl[p].why.ToParent? {
      WakeDozes(s, c, p, s.parent[p]);
    }
    hide Dozes;
  }

  /** With wait_lock held by `p`, another thread only has its fork to keep track of. */
  lemma OnlyForks(s: State, s': State, c: nat, p: nat, r: nat)
    requires Base(s) && Runs(s, c, p) && WaitLock in Held(p, s.ctl[p]) && r < |s.st| && r != p
    requires Sizes(s') && |s'.st| == |s.st| && s'.ctl[r] == s.ctl[r] && ForkOk(s', r)
    ensures ThreadOk(s', r)
  {
    hide Base, Held, ChildOf, ParentSet;
    SoleWatcher(s, c, p, r);
  }

  /** reparent hands child `i` to init. */
  lemma AdoptKeeps(s: State, c: nat, p: nat, i: nat)
    requires WaitInv(s) && Runs(s, c, p) && s.ctl[p] == ExitScan(i) && i < |s.st| && s.parent[i] == p
    requires Base(Move(s.(parent := s.parent[i := s.init]), p, Wake(Adopting(i), 0)))
    ensures WaitInv(Move(s.(parent := s.parent[i := s.init]), p, Wake(Adopting(i), 0)))
  {
    hide Base, ChildOf, ParentSet, Dozes;
    BaseWf(s, c, p);
    var s' := Move(s.(parent := s.parent[i := s.init]), p, Wake(Adopting(i), 0));
    assert ThreadOk(s, p);
    forall z | 0 <= z < |s'.st| ensures ParentOk(s', z) { assert ParentOk(s, z); }
    forall z | 0 <= z < |s'.st| ensures ZombieOk(s', z) {
      assert ZombieOk(s, z) && AdoptsLater(s'.ctl[p], s'.init);
      SameDoze(s, s', p, s'.parent[z]);
    }
    forall r | 0 <= r < |s'.st| ensures ThreadOk(s', r) {
      assert ThreadOk(s, r);
      if r != p { OnlyForks(s, s', c, p, r); } else { NoChild(s'.ctl[p]); }
    }
  }

  lemma NoChild(ctl: Ctl)
    requires (AtWake(ctl) && !ctl.why.Interrupt?) || ctl == Sched(Never) || ctl.WaitRet?
    ensures ChildOf(ctl) == -1
  {
  }

  lemma SameDoze(s: State, s': State, p: nat, x: int)
    requires Sizes(s) && Sizes(s') && |s'.st| == |s.st| && p < |s.st| && -1 <= x < |s.st|
    requires x != p && 0 <= x ==> s'.ctl[x] == s.ctl[x] && (s'.st[x] == SLEEPING ==> s.st[x] == SLEEPING)
    requires AtWake(s'.ctl[p]) || s'.ctl[p] == Sched(Never) || s'.ctl[p].WaitRet? || s'.ctl[p].ForkRun?
    ensures 0 <= x && Dozes(s', x, InWait) ==> Dozes(s, x, InWait)
  {
  }

  /** kexit becomes a zombie and lets go of wait_lock. */
  lemma ZombieKeeps(s: State, c: nat, p: nat)
    requires WaitInv(s) && Runs(s, c, p) && s.ctl[p] == ExitZombie && Wf(s) && Base(ExitStep(s, c, p))
    ensures WaitInv(ExitStep(s, c, p))
  {
    hide Base, ChildOf, ParentSet, Dozes;
    BaseWf(s, c, p);
    var s' := ExitStep(s, c, p);
    assert ThreadOk(s, p) && ParentOk(s, p);
    forall z | 0 <= z < |s'.st| ensures ParentOk(s', z) { assert ParentOk(s, z); }
    forall z | 0 <= z < |s'.st| ensures ZombieOk(s', z) {
      assert ZombieOk(s, z) && ParentOk(s, z);
      SameDoze(s, s', p, s'.parent[z]);
      if exists w :: 0 <= w < |s.ctl| && AdoptsLater(s.ctl[w], s.init) {
        var w :| 0 <= w < |s.ctl| && AdoptsLater(s.ctl[w], s.init);
        assert AdoptsLater(s'.ctl[w], s'.init);
      }
    }
    forall r | 0 <= r < |s'.st| ensures ThreadOk(s', r) {
      assert ThreadOk(s, r);
      if r != p { OnlyForks(s, s', c, p, r); } else { NoChild(s'.ctl[p]); }
    }
  }

  lemma ReapParents(s: State, c: nat, p: nat, ch: Choice, z: nat)
    requires Wf(s) && p < |s.st| && s.ctl[p].WaitHave? && s.st[s.ctl[p].i] == ZOMBIE && !ch.Fail? && z < |s.st|
    requires (forall y :: 0 <= y < |s.st| ==> ParentOk(s, y)) && s.st[p] == RUNNING
    ensures ParentOk(WaitStep(s, c, p, ch), z)
  {
    assert s.ctl[p].i < |s.st| && ParentOk(s, z);
    hide CtlOk;
  }

  lemma ReapZombies(s: State, c: nat, p: nat, ch: Choice, z: nat)
    requires Wf(s) && p < |s.st| && s.ctl[p].WaitHave? && s.st[s.ctl[p].i] == ZOMBIE && !ch.Fail? && z < |s.st|
    requires ZombieOk(s, z) && ParentOk(s, z) && s.st[p] == RUNNING
    ensures ZombieOk(WaitStep(s, c, p, ch), z)
  {
    var s' := WaitStep(s, c, p, ch);
    assert s.ctl[p].i < |s.st| && Sizes(s') && |s'.st| == |s.st|;
    hide CtlOk, Dozes;
    SameDoze(s, s', p, s'.parent[z]);
    if exists w :: 0 <= w < |s.ctl| && AdoptsLater(s.ctl[w], s.init) {
      var w :| 0 <= w < |s.ctl| && AdoptsLater(s.ctl[w], s.init);
      assert AdoptsLater(s'.ctl[w], s'.init);
    }
  }

  /** kwait frees an exited child. */
  lemma ReapKeeps(s: State, c: nat, p: nat, ch: Choice)
    requires WaitInv(s) && Runs(s, c, p) && s.ctl[p].WaitHave? && Wf(s) && s.st[s.ctl[p].i] == ZOMBIE && !ch.Fail?
    requires Base(WaitStep(s, c, p, ch))
    ensures WaitInv(WaitStep(s, c, p, ch))
  {
    hide Base, ParentSet, Dozes, ParentOk, ZombieOk;
    BaseWf(s, c, p);
    var s', i := WaitStep(s, c, p, ch), s.ctl[p].i;
    forall z | 0 <= z < |s'.st| ensures ParentOk(s', z) { ReapParents(s, c, p, ch, z); }
    forall z | 0 <= z < |s'.st| ensures ZombieOk(s', z) { ReapZombies(s, c, p, ch, z); }
    forall r | 0 <= r < |s'.st| ensures ThreadOk(s', r) {
      assert ThreadOk(s, r);
      if r != p {
        ChildNot(s, r, i);
        OnlyForks(s, s', c, p, r);
      }
    }
  }

  lemma ChildNot(s: State, r: nat, i: nat)
    requires Base(s) && r < |s.st| && i < |s.st| && s.st[i] != USED
    ensures ChildOf(s.ctl[r]) != i
  {
  }

  /** kfork makes the caller the parent. */
  lemma SetParentKeeps(s: State, c: nat, p: nat, ch: Choice)
    requires WaitInv(s) && Runs(s, c, p) && s.ctl[p].ForkSet? && Wf(s) && Base(ForkStep(s, c, p, ch))
    ensures WaitInv(ForkStep(s, c, p, ch))
  {
    hide Base, Dozes;
    BaseWf(s, c, p);
    var s', j := ForkStep(s, c, p, ch), s.ctl[p].j;
    ForkedChild(s, c, p);
    forall z | 0 <= z < |s'.st| ensures ParentOk(s', z) { assert ParentOk(s, z); }
    forall z | 0 <= z < |s'.st| ensures ZombieOk(s', z) {
      assert ZombieOk(s, z) && ParentOk(s, z);
      SameDoze(s, s', p, s'.parent[z]);
      if exists w :: 0 <= w < |s.ctl| && AdoptsLater(s.ctl[w], s.init) {
        var w :| 0 <= w < |s.ctl| && AdoptsLater(s.ctl[w], s.init);
        assert AdoptsLater(s'.ctl[w], s'.init);
      }
    }
    forall r | 0 <= r < |s'.st| ensures ThreadOk(s', r) {
      assert ThreadOk(s, r);
      if r != p {
        OneFork(s, p, r);
        OnlyForks(s, s', c, p, r);
      }
    }
  }

  lemma OneFork(s: State, p: nat, r: nat)
    requires Base(s) && p < |s.st| && r < |s.st| && r != p && ChildOf(s.ctl[p]) != -1
    ensures ChildOf(s.ctl[r]) != ChildOf(s.ctl[p])
  {
  }

  /** A step that moves no thread and changes at most how alive a process is. */
  ghost predicate Calm(s: State, s': State)
    requires Sizes(s)
  {
    && Sizes(s') && |s'.st| == |s.st| && s'.init == s.init && s'.exits == s.exits && s'.reaps == s.reaps
    && s'.parent == s.parent && s'.ctl == s.ctl
    && forall z :: 0 <= z < |s.st| ==>
         s'.st[z] == s.st[z] || (Alive(s.st[z]) && Alive(s'.st[z]) && s'.st[z] != SLEEPING)
  }

  lemma SchedulerCalm(s: State, c: nat, ch: Choice)
    requires Wf(s) && c < |s.on| && !s.on[c].Run?
    ensures Calm(s, SchedulerStep(s, c, ch)) && Calm(s, IdleStep(s, c, ch))
  {
    hide CtlOk;
  }

  lemma CalmKeeps(s: State, s': State)
    requires WaitInv(s) && Base(s') && Calm(s, s')
    ensures WaitInv(s')
  {
    hide Base, ChildOf, ParentSet;
    forall x | 0 <= x < |s.st| ensures Dozes(s', x, InWait) ==> Dozes(s, x, InWait) {}
    hide Dozes;
    forall z | 0 <= z < |s'.st| ensures ParentOk(s', z) { assert ParentOk(s, z); }
    forall z | 0 <= z < |s'.st| ensures ZombieOk(s', z) { assert ZombieOk(s, z) && ParentOk(s, z); }
    forall r | 0 <= r < |s'.st| ensures ThreadOk(s', r) { assert ThreadOk(s, r); }
  }

  lemma ThreadKeepsWait(s: State, c: nat, p: nat, ch: Choice)
    requires WaitInv(s) && Runs(s, c, p)
    ensures WaitInv(ThreadStep(s, c, p, ch))
  {
    hide Base, Quiet, Gentle, Plain, FreeStep, SleepStep, SwtchStep, LockStep, WakeStep, KillStep, AllocStep,
         ParentOk, ZombieOk, ThreadOk, RunningOk;
    BaseWf(s, c, p);
    var s' := ThreadStep(s, c, p, ch);
    ThreadKeepsBase(s, c, p, ch);
    ThreadQuiet(s, c, p, ch);
    if s.ctl[p].ExitScan? && s.ctl[p].i < |s.st| && s.parent[s.ctl[p].i] == p {
      AdoptKeeps(s, c, p, s.ctl[p].i);
    } else if s.ctl[p].ExitZombie? {
      ZombieKeeps(s, c, p);
    } else if s.ctl[p].WaitHave? && s.st[s.ctl[p].i] == ZOMBIE && !ch.Fail? {
      ReapKeeps(s, c, p, ch);
    } else if s.ctl[p].ForkSet? {
      SetParentKeeps(s, c, p, ch);
    } else {
      assert Gentle(s, s', p) by { ThreadGentle(s, c, p, ch); }
      MildKeeps(s, s', c, p);
    }
  }

  lemma ThreadGentle(s: State, c: nat, p: nat, ch: Choice)
    requires WaitInv(s) && Runs(s, c, p) && Wf(s)
    requires !(s.ctl[p].ExitScan? && s.ctl[p].i < |s.st| && s.parent[s.ctl[p].i] == p) && !s.ctl[p].ExitZombie?
    requires s.ctl[p].WaitHave? && s.ctl[p].i < |s.st| && s.st[s.ctl[p].i] == ZOMBIE ==> ch.Fail?
    requires !s.ctl[p].ForkSet?
    ensures Gentle(s, ThreadStep(s, c, p, ch), p)
  {
    hide WaitInv, Base, Gentle, FreeStep, SleepStep, SwtchStep, LockStep, WakeStep, ExitStep, WaitStep, KillStep,
         AllocStep,
         ForkStep, AtLock, AtWake, AtExit, AtWait, AtAlloc, AtFork;
    if s.ctl[p].Free? { FreeGentle(s, c, p, ch); }
    else if s.ctl[p].Sched? { SwtchGentle(s, c, p); }
    else if AtLock(s.ctl[p]) { LockGentle(s, c, p, ch); }
    else if AtWake(s.ctl[p]) { WakeGentle(s, c, p); }
    else if AtExit(s.ctl[p]) { ExitGentle(s, c, p); }
    else if AtWait(s.ctl[p]) { WaitGentle(s, c, p, ch); }
    else if s.ctl[p].KillHave? { KillGentle(s, c, p); }
    else if AtAlloc(s.ctl[p]) { AllocGentle(s, c, p, ch); }
    else if AtFork(s.ctl[p]) { ForkGentle(s, c, p, ch); }
    else { SleepGentle(s, c, p, ch); }
  }

  /** Every step of every CPU keeps the exit/wait invariants. */
  lemma StepKeepsWait(s: State, c: nat, ch: Choice)
    requires WaitInv(s) && c < |s.on|
    ensures WaitInv(Step(s, c, ch))
  {
    hide ParentOk, ZombieOk, ThreadOk, ThreadStep, SchedulerStep, IdleStep, Calm;
    StepKeepsBase(s, c, ch);
    if s.on[c].Run? {
      ThreadKeepsWait(s, c, s.on[c].p, ch);
    } else {
      SchedulerCalm(s, c, ch);
      CalmKeeps(s, Step(s, c, ch));
    }
  }

  /** While wait_lock is free, a process blocked in kwait has no exited child. */
  lemma NoZombieMissed(s: State, p: nat, z: nat)
    requires WaitInv(s) && p < |s.st| && z < |s.st| && WaitLock !in s.held
    requires (s.st[p] == SLEEPING && s.chan[p] == ProcChan(p))
          || s.ctl[p] == SleepOne(InWait) || s.ctl[p] == Sched(AfterSleep(InWait))
    requires s.parent[z] == p
    ensures s.st[z] != ZOMBIE
  {
    assert ProcOk(s, p) && ZombieOk(s, z);
    assert Dozes(s, p, InWait);
    if s.st[z] == ZOMBIE {
      var w :| 0 <= w < |s.ctl| && AdoptsLater(s.ctl[w], s.init);
      WakerHolds(s, w);
      assert false;
    }
  }

  /** A parent is alive, every living or exited process but init has one, and each exit is
      followed by at most one reaping. */
  lemma Parenthood(s: State, z: nat)
    requires WaitInv(s) && z < |s.st|
    ensures s.parent[z] != -1 ==>
              0 <= s.parent[z] < |s.st| && s.st[s.parent[z]] != ZOMBIE && s.st[s.parent[z]] != UNUSED
    ensures z != s.init && s.st[z] != UNUSED && s.st[z] != USED ==> s.parent[z] != -1
    ensures s.reaps[z] <= s.exits[z] <= s.reaps[z] + 1
    ensures s.exits[z] == s.reaps[z] + 1 <==> s.st[z] == ZOMBIE
  {
    assert ParentOk(s, z);
  }
}
