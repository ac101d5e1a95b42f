/** Sleep locks over every run: at most one holder, and no lost wakeup. */
module SchedulerLocks {
  import opened Scheduler
  import opened SchedulerSafety

  /** The process is asleep at `site`, or on its way there past the test of its condition. */
  ghost predicate Dozes(s: State, q: nat, site: Site)
    requires Sizes(s) && q < |s.st|
  {
    match s.ctl[q]
    case SleepEnter(x) => x == site
    case SleepBoth(x) => x == site
    case SleepOne(x) => x == site
    case Sched(after) => after == AfterSleep(site)
    case Resumed(after) => after == AfterSleep(site) && s.st[q] == SLEEPING
    case _ => false
  }

  /** A thread in releasesleep whose wakeup loop has yet to visit `q`. */
  predicate WakesLater(ctl: Ctl, k: nat, q: nat) {
    (ctl.Wake? || ctl.WakeHave?) && ctl.why == Releasing(k) && ctl.j <= q
  }

  ghost predicate Owners(s: State)
    requires Sizes(s)
  {
    && (forall p, k {:trigger k in s.slk[p]} :: 0 <= p < |s.slk| && k in s.slk[p] ==> k < |s.owner| && s.owner[k] == p)
    && (forall k :: 0 <= k < |s.owner| ==> s.owner[k] == -1 || (0 <= s.owner[k] < |s.slk| && k in s.slk[s.owner[k]]))
    && (forall p :: 0 <= p < |s.ctl| && s.ctl[p].RelHave? ==> s.ctl[p].k in s.slk[p])
  }

  /** Whoever dozes on a sleep lock sees it held, or will be visited by its releaser. */
  ghost predicate DozerOk(s: State, q: nat, k: nat)
    requires Sizes(s) && q < |s.st| && k < |s.owner|
  {
    Dozes(s, q, OnSleepLock(k)) ==>
      s.owner[k] != -1 || exists w :: 0 <= w < |s.ctl| && WakesLater(s.ctl[w], k, q)
  }

  ghost predicate Dozers(s: State)
    requires Sizes(s)
  {
    forall q, k :: 0 <= q < |s.st| && 0 <= k < |s.owner| ==> DozerOk(s, q, k)
  }

  ghost predicate SleepInv(s: State) { Base(s) && Owners(s) && Dozers(s) }

  /** A step of `p` puts nobody else to sleep and moves nobody else's program point, except
      that allocproc gives a fresh process its first one. */
  ghost predicate Quiet(s: State, s': State, p: nat)
    requires Sizes(s)
  {
    && Sizes(s') && |s'.st| == |s.st| && |s'.owner| == |s.owner|
    && forall q :: 0 <= q < |s.st| && q != p ==>
         (s'.ctl[q] == s.ctl[q] && (s'.st[q] == SLEEPING ==> s.st[q] == SLEEPING))
         || (s.ctl[q].Resumed? && s'.ctl[q] == Resumed(FirstRun))
  }

  /** A step that leaves the sleep locks alone, except perhaps to start releasing one, puts `p` to
      sleep on none and on no device, and starts no device's wakeup. */
  ghost predicate Plain(s: State, s': State, p: nat)
    requires Sizes(s) && p < |s.st|
  {
    && Sizes(s') && |s'.st| == |s.st| && s'.owner == s.owner && s'.slk == s.slk
    && (s'.ctl[p].RelHave? ==> s'.ctl[p].k in s.slk[p])
    && (forall site :: Dozes(s', p, site) && !site.InWait? ==> Dozes(s, p, site))
    && (AtWake(s'.ctl[p]) ==> !s'.ctl[p].why.FromDevice? && !s'.ctl[p].why.Interrupt?)
  }

  lemma FreeQuiet(s: State, c: nat, p: nat, ch: Choice)
    requires Wf(s) && p < |s.st| && s.ctl[p].Free?
    ensures Quiet(s, FreeStep(s, c, p, ch), p) && Plain(s, FreeStep(s, c, p, ch), p)
  {
  }

  lemma SwtchQuiet(s: State, c: nat, p: nat, ch: Choice)
    requires Wf(s) && p < |s.st| && c < |s.on| && s.ctl[p].Sched?
    ensures Quiet(s, SwtchStep(s, c, p), p) && Plain(s, SwtchStep(s, c, p), p)
  {
  }

  lemma LockQuiet(s: State, c: nat, p: nat, ch: Choice)
    requires Wf(s) && p < |s.st|
    ensures Quiet(s, LockStep(s, c, p, ch), p)
  {
    hide RestCtl;
  }

  lemma WakeQuiet(s: State, c: nat, p: nat, ch: Choice)
    requires Wf(s) && p < |s.st|
    ensures Quiet(s, WakeStep(s, c, p), p)
  {
    hide WhyReturn;
  }

  lemma ExitQuiet(s: State, c: nat, p: nat, ch: Choice)
    requires Wf(s) && p < |s.st| && AtExit(s.ctl[p])
    ensures Quiet(s, ExitStep(s, c, p), p) && Plain(s, ExitStep(s, c, p), p)
  {
  }

  lemma WaitQuiet(s: State, c: nat, p: nat, ch: Choice)
    requires Wf(s) && p < |s.st| && AtWait(s.ctl[p])
    ensures Quiet(s, WaitStep(s, c, p, ch), p) && Plain(s, WaitStep(s, c, p, ch), p)
  {
  }

  lemma KillQuiet(s: State, c: nat, p: nat, ch: Choice)
    requires Wf(s) && p < |s.st| && s.ctl[p].KillHave?
    ensures Quiet(s, KillStep(s, p), p) && Plain(s, KillStep(s, p), p)
  {
  }

  lemma InterruptedQuiet(s: State, c: nat, p: nat, rest: Rest, ch: Choice)
    requires Wf(s) && p < |s.st| && s.ctl[p] == RestCtl(rest) && IsIntr(ch)
    ensures Quiet(s, Interrupted(s, c, p, rest, ch), p) && Plain(s, Interrupted(s, c, p, rest, ch), p)
  {
    hide CtlOk;
  }

  lemma ForkPlain(s: State, c: nat, p: nat, ch: Choice)
    requires Wf(s) && p < |s.st| && AtFork(s.ctl[p]) && (IsIntr(ch) ==> s.ctl[p].ForkSet? || s.ctl[p].ForkFin?)
    ensures Quiet(s, ForkStep(s, c, p, ch), p) && Plain(s, ForkStep(s, c, p, ch), p)
  {
    assert 0 <= ChildOf(s.ctl[p]) < |s.st|;
    hide CtlOk, Interrupted;
  }

  lemma ForkQuiet(s: State, c: nat, p: nat, ch: Choice)
    requires Wf(s) && p < |s.st| && AtFork(s.ctl[p])
    ensures Quiet(s, ForkStep(s, c, p, ch), p) && Plain(s, ForkStep(s, c, p, ch), p)
  {
    hide CtlOk, Interrupted, Quiet, Plain;
    if IsIntr(ch) && s.ctl[p].ForkParent? {
      InterruptedQuiet(s, c, p, AtForkParent(s.ctl[p].j), ch);
    } else if IsIntr(ch) && s.ctl[p].ForkRun? {
      InterruptedQuiet(s, c, p, AtForkRun(s.ctl[p].j), ch);
    } else {
      ForkPlain(s, c, p, ch);
    }
  }

  lemma SleepStill(s: State, c: nat, p: nat, ch: Choice)
    requires Wf(s) && p < |s.st| && !(s.ctl[p].Reacquire? && IsIntr(ch))
    ensures Quiet(s, SleepStep(s, c, p, ch), p)
  {
    hide CtlOk, Interrupted, SiteChan, SiteReturn, RestCtl;
  }

  lemma ResumedPlain(s: State, c: nat, p: nat, ch: Choice)
    requires Wf(s) && p < |s.st| && s.ctl[p].Resumed?
    ensures Plain(s, SleepStep(s, c, p, ch), p)
  {
    hide CtlOk, SiteLock, SiteReturn, Interrupted;
  }

  lemma SleepPlain(s: State, c: nat, p: nat, ch: Choice)
    requires Wf(s) && p < |s.st| && !AtLock(s.ctl[p]) && !AtWake(s.ctl[p]) && !(s.ctl[p].Reacquire? && IsIntr(ch))
    ensures Plain(s, SleepStep(s, c, p, ch), p)
  {
    if s.ctl[p].Resumed? {
      hide SleepStep, Plain, CtlOk;
      ResumedPlain(s, c, p, ch);
    } else {
      hide CtlOk, Interrupted, RestCtl;
    }
  }

  lemma SleepQuiet(s: State, c: nat, p: nat, ch: Choice)
    requires Wf(s) && p < |s.st| && !AtLock(s.ctl[p]) && !AtWake(s.ctl[p])
    ensures Quiet(s, SleepStep(s, c, p, ch), p) && Plain(s, SleepStep(s, c, p, ch), p)
  {
    hide CtlOk, Interrupted;
    if s.ctl[p].Reacquire? && IsIntr(ch) {
      InterruptedQuiet(s, c, p, AtReacquire(s.ctl[p].site), ch);
    } else {
      hide Quiet, Plain, SleepStep;
      SleepStill(s, c, p, ch);
      SleepPlain(s, c, p, ch);
    }
  }

  lemma AllocQuiet(s: State, c: nat, p: nat, ch: Choice)
    requires Base(s) && Runs(s, c, p) && AtAlloc(s.ctl[p])
    ensures Quiet(s, AllocStep(s, p, ch), p) && Plain(s, AllocStep(s, p, ch), p)
  {
    hide Locks, Forks;
    BaseWf(s, c, p);
    assert ProcOk(s, s.ctl[p].j);
  }

  lemma ThreadQuiet(s: State, c: nat, p: nat, ch: Choice)
    requires Base(s) && Runs(s, c, p)
    ensures Quiet(s, ThreadStep(s, c, p, ch), p)
    ensures !AtWake(s.ctl[p]) && !AtLock(s.ctl[p]) ==> Plain(s, ThreadStep(s, c, p, ch), p)
  {
    hide Base, Quiet, Plain, FreeStep, SleepStep, SwtchStep, LockStep, WakeStep, ExitStep, WaitStep, KillStep,
         AllocStep, ForkStep,
         AtLock, AtWake, AtExit, AtWait, AtAlloc, AtFork;
    BaseWf(s, c, p);
    if s.ctl[p].Free? { FreeQuiet(s, c, p, ch); }
    else if s.ctl[p].Sched? { SwtchQuiet(s, c, p, ch); }
    else if AtLock(s.ctl[p]) { LockQuiet(s, c, p, ch); }
    else if AtWake(s.ctl[p]) { WakeQuiet(s, c, p, ch); }
    else if AtExit(s.ctl[p]) { ExitQuiet(s, c, p, ch); }
    else if AtWait(s.ctl[p]) { WaitQuiet(s, c, p, ch); }
    else if s.ctl[p].KillHave? { KillQuiet(s, c, p, ch); }
    else if AtAlloc(s.ctl[p]) { AllocQuiet(s, c, p, ch); }
    else if AtFork(s.ctl[p]) { ForkQuiet(s, c, p, ch); }
    else { SleepQuiet(s, c, p, ch); }
  }

  lemma DozersFrame(s: State, s': State, p: nat)
    requires Sizes(s) && Dozers(s) && p < |s.st| && Quiet(s, s', p) && !AtWake(s.ctl[p])
    requires forall k :: 0 <= k < |s.owner| && s.owner[k] != -1 ==> s'.owner[k] != -1
    requires forall k :: 0 <= k < |s.owner| && Dozes(s', p, OnSleepLock(k)) ==>
               Dozes(s, p, OnSleepLock(k)) || s'.owner[k] != -1
    ensures Dozers(s')
  {
    forall q, k | 0 <= q < |s'.st| && 0 <= k < |s'.owner| ensures DozerOk(s', q, k) {
      if Dozes(s', q, OnSleepLock(k)) && s'.owner[k] == -1 {
        assert DozerOk(s, q, k) && Dozes(s, q, OnSleepLock(k));
        var w :| 0 <= w < |s.ctl| && WakesLater(s.ctl[w], k, q);
        assert WakesLater(s'.ctl[w], k, q);
      }
    }
  }

  lemma OwnersFrame(s: State, s': State, p: nat)
    requires Sizes(s) && Owners(s) && p < |s.st| && Quiet(s, s', p) && Plain(s, s', p)
    ensures Owners(s')
  {
    hide Dozes;
    forall q | 0 <= q < |s'.ctl| && s'.ctl[q].RelHave? ensures s'.ctl[q].k in s'.slk[q] {
      assert q == p || s'.ctl[q] == s.ctl[q];
    }
  }

  /** All thread steps but those of wakeup and of the sleep-lock functions. */
  lemma OtherDozers(s: State, s': State, p: nat)
    requires Sizes(s) && Owners(s) && Dozers(s) && p < |s.st| && !AtWake(s.ctl[p])
    requires Quiet(s, s', p) && Plain(s, s', p)
    ensures Owners(s') && Dozers(s')
  {
    hide Dozes;
    OwnersFrame(s, s', p);
    DozersFrame(s, s', p);
  }

  /** acquiresleep takes a lock only when nobody has it; releasesleep starts its wakeup
      loop at the first process. */
  lemma LockOwners(s: State, s': State, c: nat, p: nat, ch: Choice)
    requires Wf(s) && SleepInv(s) && Runs(s, c, p) && AtLock(s.ctl[p]) && Quiet(s, s', p)
    requires s' == LockStep(s, c, p, ch)
    ensures Owners(s')
  {
    hide Locks, Forks, Dozers;
    if s.ctl[p].AcqTest? {
      OwnersChange(s, s', p, s.ctl[p].k);
    } else if s.ctl[p].RelHave? {
      OwnersChange(s, s', p, s.ctl[p].k);
    } else {
      forall q | 0 <= q < |s'.ctl| && s'.ctl[q].RelHave? ensures s'.ctl[q].k in s'.slk[q] {
        assert s'.ctl[q] == s.ctl[q];
      }
    }
  }

  lemma OwnersChange(s: State, s': State, p: nat, k: nat)
    requires Sizes(s) && Owners(s) && p < |s.st| && k < |s.owner| && Quiet(s, s', p) && !s'.ctl[p].RelHave?
    requires (s.owner[k] == p && s'.owner == s.owner[k := -1] && s'.slk == s.slk[p := s.slk[p] - {k}])
          || (s.owner[k] == -1 && s'.owner == s.owner[k := p] && s'.slk == s.slk[p := s.slk[p] + {k}])
          || (s'.owner == s.owner && s'.slk == s.slk)
    ensures Owners(s')
  {
    forall q | 0 <= q < |s'.ctl| && s'.ctl[q].RelHave? ensures s'.ctl[q].k in s'.slk[q] {
      assert q != p && s'.ctl[q] == s.ctl[q];
    }
    forall q, l | 0 <= q < |s'.slk| && l in s'.slk[q] ensures l < |s'.owner| && s'.owner[l] == q {
      assert l in s.slk[q] || (q == p && l == k);
    }
    forall l | 0 <= l < |s'.owner|
      ensures s'.owner[l] == -1 || (0 <= s'.owner[l] < |s'.slk| && l in s'.slk[s'.owner[l]])
    {
      assert s.owner[l] == -1 || l in s.slk[s.owner[l]];
    }
  }

  lemma LockDozers(s: State, s': State, c: nat, p: nat, ch: Choice)
    requires Wf(s) && SleepInv(s) && Runs(s, c, p) && AtLock(s.ctl[p]) && Quiet(s, s', p)
    requires s' == LockStep(s, c, p, ch)
    ensures Dozers(s')
  {
    assert s.ctl[p].RelHave? ==> s.ctl[p].k < |s.owner|;
    hide Locks, Forks, Owners, CtlOk;
    if s.ctl[p].RelHave? {
      Released(s, s', p, s.ctl[p].k);
    } else {
      DozersFrame(s, s', p);
    }
  }

  lemma Released(s: State, s': State, p: nat, k: nat)
    requires Sizes(s) && Dozers(s) && p < |s.st| && Quiet(s, s', p) && k < |s.owner| && s.ctl[p] == RelHave(k)
    requires s'.ctl[p] == Wake(Releasing(k), 0) && s'.owner == s.owner[k := -1]
    ensures Dozers(s')
  {
    forall q, l | 0 <= q < |s'.st| && 0 <= l < |s'.owner| ensures DozerOk(s', q, l) {
      if l == k {
        assert WakesLater(s'.ctl[p], k, q);
      } else if Dozes(s', q, OnSleepLock(l)) && s'.owner[l] == -1 {
        assert DozerOk(s, q, l) && Dozes(s, q, OnSleepLock(l));
        var w :| 0 <= w < |s.ctl| && WakesLater(s.ctl[w], l, q);
        assert WakesLater(s'.ctl[w], l, q);
      }
    }
  }

  /** The wakeup loop leaves no dozer behind it. */
  lemma WakeDozers(s: State, c: nat, p: nat)
    requires SleepInv(s) && Runs(s, c, p) && AtWake(s.ctl[p])
    ensures Owners(WakeStep(s, c, p)) && Dozers(WakeStep(s, c, p))
  {
    hide Locks, Forks, CtlOk;
    BaseWf(s, c, p);
    WakeQuiet(s, c, p, Go);
    var s' := WakeStep(s, c, p);
    assert s'.owner == s.owner && s'.slk == s.slk && !s'.ctl[p].RelHave?;
    forall q, k | 0 <= q < |s'.st| && 0 <= k < |s'.owner| ensures DozerOk(s', q, k) {
      assert DozerOk(s, q, k);
      if Dozes(s', q, OnSleepLock(k)) && s'.owner[k] == -1 {
        assert Dozes(s, q, OnSleepLock(k));
        var w :| 0 <= w < |s.ctl| && WakesLater(s.ctl[w], k, q);
        if w == p {
          WakeVisits(s, c, p, q, k);
        }
        assert WakesLater(s'.ctl[w], k, q);
      }
    }
  }

  /** A process visited by the loop no longer dozes. */
  lemma WakeVisits(s: State, c: nat, p: nat, q: nat, k: nat)
    requires Base(s) && Runs(s, c, p) && q < |s.st| && WakesLater(s.ctl[p], k, q)
    requires Dozes(WakeStep(s, c, p), q, OnSleepLock(k))
    ensures WakesLater(WakeStep(s, c, p).ctl[p], k, q)
  {
    BaseWf(s, c, p);
    var s' := WakeStep(s, c, p);
    var j := s.ctl[p].j;
    if q == j && q != p && s.ctl[p].WakeHave? {
      assert PLock(j) in HeldBy(s, c) && Inner(k) in HeldBy(s, c);
      LockedOther(s, c, j);
      assert ProcOk(s, j);
      if s.at[j] != -1 {
        NotBoth(s, c, s.at[j], Inner(k));
        NotBoth(s, c, s.at[j], PLock(j));
      }
    }
  }

  /** No two CPUs hold the same spinlock. */
  lemma NotBoth(s: State, c: nat, d: nat, l: Lock)
    requires Base(s) && c < |s.on| && d < |s.on| && c != d && l in HeldBy(s, c)
    ensures l !in HeldBy(s, d)
  {
    assert l in s.held && s.held[l] == c;
  }

  lemma SchedulerDozers(s: State, c: nat, ch: Choice)
    requires SleepInv(s) && c < |s.on| && !s.on[c].Run?
    ensures Owners(SchedulerStep(s, c, ch)) && Dozers(SchedulerStep(s, c, ch))
  {
    hide Locks, Forks, CtlOk, WakesLater;
    var s' := SchedulerStep(s, c, ch);
    assert s'.owner == s.owner && s'.slk == s.slk && Sizes(s') && |s'.st| == |s.st|;
    forall q: nat | q < |s.st| ensures s'.ctl[q] == s.ctl[q] && (s'.st[q] == SLEEPING ==> s.st[q] == SLEEPING) {}
    hide SchedulerStep, Base;
    forall q, k | 0 <= q < |s'.st| && 0 <= k < |s'.owner| ensures DozerOk(s', q, k) {
      assert DozerOk(s, q, k);
    }
  }

  lemma IdleDozers(s: State, c: nat, ch: Choice)
    requires SleepInv(s) && c < |s.on| && AtIdle(s.on[c])
    ensures Owners(IdleStep(s, c, ch)) && Dozers(IdleStep(s, c, ch))
  {
    hide Locks, Forks, CtlOk, WakesLater;
    var s' := IdleStep(s, c, ch);
    forall q, k | 0 <= q < |s'.st| && 0 <= k < |s'.owner| ensures DozerOk(s', q, k) {
      assert DozerOk(s, q, k);
    }
  }

  /** Every step of every CPU keeps the sleep-lock invariants. */
  lemma StepKeepsSleep(s: State, c: nat, ch: Choice)
    requires SleepInv(s) && c < |s.on|
    ensures SleepInv(Step(s, c, ch))
  {
    StepKeepsBase(s, c, ch);
    if s.on[c].Run? {
      ThreadKeepsSleep(s, c, s.on[c].p, ch);
    } else if AtIdle(s.on[c]) {
      hide IdleStep;
      IdleDozers(s, c, ch);
    } else {
      hide SchedulerStep;
      SchedulerDozers(s, c, ch);
    }
  }

  lemma ThreadKeepsSleep(s: State, c: nat, p: nat, ch: Choice)
    requires SleepInv(s) && Runs(s, c, p)
    ensures SleepInv(ThreadStep(s, c, p, ch))
  {
    hide Base, Owners, Dozers, Quiet, Plain, FreeStep, SleepStep, SwtchStep, LockStep, WakeStep, ExitStep, WaitStep,
         KillStep, AllocStep, ForkStep, AtExit, AtWait, AtAlloc, AtFork;
    BaseWf(s, c, p);
    ThreadKeepsBase(s, c, p, ch);
    ThreadQuiet(s, c, p, ch);
    if AtLock(s.ctl[p]) {
      LockOwners(s, LockStep(s, c, p, ch), c, p, ch);
      LockDozers(s, LockStep(s, c, p, ch), c, p, ch);
    } else if AtWake(s.ctl[p]) {
      WakeDozers(s, c, p);
    } else {
      OtherDozers(s, ThreadStep(s, c, p, ch), p);
    }
  }

  /** At most one process holds a sleep lock at a time, and it is the recorded one. */
  lemma OneHolder(s: State, p: nat, q: nat, k: nat)
    requires SleepInv(s) && p < |s.st| && q < |s.st| && k in s.slk[p] && k in s.slk[q]
    ensures p == q && k < |s.owner| && s.owner[k] == p
  {
  }

  /** No lost wakeup: while the inner spinlock is free, a process asleep on the sleep lock,
      or past releasing that spinlock on its way to sleep, implies that the lock is held. */
  lemma NoLostWakeup(s: State, q: nat, k: nat)
    requires SleepInv(s) && q < |s.st| && k < |s.owner| && Inner(k) !in s.held
    requires (s.st[q] == SLEEPING && s.chan[q] == LockChan(k))
          || s.ctl[q] == SleepOne(OnSleepLock(k)) || s.ctl[q] == Sched(AfterSleep(OnSleepLock(k)))
    ensures s.owner[k] != -1
  {
    assert ProcOk(s, q) && DozerOk(s, q, k);
    assert Dozes(s, q, OnSleepLock(k));
    if s.owner[k] == -1 {
      var w :| 0 <= w < |s.ctl| && WakesLater(s.ctl[w], k, q);
      WakerHolds(s, w);
      assert false;
    }
  }

  /** A thread inside wakeup's loop holds its caller's lock. */
  lemma WakerHolds(s: State, w: nat)
    requires Base(s) && w < |s.st| && AtWake(s.ctl[w])
    ensures WhyLock(s.ctl[w].why) in s.held
  {
    assert ProcOk(s, w);
    assert WhyLock(s.ctl[w].why) in HeldBy(s, s.at[w]);
  }
}
