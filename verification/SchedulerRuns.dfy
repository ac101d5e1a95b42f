/** Whole runs of the scheduler system, and what holds in every state of them. */
module SchedulerRuns {
  import opened Scheduler
  import opened SchedulerSafety
  import opened SchedulerLocks
  import opened SchedulerDevices
  import opened SchedulerKill
  import opened SchedulerMissed
  import opened SchedulerAlone
  import opened SchedulerWait

  /** After userinit: init is runnable, every other slot unused, no lock held. */
  ghost predicate Init(s: State) {
    && Sizes(s)
    && (forall p :: 0 <= p < |s.st| ==>
          && s.st[p] == (if p == s.init then RUNNABLE else UNUSED) && s.ctl[p] == Resumed(FirstRun)
          && s.at[p] == -1 && s.parent[p] == -1 && s.slk[p] == {} && s.exits[p] == s.reaps[p] == 0 && !s.killed[p])
    && (forall c :: 0 <= c < |s.on| ==> s.on[c] == Idle && s.cur[c] == -1)
    && s.held == map[] && (forall k :: 0 <= k < |s.owner| ==> s.owner[k] == -1)
  }

  function Next(s: State, move: (nat, Choice)): State {
    if Wf(s) && move.0 < |s.on| then Step(s, move.0, move.1) else s
  }

  /** A run: which CPU moved with which choice, and the states before and after. */
  ghost predicate IsRun(states: seq<State>, moves: seq<(nat, Choice)>) {
    && |states| == |moves| + 1 && Init(states[0])
    && (forall i :: 0 <= i < |moves| ==> states[i + 1] == Next(states[i], moves[i]))
  }

  lemma InitBase(s: State)
    requires Init(s)
    ensures Base(s)
  {
    forall c, l | 0 <= c < |s.on| ensures l !in HeldBy(s, c) {}
    hide HeldBy;
    forall p | 0 <= p < |s.st| ensures ProcOk(s, p) {}
  }

  lemma InitSleep(s: State)
    requires Init(s) && Base(s)
    ensures SleepInv(s)
  {
    hide Base;
  }

  lemma InitWait(s: State)
    requires Init(s) && Base(s)
    ensures WaitInv(s)
  {
    hide Base;
    forall p | 0 <= p < |s.st| ensures ParentOk(s, p) && ZombieOk(s, p) {}
    forall p | 0 <= p < |s.st| ensures ThreadOk(s, p) {}
  }

  lemma InitDevices(s: State)
    requires Init(s) && Base(s)
    ensures DeviceInv(s)
  {
    hide Base;
    forall c, i: nat, d: nat, x: nat | 0 <= c < |s.on| ensures !Passed(s, c, d, x, i) {}
  }

  lemma InitOk(s: State)
    requires Init(s)
    ensures SleepInv(s) && WaitInv(s) && DeviceInv(s)
  {
    hide Init, Base, SleepInv, WaitInv, DeviceInv;
    InitBase(s);
    InitSleep(s);
    InitWait(s);
    InitDevices(s);
  }

  /** Safety: the invariants hold in every state of every run. */
  lemma {:induction false} EveryState(states: seq<State>, moves: seq<(nat, Choice)>, i: nat)
    requires IsRun(states, moves) && i < |states|
    ensures SleepInv(states[i]) && WaitInv(states[i]) && DeviceInv(states[i])
  {
    if i == 0 {
      InitOk(states[0]);
    } else {
      hide Step, SleepInv, WaitInv, DeviceInv, Init;
      EveryState(states, moves, i - 1);
      var s, move := states[i - 1], moves[i - 1];
      assert states[i] == Next(s, move);
      if Wf(s) && move.0 < |s.on| {
        StepKeepsSleep(s, move.0, move.1);
        StepKeepsWait(s, move.0, move.1);
        StepKeepsDevices(s, move.0, move.1);
      }
    }
  }

  lemma SleepIsBase(s: State)
    requires SleepInv(s)
    ensures Base(s) && Wf(s)
  {
  }

  /** No process is executed by two CPUs; while p->lock is free, p is RUNNING exactly when a
      CPU has it as current; and a RUNNABLE or SLEEPING process whose lock is free is on no
      CPU and has a context to resume. */
  lemma OneCpu(states: seq<State>, moves: seq<(nat, Choice)>, i: nat, p: nat)
    requires IsRun(states, moves) && i < |states| && p < |states[i].st|
    ensures Wf(states[i]) && Exclusive(states[i], p)
  {
    EveryState(states, moves, i);
    OneCpuOf(states[i], p);
  }

  ghost predicate Exclusive(s: State, p: nat)
    requires Sizes(s) && p < |s.st|
  {
    && (forall c, d :: 0 <= c < |s.on| && 0 <= d < |s.on| && s.on[c] == s.on[d] == Run(p) ==> c == d)
    && (PLock(p) !in s.held ==> (s.st[p] == RUNNING <==> exists c :: 0 <= c < |s.on| && s.cur[c] == p))
    && (PLock(p) !in s.held && (s.st[p] == RUNNABLE || s.st[p] == SLEEPING) ==>
          s.ctl[p].Resumed? && forall c :: 0 <= c < |s.on| ==> s.cur[c] != p)
  }

  lemma OneCpuOf(s: State, p: nat)
    requires Base(s) && p < |s.st|
    ensures Exclusive(s, p)
  {
    hide Forks, CtlOk;
    forall c, d | 0 <= c < |s.on| && 0 <= d < |s.on| && s.on[c] == s.on[d] == Run(p) ensures c == d {
      assert CpuOk(s, c) && CpuOk(s, d);
    }
    assert ProcOk(s, p);
    if PLock(p) !in s.held {
      forall c | 0 <= c < |s.on| && s.cur[c] == p ensures s.at[p] == c {
        assert CpuOk(s, c);
        assert PLock(p) !in HeldBy(s, c);
      }
      if s.at[p] != -1 {
        assert CpuOk(s, s.at[p]);
        assert PLock(p) !in HeldBy(s, s.at[p]);
      }
    }
  }

  /** At a swtch out of a process the checks of sched pass: p->lock is held and nothing else,
      and the process is no longer RUNNING. */
  lemma SchedChecks(states: seq<State>, moves: seq<(nat, Choice)>, i: nat, c: nat, p: nat)
    requires IsRun(states, moves) && i < |states| && c < |states[i].on| && states[i].on[c] == Run(p)
    requires p < |states[i].st| && p < |states[i].ctl| && states[i].ctl[p].Sched?
    ensures Wf(states[i]) && HeldBy(states[i], c) == {PLock(p)} && states[i].st[p] != RUNNING
    ensures PLock(p) in states[i].held && states[i].held[PLock(p)] == c
  {
    EveryState(states, moves, i);
    var s := states[i];
    HoldsItsLocks(s, c, p);
  }

  /** In every run, a sleep lock has at most one holder, and no one sleeps on a free one: whoever is
      asleep on it, or past releasing its inner spinlock to go to sleep, is still to be woken. */
  lemma SleepLockSafety(states: seq<State>, moves: seq<(nat, Choice)>, i: nat, p: nat, q: nat, k: nat)
    requires IsRun(states, moves) && i < |states| && p < |states[i].st| && q < |states[i].st| && k < |states[i].owner|
    ensures Wf(states[i])
    ensures k in states[i].slk[p] && k in states[i].slk[q] ==> p == q
    ensures Inner(k) !in states[i].held && OnTheWay(states[i], q, LockChan(k), OnSleepLock(k)) ==>
              states[i].owner[k] != -1
  {
    hide Base, SleepInv, WaitInv, DeviceInv, Init;
    EveryState(states, moves, i);
    var s := states[i];
    SleepIsBase(s);
    if k in s.slk[p] && k in s.slk[q] { OneHolder(s, p, q, k); }
    if Inner(k) !in s.held && OnTheWay(s, q, LockChan(k), OnSleepLock(k)) { NoLostWakeup(s, q, k); }
  }

  /** Asleep on a channel, or past the last test before it. */
  ghost predicate OnTheWay(s: State, q: nat, chan: Chan, site: Site)
    requires Sizes(s) && q < |s.st|
  {
    (s.st[q] == SLEEPING && s.chan[q] == chan) || s.ctl[q] == SleepOne(site) || s.ctl[q] == Sched(AfterSleep(site))
  }

  /** In every run, while wait_lock is free no process blocked in kwait has an exited child; parents
      are alive; and each exit is reaped at most once. */
  lemma WaitSafety(states: seq<State>, moves: seq<(nat, Choice)>, i: nat, p: nat, z: nat)
    requires IsRun(states, moves) && i < |states| && p < |states[i].st| && z < |states[i].st|
    ensures Wf(states[i])
    ensures WaitLock !in states[i].held && OnTheWay(states[i], p, ProcChan(p), InWait) && states[i].parent[z] == p ==>
              states[i].st[z] != ZOMBIE
    ensures states[i].parent[z] == p ==> states[i].st[p] != ZOMBIE && states[i].st[p] != UNUSED
    ensures states[i].reaps[z] <= states[i].exits[z] <= states[i].reaps[z] + 1
  {
    hide Base, SleepInv, WaitInv, DeviceInv, Init;
    EveryState(states, moves, i);
    var s := states[i];
    SleepIsBase(s);
    Parenthood(s, z);
    if WaitLock !in s.held && OnTheWay(s, p, ProcChan(p), InWait) && s.parent[z] == p { NoZombieMissed(s, p, z); }
  }

  /** In every run, kwait stops over a process only if it is the caller's child, and finds at the end of
      its scan that the caller has no children exactly when it has none. */
  lemma WaitSeesChildren(states: seq<State>, moves: seq<(nat, Choice)>, i: nat, p: nat)
    requires IsRun(states, moves) && i < |states| && p < |states[i].st|
    ensures Wf(states[i])
    ensures states[i].ctl[p].WaitHave? ==> states[i].parent[states[i].ctl[p].i] == p
    ensures states[i].ctl[p].WaitScan? && states[i].ctl[p].i >= |states[i].st| ==>
              (states[i].ctl[p].kids <==> exists z :: 0 <= z < |states[i].st| && states[i].parent[z] == p)
  {
    hide SleepInv, DeviceInv, Init, Base;
    EveryState(states, moves, i);
    var s := states[i];
    SleepIsBase(s);
    assert ThreadOk(s, p) && CtlOk(|s.st|, |s.owner|, s.ctl[p]);
  }

  /** In every run, nobody that the wakeup of a device's channel has passed is asleep on the channel or
      past the last test before it. */
  lemma DeviceSafety(states: seq<State>, moves: seq<(nat, Choice)>, i: nat, c: nat, d: nat, x: nat, q: nat)
    requires IsRun(states, moves) && i < |states| && c < |states[i].on| && q < |states[i].st|
    ensures Wf(states[i])
    ensures Passed(states[i], c, d, x, q) ==> !OnTheWay(states[i], q, DevChan(d, x), OnDevice(d, x))
  {
    hide Base, SleepInv, WaitInv, DeviceInv, Init;
    EveryState(states, moves, i);
    var s := states[i];
    SleepIsBase(s);
    if Passed(s, c, d, x, q) {
      NobodyLeft(s, c, d, x, q);
      NotOnTheWay(s, c, d, x, q);
    }
  }

  lemma NotOnTheWay(s: State, c: nat, d: nat, x: nat, q: nat)
    requires DeviceInv(s) && c < |s.on| && q < |s.st| && Passed(s, c, d, x, q)
    ensures s.ctl[q] != SleepOne(OnDevice(d, x)) && s.ctl[q] != Sched(AfterSleep(OnDevice(d, x)))
  {
    assert !Dozes(s, q, OnDevice(d, x));
  }

  /** When the wakeup of a driver or of its interrupt handler returns, no other process is asleep on the
      channel. */
  lemma WakeupReturns(states: seq<State>, moves: seq<(nat, Choice)>, i: nat, c: nat, p: nat, d: nat, x: nat,
                      rest: Rest, j: nat, q: nat)
    requires IsRun(states, moves) && i < |states| && c < |states[i].on| && Sizes(states[i])
    requires q < |states[i].st| && j >= |states[i].st|
    requires || states[i].on[c] == IdleWake(d, x, j)
             || (states[i].on[c] == Run(p) && p < |states[i].st| && p != q &&
                 (states[i].ctl[p] == Wake(FromDevice(d, x), j) || states[i].ctl[p] == Wake(Interrupt(d, x, rest), j)))
    ensures !(states[i].st[q] == SLEEPING && states[i].chan[q] == DevChan(d, x))
  {
    hide Init;
    DeviceSafety(states, moves, i, c, d, x, q);
  }

  /** The step is a kill of `q`. */
  predicate IsKill(s: State, move: (nat, Choice), q: nat) {
    Wf(s) && move.0 < |s.on| && Hits(s, move.0, q)
  }

  /** Step `j` of the run was a kill of `q`, and the slot of `q` was not freed since, up to state `i`. */
  ghost predicate KilledSince(states: seq<State>, moves: seq<(nat, Choice)>, q: nat, j: nat, i: nat)
    requires j < i < |states| == |moves| + 1
  {
    && IsKill(states[j], moves[j], q)
    && (forall k :: j < k < i ==> !Freed(states[k], states[k + 1], q))
  }

  ghost predicate EverKilled(states: seq<State>, moves: seq<(nat, Choice)>, q: nat, i: nat)
    requires i < |states| == |moves| + 1
  {
    exists j: nat :: j < i && KilledSince(states, moves, q, j, i)
  }

  /** In every run, a process is killed exactly when kkill found it and its slot was not freed since. */
  lemma {:induction false} KilledForGood(states: seq<State>, moves: seq<(nat, Choice)>, i: nat, q: nat)
    requires IsRun(states, moves) && i < |states| && q < |states[0].st|
    ensures q < |states[i].st| == |states[0].st| && |states[i].killed| == |states[i].st|
    ensures states[i].killed[q] <==> EverKilled(states, moves, q, i)
  {
    if i > 0 {
      hide Init, SleepInv, WaitInv, DeviceInv, EverKilled;
      KilledForGood(states, moves, i - 1, q);
      EveryState(states, moves, i - 1);
      assert states[i] == Next(states[i - 1], moves[i - 1]);
      NextMarks(states[i - 1], moves[i - 1], q);
      LastStep(states, moves, q, i);
    }
  }

  lemma NextMarks(s: State, move: (nat, Choice), q: nat)
    requires SleepInv(s) && q < |s.st|
    ensures Sizes(s) && Marked(s, Next(s, move), q, IsKill(s, move, q))
  {
    hide Step, Base;
    SleepIsBase(s);
    if move.0 < |s.on| { StepMarks(s, move.0, move.1, q); }
  }

  /** A kill counts if the last step is one, or if it counted before and the last step did not free the
      slot. */
  lemma LastStep(states: seq<State>, moves: seq<(nat, Choice)>, q: nat, i: nat)
    requires 0 < i < |states| == |moves| + 1
    ensures EverKilled(states, moves, q, i) <==>
              || IsKill(states[i - 1], moves[i - 1], q)
              || (EverKilled(states, moves, q, i - 1) && !Freed(states[i - 1], states[i], q))
  {
    hide Wf, Hits, Freed;
    var n := i - 1;
    if IsKill(states[n], moves[n], q) { assert KilledSince(states, moves, q, n, i); }
    if EverKilled(states, moves, q, n) && !Freed(states[n], states[i], q) {
      var j: nat :| j < n && KilledSince(states, moves, q, j, n);
      assert KilledSince(states, moves, q, j, i);
    }
    if EverKilled(states, moves, q, i) && !IsKill(states[n], moves[n], q) {
      var j: nat :| j < i && KilledSince(states, moves, q, j, i);
      assert KilledSince(states, moves, q, j, n);
      assert !Freed(states[n], states[n + 1], q);
    }
  }

  /** Step `j` of the run was a kill of `q` right after its test of killed in kwait, and `q` has been on its way
      to sleep or asleep since. */
  ghost predicate MissedSince(states: seq<State>, moves: seq<(nat, Choice)>, q: nat, j: nat, i: nat)
    requires j < i < |states| == |moves| + 1
  {
    && IsKill(states[j], moves[j], q) && q < |states[j].st| && states[j].ctl[q] == SleepEnter(InWait)
    && forall k :: j <= k <= i ==> Rests(states[k], q)
  }

  ghost predicate Rests(s: State, q: nat) { Sizes(s) && q < |s.st| && Resting(s, q) }

  ghost predicate EverMissed(states: seq<State>, moves: seq<(nat, Choice)>, q: nat, i: nat)
    requires i < |states| == |moves| + 1
  {
    exists j: nat :: j < i && MissedSince(states, moves, q, j, i)
  }

  /** In every run, a process asleep in kwait, or past the test of killed on its way there, is killed exactly when
      kkill found it between that test and the taking of its lock by sleep. */
  lemma {:induction false} KillMissed(states: seq<State>, moves: seq<(nat, Choice)>, i: nat, q: nat)
    requires IsRun(states, moves) && i < |states| && q < |states[i].st| && Rests(states[i], q)
    ensures states[i].killed[q] <==> EverMissed(states, moves, q, i)
  {
    if i > 0 {
      hide Init, SleepInv, WaitInv, DeviceInv, Rests, IsKill, Next, Wf, EverMissed;
      EveryState(states, moves, i - 1);
      assert states[i] == Next(states[i - 1], moves[i - 1]);
      NextRests(states[i - 1], moves[i - 1], q);
      if Rests(states[i - 1], q) { KillMissed(states, moves, i - 1, q); }
      LastMiss(states, moves, q, i);
    }
  }

  /** One step of a run that leaves `q` resting. */
  lemma NextRests(s: State, move: (nat, Choice), q: nat)
    requires SleepInv(s) && Rests(Next(s, move), q)
    ensures Sizes(s) && q < |s.st|
    ensures !Rests(s, q) ==> !Next(s, move).killed[q]
    ensures Rests(s, q) ==> (Next(s, move).killed[q] <==> IsKill(s, move, q) || s.killed[q])
    ensures Rests(s, q) && IsKill(s, move, q) ==> s.ctl[q] == SleepEnter(InWait)
  {
    hide Step, Base, Resting, Marked, Freed;
    SleepIsBase(s);
    if move.0 < |s.on| {
      SameSize(s, move.0, move.1);
      StepKeepsBase(s, move.0, move.1);
      BaseIsWf(Step(s, move.0, move.1));
      StepMarks(s, move.0, move.1, q);
      StepRests(s, move.0, move.1, q);
      NotFreed(s, Step(s, move.0, move.1), q, Hits(s, move.0, q));
      if Rests(s, q) && Hits(s, move.0, q) { HitAtEntry(s, move.0, move.1, q); }
    }
  }

  lemma SameSize(s: State, c: nat, ch: Choice)
    requires Base(s) && Wf(s) && c < |s.on|
    ensures |Step(s, c, ch).st| == |s.st|
  {
    hide Step, Base;
    if |s.st| > 0 { StepMarks(s, c, ch, 0); }
  }

  lemma NotFreed(s: State, s': State, q: nat, hit: bool)
    requires Wf(s) && Base(s') && Wf(s') && q < |s.st| == |s'.st| && Resting(s', q) && Marked(s, s', q, hit)
    ensures s'.killed[q] <==> hit || s.killed[q]
  {
    hide Base;
    RestingUsed(s', q);
  }

  /** A missed kill counts if the last step is one, or if it counted before. */
  lemma LastMiss(states: seq<State>, moves: seq<(nat, Choice)>, q: nat, i: nat)
    requires 0 < i < |states| == |moves| + 1 && Rests(states[i], q)
    ensures EverMissed(states, moves, q, i) <==>
              Rests(states[i - 1], q) &&
              ((IsKill(states[i - 1], moves[i - 1], q) && q < |states[i - 1].ctl| &&
                states[i - 1].ctl[q] == SleepEnter(InWait)) ||
               EverMissed(states, moves, q, i - 1))
  {
    hide Resting, IsKill, Rests;
    var n := i - 1;
    if Rests(states[n], q) { RestsIs(states[n], q); }
    if EverMissed(states, moves, q, i) {
      var j: nat :| j < i && MissedSince(states, moves, q, j, i);
      assert Rests(states[n], q);
      if j < n { assert MissedSince(states, moves, q, j, n); }
    }
    if Rests(states[n], q) && EverMissed(states, moves, q, n) {
      var j: nat :| j < n && MissedSince(states, moves, q, j, n);
      assert MissedSince(states, moves, q, j, i);
    }
    if Rests(states[n], q) && IsKill(states[n], moves[n], q) && q < |states[n].ctl| &&
       states[n].ctl[q] == SleepEnter(InWait) {
      assert MissedSince(states, moves, q, n, i);
    }
  }

  lemma RestsIs(s: State, q: nat)
    requires Rests(s, q)
    ensures Sizes(s) && q < |s.st|
  {
  }

  /** A run gets to the state. */
  ghost predicate Reached(s: State) {
    exists states: seq<State>, moves :: |states| == |moves| + 1 && IsRun(states, moves) && states[|moves|] == s
  }

  lemma LongerRun(states: seq<State>, moves: seq<(nat, Choice)>, move: (nat, Choice))
    requires IsRun(states, moves)
    ensures IsRun(states + [Next(states[|moves|], move)], moves + [move])
  {
    hide Next, Init;
    var states', moves' := states + [Next(states[|moves|], move)], moves + [move];
    forall i | 0 <= i < |moves'| ensures states'[i + 1] == Next(states'[i], moves'[i]) {
      if i < |moves| { assert states[i + 1] == Next(states[i], moves[i]); }
    }
  }

  lemma ReachedNext(s: State, move: (nat, Choice))
    requires Reached(s)
    ensures Reached(Next(s, move))
  {
    hide IsRun, Next;
    var states: seq<State>, moves :| |states| == |moves| + 1 && IsRun(states, moves) && states[|moves|] == s;
    LongerRun(states, moves, move);
    var states', moves' := states + [Next(s, move)], moves + [move];
    assert IsRun(states', moves') && states'[|moves'|] == Next(s, move);
  }

  lemma {:induction false} ReachedAlone(s: State, c: nat, chs: seq<Choice>)
    requires Reached(s)
    ensures Reached(Alone(s, c, chs))
    decreases |chs|
  {
    hide Step, Reached;
    if chs != [] && Wf(s) && c < |s.on| {
      ReachedNext(s, (c, chs[0]));
      ReachedAlone(Step(s, c, chs[0]), c, chs[1..]);
    }
  }

  lemma ReachedBy(s: State, c: nat, s': State)
    requires Reached(s) && Goes(s, c, s')
    ensures Reached(s')
  {
    hide Reached, Alone;
    var chs :| Alone(s, c, chs) == s';
    ReachedAlone(s, c, chs);
  }

  lemma ReachedInit(s: State)
    requires Init(s)
    ensures Reached(s) && Base(s) && Wf(s)
  {
    InitBase(s);
    BaseIsWf(s);
    hide Init, Base;
    var states, moves: seq<(nat, Choice)> := [s], [];
    assert IsRun(states, moves) && states[|moves|] == s;
  }

  /** A state in which two processes run, one the child of the other, and nobody holds a lock. */
  ghost predicate TwoRun(s: State, c: nat, p: nat, d: nat, j: nat) {
    && Base(s) && Wf(s) && Runs(s, c, p) && Runs(s, d, j) && c != d && p != j && s.held == map[]
    && s.ctl[p] == s.ctl[j] == Free && s.parent[j] == p && !s.killed[p]
    && forall z :: 0 <= z < |s.st| ==> s.st[z] != ZOMBIE && s.st[z] != SLEEPING
  }

  lemma ReachOne(s: State, c: nat) returns (s': State)
    requires Init(s) && Sizes(s) && c < |s.on|
    ensures Reached(s') && Base(s') && Wf(s')
    ensures var p := s.init;
            s' == s.(st := s.st[p := RUNNING], at := s.at[p := c], on := s.on[c := Run(p)], cur := s.cur[c := p],
                     ctl := s.ctl[p := Free])
  {
    ReachedInit(s);
    hide Base, CtlOk, Goes, Reached, Step;
    var p := s.init;
    FirstAlone(s, c, p);
    s' := s.(st := s.st[p := RUNNING], at := s.at[p := c], on := s.on[c := Run(p)], cur := s.cur[c := p],
             ctl := s.ctl[p := Free]);
    ReachedBy(s, c, s');
    BaseIsWf(s');
  }

  /** The child is made. */
  lemma ReachChild(s: State, c: nat, p: nat, j: nat) returns (s': State)
    requires Reached(s) && Base(s) && Wf(s) && Runs(s, c, p) && s.ctl[p] == Free && s.held == map[]
    requires j < |s.st| && j != p && s.st[j] == UNUSED
    ensures Reached(s') && Base(s') && Wf(s')
    ensures s' == s.(st := s.st[j := RUNNABLE], ctl := s.ctl[j := Resumed(FirstRun)], parent := s.parent[j := p])
  {
    hide Base, CtlOk, Goes, Reached, Step;
    ForkAlone(s, c, p, j);
    s' := s.(st := s.st[j := RUNNABLE], ctl := s.ctl[j := Resumed(FirstRun)], parent := s.parent[j := p]);
    ReachedBy(s, c, s');
    BaseIsWf(s');
  }

  /** The child runs. */
  lemma ReachBoth(s: State, c: nat, p: nat, d: nat, j: nat) returns (s': State)
    requires Reached(s) && Base(s) && Wf(s) && Runs(s, c, p) && d < |s.on| && s.on[d] == Idle && s.held == map[]
    requires j < |s.st| && j != p && s.st[j] == RUNNABLE && s.ctl[j] == Resumed(FirstRun) && s.ctl[p] == Free
    requires s.parent[j] == p && !s.killed[p]
    requires forall z :: 0 <= z < |s.st| ==> s.st[z] != ZOMBIE && s.st[z] != SLEEPING
    ensures Reached(s') && TwoRun(s', c, p, d, j) && |s'.st| == |s.st| && s'.init == s.init
  {
    hide Base, CtlOk, Goes, Reached, Step;
    FirstAlone(s, d, j);
    s' := s.(st := s.st[j := RUNNING], at := s.at[j := d], on := s.on[d := Run(j)], cur := s.cur[d := j],
             ctl := s.ctl[j := Free]);
    ReachedBy(s, d, s');
    BaseIsWf(s');
  }

  lemma ReachTwo(s: State, c: nat, d: nat, j: nat) returns (s': State)
    requires Init(s) && Sizes(s) && c < |s.on| && d < |s.on| && c != d && j < |s.st| && j != s.init
    ensures Reached(s') && TwoRun(s', c, s.init, d, j) && |s'.st| == |s.st| && s'.init == s.init
  {
    hide Base, Wf, TwoRun, Reached;
    var s1 := ReachOne(s, c);
    var s2 := ReachChild(s1, c, s.init, j);
    s' := ReachBoth(s2, c, s.init, d, j);
  }

  /** A kill that is missed: from any start with two slots and two CPUs there is a run to a state in which init is
      killed and asleep in kwait. */
  lemma MissHappens(s: State, j: nat) returns (s': State)
    requires Init(s) && Sizes(s) && |s.on| >= 2 && j < |s.st| && j != s.init
    ensures Reached(s') && Sizes(s') && s'.init == s.init && |s'.st| == |s.st|
    ensures s'.killed[s.init] && s'.st[s.init] == SLEEPING && s'.chan[s.init] == ProcChan(s.init)
  {
    hide Base, CtlOk, Goes, Reached, Step, Init;
    var p := s.init;
    var s1 := ReachTwo(s, 0, 1, j);
    assert Child(s1, p, 0, |s1.st|) by { assert s1.parent[j] == p; }
    TestAlone(s1, 0, p);
    var s2 := s1.(held := s1.held[WaitLock := 0], ctl := s1.ctl[p := SleepEnter(InWait)]);
    ReachedBy(s1, 0, s2);
    s' := MissFrom(s2, 0, p, 1, j);
  }

  lemma MissFrom(s: State, c: nat, p: nat, d: nat, j: nat) returns (s': State)
    requires Reached(s) && Base(s) && Sizes(s) && Runs(s, c, p) && Runs(s, d, j) && p != j
    requires s.ctl[p] == SleepEnter(InWait) && s.ctl[j] == Free && s.st[p] != SLEEPING
    requires forall q: nat :: PLock(q) !in s.held
    ensures Reached(s') && Sizes(s') && s'.init == s.init && |s'.st| == |s.st|
    ensures s'.killed[p] && s'.st[p] == SLEEPING && s'.chan[p] == ProcChan(p)
  {
    hide Base, CtlOk, Goes, Reached, Step;
    BaseIsWf(s);
    KillAlone(s, d, j, p);
    var s1 := s.(killed := s.killed[p := true]);
    ReachedBy(s, d, s1);
    BaseIsWf(s1);
    SleepAlone(s1, c, p, InWait);
    s' := SchedulerAlone.Asleep(s1, c, p, InWait);
    ReachedBy(s1, c, s');
  }
}
