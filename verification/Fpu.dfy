/** Lazy switching of the floating-point registers (kernel/proc/fpu.c, kernel/proc/trap.c,
    kernel/proc/proc.c): each CPU has one register file, handed over only when a process touches it.
    It is compared with a machine in which every process has a register file of its own. */
module Fpu {

  /** The 32 registers and fcsr. */
  type Regs = seq<int>

  function Zero(): Regs { seq(33, _ => 0) }

  datatype Proc = Proc(used: bool, active: bool, saved: Regs, killed: bool)

  /** `cur` is the process on the CPU, `fs` whether its floating-point unit is on, and `user`
      whether it is executing user code. */
  datatype Cpu = Cpu(cur: Current, user: bool, fs: bool, regs: Regs)

  datatype Current = Idle | On(p: nat)

  /** What can happen: a CPU is switched to a process, enters or leaves user code, executes a
      floating-point instruction (`Step`), one that is illegal even with the unit on (`Bad`), or one
      that uses the unit but not with an opcode the trap handler knows (`Odd`: compressed loads and
      stores, accesses to fcsr); the process leaves the CPU, forks, or is freed. */
  datatype Action = Switch(c: nat, p: nat) | Enter(c: nat) | Leave(c: nat)
    | Step(c: nat, op: Regs -> Regs) | Bad(c: nat) | Odd(c: nat, op: Regs -> Regs)
    | Yield(c: nat) | Spawn(c: nat, child: nat) | Reap(p: nat)

  /** A process with private registers. `snap` is what they were when it last left a CPU or forked,
      and `touched` whether it executed a floating-point instruction since. */
  datatype Priv = Priv(regs: Regs, snap: Regs, touched: bool, killed: bool)

  function Fresh(r: Regs): Priv { Priv(r, r, false, false) }

  /** The machine with private registers. */
  datatype Ideal = Ideal(cur: seq<Current>, user: seq<bool>, procs: seq<Priv>)

  predicate IdealOk(s: Ideal) {
    && |s.user| == |s.cur|
    && (forall c :: 0 <= c < |s.cur| && s.cur[c].On? ==> s.cur[c].p < |s.procs|)
    && (forall c :: 0 <= c < |s.cur| && s.user[c] ==> s.cur[c].On?)
  }

  predicate OffCpu(cur: seq<Current>, p: nat) { forall d :: 0 <= d < |cur| ==> cur[d] != On(p) }

  /** Whether an action can happen. A killed process does not return to user code. */
  predicate Ready(s: Ideal, a: Action)
    requires IdealOk(s)
  {
    match a
    case Switch(c, p) => c < |s.cur| && s.cur[c].Idle? && p < |s.procs| && OffCpu(s.cur, p)
    case Enter(c) => c < |s.cur| && s.cur[c].On? && !s.user[c] && !s.procs[s.cur[c].p].killed
    case Leave(c) => c < |s.cur| && s.user[c]
    case Step(c, _) => c < |s.cur| && s.user[c]
    case Bad(c) => c < |s.cur| && s.user[c]
    case Odd(c, _) => c < |s.cur| && s.user[c]
    case Yield(c) => c < |s.cur| && s.cur[c].On? && !s.user[c]
    case Spawn(c, child) => c < |s.cur| && s.cur[c].On? && !s.user[c] && child < |s.procs| && OffCpu(s.cur, child)
    case Reap(p) => p < |s.procs| && OffCpu(s.cur, p)
  }

  /** What an action does to the process on the CPU. An instruction changes its private registers; an
      illegal one takes them back to the last snapshot; an odd one kills it if it is the first since. */
  function Effect(x: Priv, a: Action): Priv {
    match a
    case Step(_, op) => x.(regs := op(x.regs), touched := true)
    case Bad(_) => x.(regs := x.snap, touched := true)
    case Odd(_, op) => if x.touched then x.(regs := op(x.regs)) else x.(killed := true)
    case Yield(_) => x.(snap := x.regs, touched := false)
    case Spawn(_, _) => x.(snap := x.regs, touched := false)
    case _ => x
  }

  function Next(s: Ideal, a: Action): (s': Ideal)
    requires IdealOk(s)
    ensures IdealOk(s') && |s'.procs| == |s.procs| && |s'.cur| == |s.cur|
  {
    if !Ready(s, a) then s else
    match a
    case Switch(c, p) => s.(cur := s.cur[c := On(p)], user := s.user[c := false])
    case Enter(c) => s.(user := s.user[c := true])
    case Leave(c) => s.(user := s.user[c := false])
    case Step(c, _) => Change(s, c, a)
    case Bad(c) => Change(s, c, a)
    case Odd(c, _) => Change(s, c, a).(user := s.user[c := s.procs[s.cur[c].p].touched])
    case Yield(c) => Change(s, c, a).(cur := s.cur[c := Idle])
    case Spawn(c, child) =>
      var t := Change(s, c, a);
      t.(procs := t.procs[child := Fresh(s.procs[s.cur[c].p].regs)])
    case Reap(p) => s.(procs := s.procs[p := Fresh(Zero())])
  }

  function Change(s: Ideal, c: nat, a: Action): Ideal
    requires IdealOk(s) && c < |s.cur| && s.cur[c].On?
  {
    s.(procs := s.procs[s.cur[c].p := Effect(s.procs[s.cur[c].p], a)])
  }

  function After(s: Ideal, actions: seq<Action>): (s': Ideal)
    requires IdealOk(s)
    ensures IdealOk(s') && |s'.procs| == |s.procs| && |s'.cur| == |s.cur|
    decreases |actions|
  {
    if actions == [] then s
    else Next(After(s, actions[..|actions| - 1]), actions[|actions| - 1])
  }

  /** The registers an action lets the process see. */
  function Sight(s: Ideal, a: Action): seq<Regs>
    requires IdealOk(s)
  {
    if Ready(s, a) && (a.Step? || (a.Odd? && s.procs[s.cur[a.c].p].touched)) then [s.procs[s.cur[a.c].p].regs] else []
  }

  /** What the instructions of a run see, in order. */
  function Sights(s: Ideal, actions: seq<Action>): seq<Regs>
    requires IdealOk(s)
    decreases |actions|
  {
    if actions == [] then []
    else
      var rest := actions[..|actions| - 1];
      Sights(s, rest) + Sight(After(s, rest), actions[|actions| - 1])
  }

  /** The same but for what the last switch left behind. */
  ghost predicate Alike(s: Ideal, t: Ideal) {
    && s.cur == t.cur && s.user == t.user && |s.procs| == |t.procs|
    && forall p :: 0 <= p < |s.procs| ==> s.procs[p].regs == t.procs[p].regs && s.procs[p].killed == t.procs[p].killed
  }

  lemma SameNext(s: Ideal, t: Ideal, a: Action)
    requires IdealOk(s) && IdealOk(t) && Alike(s, t) && !a.Bad? && !a.Odd?
    ensures Alike(Next(s, a), Next(t, a)) && Sight(s, a) == Sight(t, a)
  {
    assert Ready(s, a) == Ready(t, a);
  }

  /** With only instructions the handler knows, the last switch makes no difference: a process sees
      what it last wrote, wherever it was run in between. */
  lemma {:induction false} SwitchesHidden(s: Ideal, t: Ideal, actions: seq<Action>)
    requires IdealOk(s) && IdealOk(t) && Alike(s, t)
    requires forall a :: a in actions ==> !a.Bad? && !a.Odd?
    ensures Alike(After(s, actions), After(t, actions)) && Sights(s, actions) == Sights(t, actions)
    decreases |actions|
  {
    if actions != [] {
      hide Next, Sight, Alike;
      var rest, a := actions[..|actions| - 1], actions[|actions| - 1];
      SwitchesHidden(s, t, rest);
      assert a in actions;
      SameNext(After(s, rest), After(t, rest), a);
    }
  }

  lemma AfterTwo(s: Ideal, a: Action, b: Action)
    requires IdealOk(s)
    ensures After(s, [a, b]) == Next(Next(s, a), b)
  {
    hide Next;
    assert [a, b][..1] == [a] && [a][..0] == [];
    assert After(s, [a]) == Next(s, a);
  }

  /** With an illegal instruction, whatever a process wrote since its last switch is lost. */
  lemma IllegalReverts(s: Ideal, c: nat, op: Regs -> Regs)
    requires IdealOk(s) && c < |s.cur| && s.user[c]
    ensures var p, t := s.cur[c].p, After(s, [Step(c, op), Bad(c)]);
            t.procs == s.procs[p := s.procs[p].(regs := s.procs[p].snap, touched := true)] && t.cur == s.cur
  {
    AfterTwo(s, Step(c, op), Bad(c));
    hide After;
    var p, t := s.cur[c].p, Next(s, Step(c, op));
    assert t.cur == s.cur && t.user == s.user && t.procs == s.procs[p := Effect(s.procs[p], Step(c, op))];
    assert Next(t, Bad(c)).procs == t.procs[p := Effect(t.procs[p], Bad(c))];
  }

  /** Where the registers of process `p` are: in a CPU, saved, or still zero. */
  ghost predicate ProcOk(procs: seq<Proc>, cpus: seq<Cpu>, view: seq<Priv>, p: nat)
    requires |view| == |procs| && p < |procs|
  {
    && view[p].touched == procs[p].active && view[p].killed == procs[p].killed
    && (if procs[p].active then
          procs[p].used && procs[p].saved == view[p].snap && exists c :: 0 <= c < |cpus| && cpus[c].cur == On(p)
        else view[p].regs == view[p].snap == if procs[p].used then procs[p].saved else Zero())
  }

  ghost predicate CpuOk(procs: seq<Proc>, cpus: seq<Cpu>, view: seq<Priv>, c: nat)
    requires |view| == |procs| && c < |cpus|
  {
    && (cpus[c].user ==> cpus[c].cur.On?)
    && (cpus[c].cur.On? ==>
          && cpus[c].cur.p < |procs|
          && (procs[cpus[c].cur.p].active ==> cpus[c].regs == view[cpus[c].cur.p].regs)
          && (cpus[c].user ==> cpus[c].fs == procs[cpus[c].cur.p].active && !procs[cpus[c].cur.p].killed))
  }

  /** No process is on two CPUs. */
  ghost predicate Apart(cpus: seq<Cpu>) {
    forall c, d :: 0 <= c < |cpus| && 0 <= d < |cpus| && c != d && cpus[c].cur.On? ==> cpus[c].cur != cpus[d].cur
  }

  ghost predicate Refines(procs: seq<Proc>, cpus: seq<Cpu>, view: seq<Priv>) {
    && |view| == |procs| && Apart(cpus)
    && (forall p :: 0 <= p < |procs| ==> ProcOk(procs, cpus, view, p))
    && (forall c :: 0 <= c < |cpus| ==> CpuOk(procs, cpus, view, c))
  }

  /** At most one process is active on a CPU, and none is active off its CPU. */
  lemma OneActive(procs: seq<Proc>, cpus: seq<Cpu>, view: seq<Priv>, p: nat, c: nat)
    requires Refines(procs, cpus, view) && p < |procs| && c < |cpus| && procs[p].active && cpus[c].cur != On(p)
    ensures exists d :: 0 <= d < |cpus| && d != c && cpus[d].cur == On(p) && cpus[d].regs == view[p].regs
  {
    assert ProcOk(procs, cpus, view, p);
    var d :| 0 <= d < |cpus| && cpus[d].cur == On(p);
    assert CpuOk(procs, cpus, view, d);
  }

  /** fpu_handle_trap leaves a process what it had just when its registers are not in the CPU, or
      are there and unchanged since they were last saved. */
  lemma TrapKeeps(procs: seq<Proc>, cpus: seq<Cpu>, view: seq<Priv>, p: nat, c: nat)
    requires Refines(procs, cpus, view) && p < |procs| && c < |cpus| && cpus[c].cur == On(p)
    ensures view[p].snap == view[p].regs <==> !procs[p].active || procs[p].saved == cpus[c].regs
  {
    assert ProcOk(procs, cpus, view, p) && CpuOk(procs, cpus, view, c);
  }

  /** A CPU that changes without its registers mattering to an active process. */
  lemma Keep(procs: seq<Proc>, cpus: seq<Cpu>, view: seq<Priv>, c: nat, f: Cpu)
    requires Refines(procs, cpus, view) && c < |cpus| && f.regs == cpus[c].regs
    requires CpuOk(procs, cpus[c := f], view, c)
    requires || f.cur == cpus[c].cur
             || (f.cur.On? && cpus[c].cur.Idle? && forall d :: 0 <= d < |cpus| ==> cpus[d].cur != f.cur)
             || (f.cur.Idle? && cpus[c].cur.On? && cpus[c].cur.p < |procs| && !procs[cpus[c].cur.p].active)
    ensures Refines(procs, cpus[c := f], view)
  {
    var cpus' := cpus[c := f];
    forall p | 0 <= p < |procs| ensures ProcOk(procs, cpus', view, p) {
      assert ProcOk(procs, cpus, view, p);
      if procs[p].active {
        var d :| 0 <= d < |cpus| && cpus[d].cur == On(p);
        assert cpus'[d].cur == On(p);
      }
    }
    forall d | 0 <= d < |cpus'| ensures CpuOk(procs, cpus', view, d) {
      assert CpuOk(procs, cpus, view, d);
    }
  }

  /** Process `p`, on CPU `c`, and that CPU change together. */
  lemma Moved(procs: seq<Proc>, cpus: seq<Cpu>, view: seq<Priv>, procs': seq<Proc>, cpus': seq<Cpu>, view': seq<Priv>,
              p: nat, c: nat)
    requires Refines(procs, cpus, view) && p < |procs| == |procs'| == |view'|
    requires c < |cpus| == |cpus'| && cpus[c].cur == On(p) && cpus'[c].cur == On(p)
    requires forall q :: 0 <= q < |procs| && q != p ==> procs'[q] == procs[q] && view'[q] == view[q]
    requires forall d :: 0 <= d < |cpus| && d != c ==> cpus'[d] == cpus[d]
    requires CpuOk(procs', cpus', view', c) && ProcOk(procs', cpus', view', p)
    ensures Refines(procs', cpus', view')
  {
    forall q | 0 <= q < |procs| ensures ProcOk(procs', cpus', view', q) {
      assert ProcOk(procs, cpus, view, q);
      if q != p && procs[q].active {
        var d :| 0 <= d < |cpus| && cpus[d].cur == On(q);
        assert cpus'[d].cur == On(q);
      }
    }
    forall d | 0 <= d < |cpus| ensures CpuOk(procs', cpus', view', d) {
      assert CpuOk(procs, cpus, view, d);
    }
  }

  /** A process on no CPU changes. */
  lemma Replace(procs: seq<Proc>, cpus: seq<Cpu>, view: seq<Priv>, p: nat, f: Proc, v: Regs)
    requires Refines(procs, cpus, view) && p < |procs| && !f.active && !f.killed
    requires v == (if f.used then f.saved else Zero()) && forall d :: 0 <= d < |cpus| ==> cpus[d].cur != On(p)
    ensures Refines(procs[p := f], cpus, view[p := Fresh(v)])
  {
    var procs', view' := procs[p := f], view[p := Fresh(v)];
    forall q | 0 <= q < |procs| ensures ProcOk(procs', cpus, view', q) {
      assert ProcOk(procs, cpus, view, q);
    }
    forall d | 0 <= d < |cpus| ensures CpuOk(procs', cpus, view', d) {
      assert CpuOk(procs, cpus, view, d);
    }
  }

  /** The same processes in the same mode on every CPU. */
  ghost predicate SameCpus(cpus: seq<Cpu>, cpus': seq<Cpu>) {
    |cpus'| == |cpus| && forall d :: 0 <= d < |cpus| ==> cpus'[d].cur == cpus[d].cur && cpus'[d].user == cpus[d].user
  }

  /** The private-register machine that this one behaves like. */
  ghost function AbsOf(cpus: seq<Cpu>, view: seq<Priv>): (s: Ideal)
    ensures |s.cur| == |s.user| == |cpus| && s.procs == view
    ensures forall c :: 0 <= c < |cpus| ==> s.cur[c] == cpus[c].cur && s.user[c] == cpus[c].user
  {
    Ideal(seq(|cpus|, c requires 0 <= c < |cpus| => cpus[c].cur),
          seq(|cpus|, c requires 0 <= c < |cpus| => cpus[c].user), view)
  }

  lemma Unready(s: Ideal, a: Action)
    requires IdealOk(s) && !Ready(s, a)
    ensures Next(s, a) == s && Sight(s, a) == []
  {
  }

  lemma SameIdeal(s: Ideal, t: Ideal)
    requires |s.cur| == |t.cur| && |s.user| == |t.user| && s.procs == t.procs
    requires (forall c :: 0 <= c < |s.cur| ==> s.cur[c] == t.cur[c]) &&
             forall c :: 0 <= c < |s.user| ==> s.user[c] == t.user[c]
    ensures s == t
  {
  }

  class Machine {
    var procs: seq<Proc>
    var cpus: seq<Cpu>
    /** The processes with private registers. */
    ghost var view: seq<Priv>

    ghost predicate Valid()
      reads this
    {
      Refines(procs, cpus, view)
    }

    ghost function Abs(): Ideal
      reads this
    {
      AbsOf(cpus, view)
    }

    predicate NotOn(p: nat)
      reads this
      ensures NotOn(p) <==> OffCpu(Abs().cur, p)
    {
      forall d :: 0 <= d < |cpus| ==> cpus[d].cur != On(p)
    }

    lemma AbsOk()
      requires Valid()
      ensures IdealOk(Abs()) && |Abs().procs| == |procs|
      ensures forall p :: 0 <= p < |procs| ==> view[p].touched == procs[p].active && view[p].killed == procs[p].killed
    {
      forall c | 0 <= c < |cpus|
        ensures (cpus[c].cur.On? ==> cpus[c].cur.p < |procs|) && (cpus[c].user ==> cpus[c].cur.On?)
      {
        assert CpuOk(procs, cpus, view, c);
      }
      forall p | 0 <= p < |procs|
        ensures view[p].touched == procs[p].active && view[p].killed == procs[p].killed
      {
        assert ProcOk(procs, cpus, view, p);
      }
    }

    constructor (nproc: nat, ncpu: nat)
      ensures Valid() && |procs| == nproc && |cpus| == ncpu
      ensures forall p :: 0 <= p < nproc ==> !procs[p].used && !procs[p].active && !procs[p].killed
      ensures forall c :: 0 <= c < ncpu ==> cpus[c].cur == Idle && !cpus[c].user && !cpus[c].fs
      ensures Abs() == Ideal(seq(ncpu, _ => Idle), seq(ncpu, _ => false), seq(nproc, _ => Fresh(Zero())))
    {
      procs := seq(nproc, _ => Proc(false, false, Zero(), false));
      cpus := seq(ncpu, _ => Cpu(Idle, false, false, Zero()));
      view := seq(nproc, _ => Fresh(Zero()));
    }

    /** The scheduler switches CPU `c` to process `p`. */
    method Dispatch(c: nat, p: nat)
      requires Valid() && c < |cpus| && cpus[c].cur.Idle? && p < |procs|
      requires forall d :: 0 <= d < |cpus| ==> cpus[d].cur != On(p)
      modifies this`cpus
      ensures Valid() && cpus == old(cpus)[c := old(cpus)[c].(cur := On(p), user := false)]
      ensures IdealOk(old(Abs())) && Abs() == Next(old(Abs()), Switch(c, p))
    {
      AbsOk();
      ghost var s := Abs();
      assert !procs[p].active by { assert ProcOk(procs, cpus, view, p); }
      Keep(procs, cpus, view, c, cpus[c].(cur := On(p), user := false));
      cpus := cpus[c := cpus[c].(cur := On(p), user := false)];
      SameIdeal(Abs(), Next(s, Switch(c, p)));
    }

    /** fpu_save_proc for the process on CPU `c`: its registers are saved if they are here. */
    method Save(c: nat)
      requires Valid() && c < |cpus| && cpus[c].cur.On? && !cpus[c].user
      modifies this`cpus, this`procs, this`view
      ensures Valid() && cpus == old(cpus)[c := old(cpus)[c].(fs := false)] && |procs| == |old(procs)|
      ensures |old(view)| == |procs| && cpus[c].cur.p < |procs|
      ensures view == old(view)[cpus[c].cur.p := Effect(old(view)[cpus[c].cur.p], Yield(c))]
      ensures procs == old(procs)[cpus[c].cur.p := procs[cpus[c].cur.p]] && !procs[cpus[c].cur.p].active
    {
      var p := cpus[c].cur.p;
      assert CpuOk(procs, cpus, view, c) && ProcOk(procs, cpus, view, p);
      ghost var ps, cs, vs := procs, cpus, view;
      if procs[p].active {
        procs := procs[p := procs[p].(active := false, saved := cpus[c].regs)];
      }
      cpus := cpus[c := cpus[c].(fs := false)];
      view := view[p := Effect(view[p], Yield(c))];
      Moved(ps, cs, vs, procs, cpus, view, p, c);
    }

    /** sched: the process leaves the CPU. */
    method Deschedule(c: nat)
      requires Valid() && c < |cpus| && cpus[c].cur.On? && !cpus[c].user
      modifies this`cpus, this`procs, this`view
      ensures Valid() && cpus == old(cpus)[c := old(cpus)[c].(cur := Idle, fs := false)] && |procs| == |old(procs)|
      ensures IdealOk(old(Abs())) && Abs() == Next(old(Abs()), Yield(c))
    {
      AbsOk();
      ghost var s := Abs();
      Save(c);
      Keep(procs, cpus, view, c, cpus[c].(cur := Idle));
      cpus := cpus[c := cpus[c].(cur := Idle)];
      SameIdeal(Abs(), Next(s, Yield(c)));
    }

    /** A trap into the kernel. */
    method Trap(c: nat)
      requires Valid() && c < |cpus| && cpus[c].user
      modifies this`cpus
      ensures Valid() && cpus == old(cpus)[c := old(cpus)[c].(user := false)]
      ensures IdealOk(old(Abs())) && Abs() == Next(old(Abs()), Leave(c))
    {
      AbsOk();
      ghost var s := Abs();
      assert CpuOk(procs, cpus, view, c);
      Keep(procs, cpus, view, c, cpus[c].(user := false));
      cpus := cpus[c := cpus[c].(user := false)];
      SameIdeal(Abs(), Next(s, Leave(c)));
    }

    /** prepare_return and the return to user code: the unit is on just if the process is active. */
    method Return(c: nat)
      requires Valid() && c < |cpus| && cpus[c].cur.On? && !cpus[c].user
      requires cpus[c].cur.p < |procs| && !procs[cpus[c].cur.p].killed
      modifies this`cpus
      ensures Valid() && old(cpus)[c].cur.p < |procs|
      ensures cpus == old(cpus)[c := old(cpus)[c].(user := true, fs := procs[old(cpus)[c].cur.p].active)]
      ensures IdealOk(old(Abs())) && Abs() == Next(old(Abs()), Enter(c))
    {
      AbsOk();
      ghost var s := Abs();
      assert CpuOk(procs, cpus, view, c);
      var f := cpus[c].(user := true, fs := procs[cpus[c].cur.p].active);
      Keep(procs, cpus, view, c, f);
      cpus := cpus[c := f];
      SameIdeal(Abs(), Next(s, Enter(c)));
    }

    /** fpu_handle_trap: the CPU's registers become what was last saved, zero the first time. */
    method HandleTrap(c: nat)
      requires Valid() && c < |cpus| && cpus[c].cur.On? && !cpus[c].user
      modifies this`cpus, this`procs, this`view
      ensures Valid() && |cpus| == |old(cpus)| && |procs| == |old(procs)|
      ensures cpus == old(cpus)[c := old(cpus)[c].(fs := true, regs := cpus[c].regs)] && cpus[c].cur.p < |procs|
      ensures procs[cpus[c].cur.p].active && procs == old(procs)[cpus[c].cur.p := procs[cpus[c].cur.p]]
      ensures procs[cpus[c].cur.p].killed == old(procs)[cpus[c].cur.p].killed
      ensures |old(view)| == |procs| && view == old(view)[cpus[c].cur.p := Effect(old(view)[cpus[c].cur.p], Bad(c))]
    {
      var p := cpus[c].cur.p;
      assert CpuOk(procs, cpus, view, c) && ProcOk(procs, cpus, view, p);
      ghost var ps, cs, vs := procs, cpus, view;
      var saved := if procs[p].used then procs[p].saved else Zero();
      procs := procs[p := Proc(true, true, saved, procs[p].killed)];
      cpus := cpus[c := cpus[c].(fs := true, regs := saved)];
      view := view[p := Effect(view[p], Bad(c))];
      Moved(ps, cs, vs, procs, cpus, view, p, c);
    }

    /** usertrap for an instruction with a known floating-point opcode. */
    method TakeTrap(c: nat)
      requires Valid() && c < |cpus| && cpus[c].user
      modifies this`cpus, this`procs, this`view
      ensures Valid() && |view| == |old(view)| == |procs| && SameCpus(old(cpus), cpus) && cpus[c].fs
      ensures old(cpus)[c].cur.On? && old(cpus)[c].cur.p < |view|
      ensures view == old(view)[old(cpus)[c].cur.p := Effect(old(view)[old(cpus)[c].cur.p], Bad(c))]
    {
      assert CpuOk(procs, cpus, view, c);
      hide Next, Refines;
      Trap(c);
      HandleTrap(c);
      Return(c);
    }

    /** A floating-point instruction of the process on CPU `c`: if the unit is off it traps, the
        kernel hands the registers over, and it is executed again. What it sees is what this process
        last wrote. */
    method Execute(c: nat, op: Regs -> Regs) returns (seen: Regs)
      requires Valid() && c < |cpus| && cpus[c].user
      modifies this`cpus, this`procs, this`view
      ensures Valid() && |view| == |old(view)| == |procs| && SameCpus(old(cpus), cpus)
      ensures old(cpus)[c].cur.On? && old(cpus)[c].cur.p < |view| && seen == old(view)[old(cpus)[c].cur.p].regs
      ensures IdealOk(old(Abs())) && Abs() == Next(old(Abs()), Step(c, op))
    {
      AbsOk();
      ghost var s := Abs();
      assert CpuOk(procs, cpus, view, c) && ProcOk(procs, cpus, view, cpus[c].cur.p);
      if !cpus[c].fs {
        TakeTrap(c);
      }
      seen := Compute(c, op);
      SameIdeal(Abs(), Next(s, Step(c, op)));
    }

    /** The unit carries out an instruction. */
    method Compute(c: nat, op: Regs -> Regs) returns (seen: Regs)
      requires Valid() && c < |cpus| && cpus[c].user && cpus[c].fs
      modifies this`cpus, this`view
      ensures Valid() && |view| == |old(view)| == |procs| && SameCpus(old(cpus), cpus)
      ensures old(cpus)[c].cur.On? && old(cpus)[c].cur.p < |view| && seen == old(view)[old(cpus)[c].cur.p].regs
      ensures view == old(view)[old(cpus)[c].cur.p := old(view)[old(cpus)[c].cur.p].(regs := op(seen))]
      ensures view[old(cpus)[c].cur.p].touched
    {
      assert CpuOk(procs, cpus, view, c);
      var p := cpus[c].cur.p;
      assert ProcOk(procs, cpus, view, p);
      ghost var vs, cs := view, cpus;
      seen := cpus[c].regs;
      cpus := cpus[c := cpus[c].(regs := op(seen))];
      view := view[p := view[p].(regs := op(seen))];
      Moved(procs, cs, vs, procs, cpus, view, p, c);
    }

    /** An instruction with a known opcode that is illegal even with the unit on: the kernel takes it
        for a first use and loads the saved registers. */
    method Illegal(c: nat)
      requires Valid() && c < |cpus| && cpus[c].user
      modifies this`cpus, this`procs, this`view
      ensures Valid() && |view| == |old(view)| == |procs| && SameCpus(old(cpus), cpus)
      ensures IdealOk(old(Abs())) && Abs() == Next(old(Abs()), Bad(c))
    {
      AbsOk();
      ghost var s := Abs();
      TakeTrap(c);
      SameIdeal(Abs(), Next(s, Bad(c)));
    }

    /** An instruction that uses the unit with an opcode the handler does not know: with the unit off
        the process is killed, with the unit on the instruction is carried out. */
    method Unknown(c: nat, op: Regs -> Regs) returns (killed: bool, seen: Regs)
      requires Valid() && c < |cpus| && cpus[c].user
      modifies this`cpus, this`procs, this`view
      ensures Valid() && |view| == |old(view)| == |procs| && |cpus| == |old(cpus)|
      ensures old(cpus)[c].cur.On? && old(cpus)[c].cur.p < |view| && killed == !old(view)[old(cpus)[c].cur.p].touched
      ensures !killed ==> seen == old(view)[old(cpus)[c].cur.p].regs
      ensures IdealOk(old(Abs())) && Abs() == Next(old(Abs()), Odd(c, op))
    {
      AbsOk();
      ghost var s := Abs();
      assert CpuOk(procs, cpus, view, c) && ProcOk(procs, cpus, view, cpus[c].cur.p);
      killed := !cpus[c].fs;
      if killed {
        seen := [];
        Trap(c);
        Kill(c);
      } else {
        seen := Compute(c, op);
      }
      SameIdeal(Abs(), Next(s, Odd(c, op)));
    }

    /** setkilled for the process on CPU `c`. */
    method Kill(c: nat)
      requires Valid() && c < |cpus| && cpus[c].cur.On? && !cpus[c].user
      modifies this`procs, this`view
      ensures Valid() && |view| == |old(view)| == |procs| && cpus[c].cur.p < |view|
      ensures view == old(view)[cpus[c].cur.p := old(view)[cpus[c].cur.p].(killed := true)]
    {
      var p := cpus[c].cur.p;
      assert CpuOk(procs, cpus, view, c) && ProcOk(procs, cpus, view, p);
      ghost var ps, vs := procs, view;
      procs := procs[p := procs[p].(killed := true)];
      view := view[p := view[p].(killed := true)];
      Moved(ps, cpus, vs, procs, cpus, view, p, c);
    }

    /** kfork's part: the child starts with the parent's registers. */
    method Fork(c: nat, child: nat)
      requires Valid() && c < |cpus| && cpus[c].cur.On? && !cpus[c].user && child < |procs|
      requires forall d :: 0 <= d < |cpus| ==> cpus[d].cur != On(child)
      modifies this
      ensures Valid() && cpus == old(cpus)[c := old(cpus)[c].(fs := false)] && |procs| == |old(procs)| == |old(view)|
      ensures cpus[c].cur.p < |old(view)| && |view| == |old(view)|
      ensures view[child] == Fresh(old(view)[cpus[c].cur.p].regs)
      ensures IdealOk(old(Abs())) && Abs() == Next(old(Abs()), Spawn(c, child))
    {
      AbsOk();
      ghost var s := Abs();
      Save(c);
      var p := cpus[c].cur.p;
      assert ProcOk(procs, cpus, view, p) && ProcOk(procs, cpus, view, child);
      var f := Proc(procs[p].used, false, procs[p].saved, false);
      Replace(procs, cpus, view, child, f, view[p].regs);
      view := view[child := Fresh(view[p].regs)];
      procs := procs[child := f];
      SameIdeal(Abs(), Next(s, Spawn(c, child)));
    }

    /** freeproc's part: the slot's next process starts from zero. */
    method Free(p: nat)
      requires Valid() && p < |procs| && forall d :: 0 <= d < |cpus| ==> cpus[d].cur != On(p)
      modifies this`procs, this`view
      ensures Valid() && |old(view)| == |procs| == |old(procs)| && view == old(view)[p := Fresh(Zero())]
      ensures IdealOk(old(Abs())) && Abs() == Next(old(Abs()), Reap(p))
    {
      AbsOk();
      ghost var s := Abs();
      Replace(procs, cpus, view, p, Proc(false, false, Zero(), false), Zero());
      procs := procs[p := Proc(false, false, Zero(), false)];
      view := view[p := Fresh(Zero())];
      SameIdeal(Abs(), Next(s, Reap(p)));
    }

    /** One action, if it can happen. */
    method Apply(a: Action) returns (seen: seq<Regs>)
      requires Valid()
      modifies this
      ensures Valid() && IdealOk(old(Abs())) && Abs() == Next(old(Abs()), a) && seen == Sight(old(Abs()), a)
    {
      AbsOk();
      ghost var s := Abs();
      seen := [];
      if !Ready(s, a) { Unready(s, a); }
      hide Refines, AbsOf, Next;
      match a {
        case Switch(c, p) => if c < |cpus| && cpus[c].cur.Idle? && p < |procs| && NotOn(p) { Dispatch(c, p); }
        case Enter(c) =>
          if c < |cpus| && cpus[c].cur.On? && !cpus[c].user && !procs[cpus[c].cur.p].killed { Return(c); }
        case Leave(c) => if c < |cpus| && cpus[c].user { Trap(c); }
        case Step(c, op) =>
          if c < |cpus| && cpus[c].user {
            var r := Execute(c, op);
            seen := [r];
          }
        case Bad(c) => if c < |cpus| && cpus[c].user { Illegal(c); }
        case Odd(c, op) =>
          if c < |cpus| && cpus[c].user {
            var killed, r := Unknown(c, op);
            if !killed { seen := [r]; }
          }
        case Yield(c) => if c < |cpus| && cpus[c].cur.On? && !cpus[c].user { Deschedule(c); }
        case Spawn(c, child) =>
          if c < |cpus| && cpus[c].cur.On? && !cpus[c].user && child < |procs| && NotOn(child) { Fork(c, child); }
        case Reap(p) => if p < |procs| && NotOn(p) { Free(p); }
      }
    }

    /** Any actions in any order: the machine with one register file per CPU behaves like the one
        with a register file per process, and every instruction sees what it would see there. */
    method Run(actions: seq<Action>) returns (seen: seq<Regs>)
      requires Valid()
      modifies this
      ensures Valid() && IdealOk(old(Abs())) && Abs() == After(old(Abs()), actions)
      ensures seen == Sights(old(Abs()), actions)
    {
      hide Refines, Next, Ready, Sight;
      AbsOk();
      seen := [];
      for k := 0 to |actions|
        invariant Valid() && Abs() == After(old(Abs()), actions[..k]) && seen == Sights(old(Abs()), actions[..k])
      {
        assert actions[..k + 1][..k] == actions[..k];
        var more := Apply(actions[k]);
        seen := seen + more;
      }
      assert actions[..|actions|] == actions;
    }
  }

  /** A real loss: a process writes ones, executes an illegal instruction and reads zeros. */
  method LossHappens(ones: Regs) returns (wrote: Regs, seen: Regs)
    ensures wrote == ones && |seen| == 33 && forall k :: 0 <= k < |seen| ==> seen[k] == 0
  {
    hide Refines;
    var m := new Machine(1, 1);
    m.Dispatch(0, 0);
    m.AbsOk();
    m.Return(0);
    var _ := m.Execute(0, _ => ones);
    wrote := m.Execute(0, r => r);
    m.Illegal(0);
    seen := m.Execute(0, r => r);
  }

  /** The process on CPU 0 runs user code. */
  ghost predicate InUser(m: Machine)
    reads m
  {
    && m.Valid() && |m.cpus| == |m.procs| == |m.view| == 1 && m.cpus[0].cur == On(0) && m.cpus[0].user
    && !m.view[0].killed
  }

  /** It is switched off its CPU and on again. */
  method Switched(m: Machine)
    requires InUser(m)
    modifies m
    ensures InUser(m) && !m.view[0].touched
  {
    hide Refines, Zero;
    m.Trap(0);
    m.Deschedule(0);
    m.Dispatch(0, 0);
    m.AbsOk();
    m.Return(0);
  }

  /** The first process is switched to and enters user code. */
  method Started() returns (m: Machine)
    ensures fresh(m) && InUser(m)
  {
    hide Refines, Zero;
    m := new Machine(1, 1);
    m.Dispatch(0, 0);
    m.AbsOk();
    m.Return(0);
  }

  /** A real kill: an instruction the handler does not know is carried out right after one that it
      does, and kills the process if that was switched off its CPU in between. */
  method KillHappens(op: Regs -> Regs, switched: bool) returns (killed: bool)
    ensures killed == switched
  {
    hide Refines, Zero;
    var m := Started();
    var seen := m.Execute(0, op);
    if switched { Switched(m); }
    killed, seen := m.Unknown(0, op);
  }
}
