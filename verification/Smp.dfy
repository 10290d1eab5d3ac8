/** Several CPUs, one environment table, one lock: tps/kern/trap.c, sched.c, env.c, spinlock.c.

    The steps of taking and releasing the big kernel lock are modelled one by one.  What a CPU does
    between recording that it holds the lock and giving it back is one step, because no other CPU
    can be there at the same time; that this is so is one of the theorems.  */
module Smp {

  import opened Options

  const NENV := 1024

  datatype Status = FREE | DYING | RUNNABLE | RUNNING | NOT_RUNNABLE

  datatype Env = Env(status: Status, recving: bool)

  /** What a user environment or the timer asks of the kernel; environments are named by their slot. */
  datatype Call =
    | Yield                                  // sys_yield, or a timer interrupt
    | Other                                  // a trap that returns without touching any status
    | Exofork(slot: nat)                     // slot is the head of env_free_list
    | Recv
    | Send(target: nat, fails: bool)         // fails: one of the page checks is not passed
    | SetStatus(target: nat, st: Status)
    | Destroy(target: nat)

  /** Where a CPU is. */
  datatype Mode =
    | User                                   // executing its current environment
    | Idle                                   // in the hlt loop of sched_halt
    | Locking(calls: nat, user: bool)        // in trap or mp_main, with this many lock_kernel calls ahead
    | Spinning(calls: nat, user: bool)       // in the xchg loop of spin_lock
    | Got(calls: nat, user: bool)            // the xchg returned 0, lk->cpu not yet set
    | Kernel(user: bool)                     // inside the kernel
    | Leaving(next: Next)                    // in spin_unlock
    | Unrecorded(next: Next)                 // lk->cpu cleared, lk->locked not yet
    | Monitor                                // in the kernel monitor, for good
    | Panicked                               // a check of spin_lock or spin_unlock failed

  datatype Next = ToUser | ToIdle

  datatype Cpu = Cpu(halted: bool, cur: Option<nat>, mode: Mode)

  datatype State = State(envs: seq<Env>, cpus: seq<Cpu>, locked: bool, holder: Option<nat>)

  // ---------------------------------------------------------------------------------------------
  // The scheduler.

  function Slot(i: nat): (r: nat)
    ensures r < NENV
  {
    i % NENV
  }

  /** The first RUNNABLE slot among n slots from i on, in circular order (sched.c:33-39). */
  function FirstRunnable(envs: seq<Env>, i: nat, n: nat): (r: Option<nat>)
    requires |envs| == NENV
    ensures r.Some? ==> r.value < NENV && envs[r.value].status == RUNNABLE
    decreases n
  {
    if n == 0 then None
    else if envs[Slot(i)].status == RUNNABLE then Some(Slot(i))
    else FirstRunnable(envs, i + 1, n - 1)
  }

  /** The loop of sched_yield finds the nearest RUNNABLE slot and looks at every slot but one. */
  method Search(envs: seq<Env>, cur: Option<nat>) returns (r: Option<nat>)
    requires |envs| == NENV && (cur.Some? ==> cur.value < NENV)
    ensures r == FirstRunnable(envs, if cur.Some? then cur.value + 1 else 0, NENV - 1)
    ensures r.None? ==> forall k :: 0 <= k < NENV && envs[k].status == RUNNABLE ==>
              k == if cur.Some? then cur.value else NENV - 1
  {
    var start := if cur.Some? then cur.value + 1 else 0;
    var i := start;
    while i < start + NENV - 1
      invariant start <= i <= start + NENV - 1
      invariant FirstRunnable(envs, start, NENV - 1) == FirstRunnable(envs, i, start + NENV - 1 - i)
      invariant forall j :: start <= j < i ==> envs[Slot(j)].status != RUNNABLE
    {
      if envs[Slot(i)].status == RUNNABLE {
        return Some(Slot(i));
      }
      i := i + 1;
    }
    forall k | 0 <= k < NENV && envs[k].status == RUNNABLE
      ensures k == if cur.Some? then cur.value else NENV - 1
    {
      var j := if k >= start then k else k + NENV;
      assert Slot(j) == k;
    }
    r := None;
  }

  function SetEnv(s: State, e: nat, v: Env): State
    requires e < |s.envs|
  {
    State(s.envs[e := v], s.cpus, s.locked, s.holder)
  }

  function SetStat(s: State, e: nat, st: Status): State
    requires e < |s.envs|
  {
    SetEnv(s, e, s.envs[e].(status := st))
  }

  function SetCpu(s: State, c: nat, v: Cpu): State
    requires c < |s.cpus|
  {
    State(s.envs, s.cpus[c := v], s.locked, s.holder)
  }

  predicate Sized(s: State) {
    |s.envs| == NENV && forall c :: 0 <= c < |s.cpus| && s.cpus[c].cur.Some? ==> s.cpus[c].cur.value < NENV
  }

  /** env_run (env.c:518-550) up to unlock_kernel. */
  function Ran(s: State, c: nat, e: nat): (r: State)
    requires Sized(s) && c < |s.cpus| && e < NENV
    ensures Sized(r) && |r.cpus| == |s.cpus|
  {
    var cur := s.cpus[c].cur;
    var s1 := if cur.Some? && s.envs[cur.value].status == RUNNING then SetStat(s, cur.value, RUNNABLE) else s;
    SetCpu(SetStat(s1, e, RUNNING), c, s.cpus[c].(cur := Some(e), mode := Leaving(ToUser)))
  }

  /** sched_halt (sched.c:52-81) up to unlock_kernel. */
  function Halted(s: State, c: nat): (r: State)
    requires Sized(s) && c < |s.cpus|
    ensures Sized(r) && |r.cpus| == |s.cpus|
  {
    if exists e :: 0 <= e < NENV && s.envs[e].status in {RUNNABLE, RUNNING, DYING} then
      SetCpu(s, c, Cpu(true, None, Leaving(ToIdle)))
    else
      SetCpu(s, c, s.cpus[c].(mode := Monitor))
  }

  /** sched_yield (sched.c:12-47). */
  function Yielded(s: State, c: nat): (r: State)
    requires Sized(s) && c < |s.cpus|
    ensures Sized(r) && |r.cpus| == |s.cpus|
  {
    var cur := s.cpus[c].cur;
    var found := FirstRunnable(s.envs, if cur.Some? then cur.value + 1 else 0, NENV - 1);
    if found.Some? then Ran(s, c, found.value)
    else if cur.Some? && s.envs[cur.value].status == RUNNING then Ran(s, c, cur.value)
    else Halted(s, c)
  }

  /** env_destroy (env.c:469-485) and what follows in trap. */
  function Destroyed(s: State, c: nat, e: nat): (r: State)
    requires Sized(s) && c < |s.cpus| && e < NENV
    ensures Sized(r) && |r.cpus| == |s.cpus|
  {
    if s.envs[e].status == RUNNING && s.cpus[c].cur != Some(e) then Finished(SetStat(s, e, DYING), c)
    else
      var s1 := SetStat(s, e, FREE);
      if s.cpus[c].cur == Some(e) then Yielded(SetCpu(s1, c, s.cpus[c].(cur := None)), c) else Finished(s1, c)
  }

  /** The end of trap (trap.c:328-331). */
  function Finished(s: State, c: nat): (r: State)
    requires Sized(s) && c < |s.cpus|
    ensures Sized(r) && |r.cpus| == |s.cpus|
  {
    var cur := s.cpus[c].cur;
    if cur.Some? && s.envs[cur.value].status == RUNNING then Ran(s, c, cur.value) else Yielded(s, c)
  }

  /** trap from the point where the lock is held (trap.c:303-331), for a trap from user mode. */
  function Served(s: State, c: nat, call: Call): (r: State)
    requires Sized(s) && c < |s.cpus| && s.cpus[c].cur.Some?
    ensures Sized(r) && |r.cpus| == |s.cpus|
  {
    var cur := s.cpus[c].cur.value;
    if s.envs[cur].status == DYING then
      Yielded(SetCpu(SetStat(s, cur, FREE), c, s.cpus[c].(cur := None)), c)
    else
      match call
      case Yield => Yielded(s, c)
      case Other => Finished(s, c)
      case Exofork(k) =>
        if k < NENV && s.envs[k].status == FREE then Finished(SetEnv(s, k, Env(NOT_RUNNABLE, false)), c)
        else Finished(s, c)
      case Recv => Yielded(SetEnv(s, cur, Env(NOT_RUNNABLE, true)), c)
      case Send(t, fails) =>
        if t < NENV && s.envs[t].status != FREE && s.envs[t].recving && !fails then
          Finished(SetEnv(s, t, Env(RUNNABLE, false)), c)
        else Finished(s, c)
      case SetStatus(t, st) =>
        if t < NENV && s.envs[t].status != FREE && (st == RUNNABLE || st == NOT_RUNNABLE) then
          Finished(SetStat(s, t, st), c)
        else Finished(s, c)
      case Destroy(t) =>
        if t < NENV && s.envs[t].status != FREE then Destroyed(s, c, t) else Finished(s, c)
  }

  // ---------------------------------------------------------------------------------------------
  // The steps of one CPU.

  datatype Event =
    | Trap(c: nat)
    | Check(c: nat)
    | Xchg(c: nat)
    | Record(c: nat)
    | Work(c: nat, call: Call)
    | Unrecord(c: nat)
    | Release(c: nat)

  predicate Holding(s: State, c: nat) { s.locked && s.holder == Some(c) }

  predicate Enabled(s: State, ev: Event) {
    && ev.c < |s.cpus|
    && match ev
       case Trap(c) => s.cpus[c].mode.User? || s.cpus[c].mode.Idle?
       case Check(c) => s.cpus[c].mode.Locking?
       case Xchg(c) => s.cpus[c].mode.Spinning?
       case Record(c) => s.cpus[c].mode.Got?
       case Work(c, _) => s.cpus[c].mode.Kernel? && (s.cpus[c].mode.user ==> s.cpus[c].cur.Some?)
       case Unrecord(c) => s.cpus[c].mode.Leaving?
       case Release(c) => s.cpus[c].mode.Unrecorded?
  }

  /** The next place after lock_kernel was called `calls` times too few. */
  function After(calls: nat, user: bool): Mode {
    if calls == 0 then Kernel(user) else Locking(calls, user)
  }

  function SetMode(s: State, c: nat, m: Mode): State
    requires c < |s.cpus|
  {
    SetCpu(s, c, s.cpus[c].(mode := m))
  }

  function Step(s: State, ev: Event): (r: State)
    requires Sized(s) && Enabled(s, ev)
    ensures Sized(r) && |r.cpus| == |s.cpus|
  {
    var c := ev.c;
    match ev
    // xchg(&cpu_status, CPU_STARTED): a halted CPU locks once for that, a user trap once more.
    case Trap(_) =>
      var user := s.cpus[c].mode.User?;
      var calls := (if s.cpus[c].halted then 1 else 0) + (if user then 1 else 0);
      SetCpu(s, c, Cpu(false, s.cpus[c].cur, After(calls, user)))
    case Check(_) =>
      var m := s.cpus[c].mode;
      SetMode(s, c, if Holding(s, c) then Panicked else Spinning(m.calls, m.user))
    case Xchg(_) =>
      var m := s.cpus[c].mode;
      if s.locked then s else State(s.envs, SetMode(s, c, Got(m.calls, m.user)).cpus, true, s.holder)
    case Record(_) =>
      var m := s.cpus[c].mode;
      State(s.envs, SetMode(s, c, After(if m.calls == 0 then 0 else m.calls - 1, m.user)).cpus, s.locked, Some(c))
    case Work(_, call) => if s.cpus[c].mode.user then Served(s, c, call) else Yielded(s, c)
    case Unrecord(_) =>
      if Holding(s, c) then State(s.envs, SetMode(s, c, Unrecorded(s.cpus[c].mode.next)).cpus, s.locked, None)
      else SetMode(s, c, Panicked)
    case Release(_) =>
      State(s.envs, SetMode(s, c, if s.cpus[c].mode.next.ToUser? then User else Idle).cpus, false, s.holder)
  }

  // ---------------------------------------------------------------------------------------------
  // The invariant.

  /** The CPU is past the xchg that took the lock and before the one that gives it back. */
  predicate Inside(m: Mode) {
    m.Got? || m.Kernel? || m.Leaving? || m.Unrecorded? || m.Monitor?
  }

  predicate Recorded(m: Mode) { m.Kernel? || m.Leaving? || m.Monitor? }

  ghost predicate LockOk(s: State) {
    && (s.locked <==> exists c :: 0 <= c < |s.cpus| && Inside(s.cpus[c].mode))
    && (forall c, d :: 0 <= c < |s.cpus| && 0 <= d < |s.cpus| ==>
          Inside(s.cpus[c].mode) && Inside(s.cpus[d].mode) ==> c == d)
    && (forall c :: 0 <= c < |s.cpus| ==> (s.holder == Some(c) <==> Recorded(s.cpus[c].mode)))
    && (s.holder.Some? ==> s.holder.value < |s.cpus|)
  }

  /** A CPU's fields agree with where it is. */
  predicate CpuOk(p: Cpu) {
    match p.mode
    case User => p.cur.Some? && !p.halted
    case Idle => p.cur.None? && p.halted
    case Locking(calls, user) => calls == 1 && !p.halted && (user <==> p.cur.Some?)
    case Spinning(calls, user) => calls == 1 && !p.halted && (user <==> p.cur.Some?)
    case Got(calls, user) => calls == 1 && !p.halted && (user <==> p.cur.Some?)
    case Kernel(user) => !p.halted && (user <==> p.cur.Some?)
    case Leaving(next) => if next.ToUser? then p.cur.Some? && !p.halted else p.cur.None? && p.halted
    case Unrecorded(next) => if next.ToUser? then p.cur.Some? && !p.halted else p.cur.None? && p.halted
    case Monitor => true
    case Panicked => false
  }

  predicate OnCpu(st: Status) { st == RUNNING || st == DYING }

  /** Environment e is the current environment of CPU c, which is not stuck in the monitor. */
  predicate Current(s: State, c: nat, e: nat) {
    c < |s.cpus| && s.cpus[c].cur == Some(e) && !s.cpus[c].mode.Monitor?
  }

  /** RUNNING or DYING exactly when current on exactly one CPU. */
  ghost predicate TableOk(s: State)
    requires Sized(s)
  {
    && (forall c, e: nat :: Current(s, c, e) ==> OnCpu(s.envs[e].status))
    && (forall c, d, e: nat :: Current(s, c, e) && Current(s, d, e) ==> c == d)
    && (forall e: nat :: e < NENV && OnCpu(s.envs[e].status) ==> exists c :: Current(s, c, e))
    && (forall e :: 0 <= e < NENV && s.envs[e].recving ==> s.envs[e].status == NOT_RUNNABLE || s.envs[e].status == FREE)
  }

  ghost predicate Inv(s: State) {
    Sized(s) && LockOk(s) && (forall c :: 0 <= c < |s.cpus| ==> CpuOk(s.cpus[c])) && TableOk(s)
  }

  // ---------------------------------------------------------------------------------------------
  // The steps around the lock keep the invariant.

  lemma LockStepKeeps(s: State, ev: Event)
    requires Inv(s) && Enabled(s, ev) && !ev.Work?
    ensures Inv(Step(s, ev))
  {
    var c := ev.c;
    var r := Step(s, ev);
    assert CpuOk(s.cpus[c]);
    assert forall d :: 0 <= d < |s.cpus| && d != c ==> r.cpus[d] == s.cpus[d];
    LockKept(s, ev);
    assert forall d, e: nat :: Current(s, d, e) <==> Current(r, d, e);
  }

  lemma LockStepCpu(s: State, ev: Event)
    requires Inv(s) && Enabled(s, ev) && !ev.Work?
    ensures CpuOk(Step(s, ev).cpus[ev.c])
    ensures forall d :: 0 <= d < |s.cpus| && d != ev.c ==> Step(s, ev).cpus[d] == s.cpus[d]
  {
    hide TableOk, Yielded, Served;
    assert CpuOk(s.cpus[ev.c]);
  }

  lemma LockKept(s: State, ev: Event)
    requires Inv(s) && Enabled(s, ev) && !ev.Work?
    ensures LockOk(Step(s, ev)) && CpuOk(Step(s, ev).cpus[ev.c])
  {
    hide TableOk, Yielded, Served;
    LockStepCpu(s, ev);
    var c := ev.c;
    var r := Step(s, ev);
    assert CpuOk(s.cpus[c]);
    assert Inside(s.cpus[c].mode) ==> s.locked;
    assert r.locked <==> exists d :: 0 <= d < |r.cpus| && Inside(r.cpus[d].mode) by {
      if d :| 0 <= d < |s.cpus| && Inside(s.cpus[d].mode) && d != c {
        assert Inside(r.cpus[d].mode) && r.locked;
      } else {
        assert Inside(r.cpus[c].mode) <==> r.locked;
      }
    }
  }

  // ---------------------------------------------------------------------------------------------
  // What the kernel does with the lock held keeps the invariant.

  /** What holds on entry to the scheduler: the invariant, but for CPU c and its current environment. */
  ghost predicate Ready(s: State, c: nat) {
    && Sized(s) && LockOk(s) && c < |s.cpus| && s.cpus[c].mode.Kernel? && !s.cpus[c].halted
    && (forall d :: 0 <= d < |s.cpus| && d != c ==> CpuOk(s.cpus[d]))
    && (forall d, e: nat :: d != c && Current(s, d, e) ==> OnCpu(s.envs[e].status))
    && (forall d, d', e: nat :: Current(s, d, e) && Current(s, d', e) ==> d == d')
    && (forall e: nat :: e < NENV && OnCpu(s.envs[e].status) ==> exists d :: Current(s, d, e))
    && (s.cpus[c].cur.Some? ==> s.envs[s.cpus[c].cur.value].status != DYING)
    && (forall e :: 0 <= e < NENV && s.envs[e].recving ==> s.envs[e].status == NOT_RUNNABLE || s.envs[e].status == FREE)
  }

  /** Moving one CPU between places of the kernel proper leaves the lock as it was. */
  lemma LockFrame(s: State, r: State, c: nat)
    requires LockOk(s) && c < |s.cpus| && Recorded(s.cpus[c].mode)
    requires r.locked == s.locked && r.holder == s.holder && |r.cpus| == |s.cpus|
    requires forall d :: 0 <= d < |s.cpus| && d != c ==> r.cpus[d] == s.cpus[d]
    requires Recorded(r.cpus[c].mode)
    ensures LockOk(r)
  {
    assert Inside(r.cpus[c].mode) && Inside(s.cpus[c].mode);
  }

  /** What the scheduler runs on c: a RUNNABLE environment, or the one that is still RUNNING there. */
  predicate MayRun(s: State, c: nat, e: nat)
    requires Sized(s) && c < |s.cpus| && e < NENV
  {
    s.envs[e].status == RUNNABLE || (s.cpus[c].cur == Some(e) && s.envs[e].status == RUNNING)
  }

  lemma EnvRunKeeps(s: State, c: nat, e: nat)
    requires Ready(s, c) && e < NENV && MayRun(s, c, e)
    ensures Inv(Ran(s, c, e))
  {
    hide After;
    var r := Ran(s, c, e);
    var cur := s.cpus[c].cur;
    LockFrame(s, r, c);
    assert forall d :: 0 <= d < |s.cpus| && d != c ==> r.cpus[d] == s.cpus[d];
    assert forall d, x: nat :: d != c ==> (Current(r, d, x) <==> Current(s, d, x));
    assert Current(r, c, e);
    assert forall x: nat :: Current(r, c, x) ==> x == e;
    assert cur.Some? ==> Current(s, c, cur.value);
    forall x: nat | x < NENV && OnCpu(r.envs[x].status)
      ensures exists d :: Current(r, d, x)
    {
      if x != e {
        assert OnCpu(s.envs[x].status);
        var d :| Current(s, d, x);
        assert d != c;
        assert Current(r, d, x);
      }
    }
  }

  lemma SchedHaltKeeps(s: State, c: nat)
    requires Ready(s, c)
    requires s.cpus[c].cur.Some? ==> s.envs[s.cpus[c].cur.value].status != RUNNING
    ensures Inv(Halted(s, c))
  {
    var r := Halted(s, c);
    LockFrame(s, r, c);
    assert forall d :: 0 <= d < |s.cpus| && d != c ==> r.cpus[d] == s.cpus[d];
    assert forall d, x: nat :: d != c ==> (Current(r, d, x) <==> Current(s, d, x));
    assert forall x: nat :: !Current(r, c, x);
    assert forall x: nat :: Current(s, c, x) ==> !OnCpu(s.envs[x].status);
    forall x: nat | x < NENV && OnCpu(r.envs[x].status)
      ensures exists d :: Current(r, d, x)
    {
      var d :| Current(s, d, x);
      assert Current(r, d, x);
    }
  }

  lemma SchedYieldKeeps(s: State, c: nat)
    requires Ready(s, c)
    ensures Inv(Yielded(s, c))
  {
    hide LockOk;
    var cur := s.cpus[c].cur;
    var found := FirstRunnable(s.envs, if cur.Some? then cur.value + 1 else 0, NENV - 1);
    if found.Some? {
      EnvRunKeeps(s, c, found.value);
    } else if cur.Some? && s.envs[cur.value].status == RUNNING {
      EnvRunKeeps(s, c, cur.value);
    } else {
      SchedHaltKeeps(s, c);
    }
  }

  lemma FinishKeeps(s: State, c: nat)
    requires Ready(s, c)
    ensures Inv(Finished(s, c))
  {
    var cur := s.cpus[c].cur;
    if cur.Some? && s.envs[cur.value].status == RUNNING {
      EnvRunKeeps(s, c, cur.value);
    } else {
      SchedYieldKeeps(s, c);
    }
  }

  /** Changing one environment that no other CPU runs keeps the kernel ready to schedule. */
  lemma SetEnvReady(s: State, c: nat, t: nat, v: Env)
    requires Ready(s, c) && t < NENV
    requires OnCpu(s.envs[t].status) ==> Current(s, c, t) || (s.envs[t].status == RUNNING && v.status == DYING)
    requires if s.envs[t].status == RUNNING && !Current(s, c, t) then v.status == DYING else !OnCpu(v.status)
    requires v.recving ==> v.status == NOT_RUNNABLE || v.status == FREE
    ensures Ready(SetEnv(s, t, v), c)
  {
    var r := SetEnv(s, t, v);
    assert forall d, x: nat :: Current(r, d, x) <==> Current(s, d, x);
    forall x: nat | x < NENV && OnCpu(r.envs[x].status)
      ensures exists d :: Current(r, d, x)
    {
      assert OnCpu(s.envs[x].status);
      var d :| Current(s, d, x);
      assert Current(r, d, x);
    }
  }

  /** Giving up a current environment that is no longer RUNNING or DYING. */
  lemma DropReady(s: State, c: nat)
    requires Ready(s, c) && s.cpus[c].cur.Some? && !OnCpu(s.envs[s.cpus[c].cur.value].status)
    ensures Ready(SetCpu(s, c, s.cpus[c].(cur := None)), c)
  {
    var r := SetCpu(s, c, s.cpus[c].(cur := None));
    LockFrame(s, r, c);
    assert forall d, x: nat :: d != c ==> (Current(r, d, x) <==> Current(s, d, x));
    forall x: nat | x < NENV && OnCpu(r.envs[x].status)
      ensures exists d :: Current(r, d, x)
    {
      var d :| Current(s, d, x);
      assert d != c;
      assert Current(r, d, x);
    }
  }

  /** The two calls the source does not guard: who may be set to what, and who may be destroyed. */
  predicate Allowed(s: State, c: nat, call: Call)
    requires Sized(s) && c < |s.cpus| && s.cpus[c].cur.Some?
  {
    var cur := s.cpus[c].cur.value;
    match call
    case Destroy(t) => t < NENV ==> s.envs[t].status != DYING
    case SetStatus(t, st) =>
      t < NENV && t != cur && (st == RUNNABLE || st == NOT_RUNNABLE) ==>
        && !OnCpu(s.envs[t].status)
        && (s.envs[t].status != FREE && s.envs[t].recving ==> st == NOT_RUNNABLE)
    case _ => true
  }

  lemma InvReady(s: State, c: nat)
    requires Inv(s) && c < |s.cpus| && s.cpus[c].mode.Kernel?
    requires s.cpus[c].cur.Some? ==> s.envs[s.cpus[c].cur.value].status != DYING
    ensures Ready(s, c)
    ensures s.cpus[c].cur.Some? ==> Current(s, c, s.cpus[c].cur.value) && s.envs[s.cpus[c].cur.value].status == RUNNING
  {
    assert CpuOk(s.cpus[c]);
    assert s.cpus[c].cur.Some? ==> Current(s, c, s.cpus[c].cur.value);
  }

  /** trap's collection of its own dead environment. */
  lemma ZombieReady(s: State, c: nat)
    requires Inv(s) && c < |s.cpus| && s.cpus[c].mode.Kernel? && s.cpus[c].cur.Some?
    ensures Ready(SetCpu(SetStat(s, s.cpus[c].cur.value, FREE), c, s.cpus[c].(cur := None)), c)
  {
    var cur := s.cpus[c].cur.value;
    var r := SetCpu(SetStat(s, cur, FREE), c, s.cpus[c].(cur := None));
    assert CpuOk(s.cpus[c]);
    assert Current(s, c, cur);
    LockFrame(s, r, c);
    assert forall d, x: nat :: d != c ==> (Current(r, d, x) <==> Current(s, d, x));
    forall x: nat | x < NENV && OnCpu(r.envs[x].status)
      ensures exists d :: Current(r, d, x)
    {
      var d :| Current(s, d, x);
      assert d != c;
      assert Current(r, d, x);
    }
  }

  /** Every call but a set_status of another environment or a second destroy is safe, and those two
      are safe exactly when Allowed says so. */
  lemma ServeKeepsExactly(s: State, c: nat, call: Call)
    requires Inv(s) && c < |s.cpus| && s.cpus[c].mode.Kernel? && s.cpus[c].cur.Some?
    requires s.envs[s.cpus[c].cur.value].status != DYING
    ensures Inv(Served(s, c, call)) <==> Allowed(s, c, call)
  {
    if Allowed(s, c, call) {
      ServeKeeps(s, c, call);
    } else {
      ServeBreaks(s, c, call);
    }
  }

  lemma ServeKeeps(s: State, c: nat, call: Call)
    requires Inv(s) && c < |s.cpus| && s.cpus[c].mode.Kernel? && s.cpus[c].cur.Some?
    requires s.envs[s.cpus[c].cur.value].status == DYING || Allowed(s, c, call)
    ensures Inv(Served(s, c, call))
  {
    var cur := s.cpus[c].cur.value;
    if s.envs[cur].status == DYING {
      ZombieReady(s, c);
      SchedYieldKeeps(SetCpu(SetStat(s, cur, FREE), c, s.cpus[c].(cur := None)), c);
    } else {
      InvReady(s, c);
      match call
      case Yield => SchedYieldKeeps(s, c);
      case Recv =>
        SetEnvReady(s, c, cur, Env(NOT_RUNNABLE, true));
        SchedYieldKeeps(SetEnv(s, cur, Env(NOT_RUNNABLE, true)), c);
      case Destroy(t) =>
        if t < NENV && s.envs[t].status != FREE {
          DestroyKeeps(s, c, t);
        } else {
          FinishKeeps(s, c);
        }
      case _ => QuietKeeps(s, c, call);
    }
  }

  predicate Running(s: State, c: nat)
    requires Sized(s) && c < |s.cpus|
  {
    s.cpus[c].cur.Some? && s.envs[s.cpus[c].cur.value].status == RUNNING
  }

  lemma DestroyKeeps(s: State, c: nat, t: nat)
    requires Ready(s, c) && Running(s, c) && t < NENV && s.envs[t].status != DYING
    ensures Inv(Destroyed(s, c, t))
  {
    var cur := s.cpus[c].cur;
    assert Current(s, c, cur.value);
    if s.envs[t].status == RUNNING && cur != Some(t) {
      SetEnvReady(s, c, t, s.envs[t].(status := DYING));
      FinishKeeps(SetStat(s, t, DYING), c);
    } else {
      var s1 := SetStat(s, t, FREE);
      SetEnvReady(s, c, t, s.envs[t].(status := FREE));
      if cur == Some(t) {
        DropReady(s1, c);
        SchedYieldKeeps(SetCpu(s1, c, s1.cpus[c].(cur := None)), c);
      } else {
        FinishKeeps(s1, c);
      }
    }
  }

  /** The calls that return to the caller unless its own status was changed. */
  lemma QuietKeeps(s: State, c: nat, call: Call)
    requires Inv(s) && Ready(s, c) && s.cpus[c].cur.Some?
    requires s.envs[s.cpus[c].cur.value].status == RUNNING && Allowed(s, c, call)
    requires call.Other? || call.Exofork? || call.Send? || call.SetStatus?
    ensures Inv(Served(s, c, call))
  {
    hide LockOk;
    FinishKeeps(s, c);
    match call
    case Exofork(k) =>
      if k < NENV && s.envs[k].status == FREE {
        SetEnvReady(s, c, k, Env(NOT_RUNNABLE, false));
        FinishKeeps(SetEnv(s, k, Env(NOT_RUNNABLE, false)), c);
      }
    case Send(t, fails) =>
      if t < NENV && s.envs[t].status != FREE && s.envs[t].recving && !fails {
        SetEnvReady(s, c, t, Env(RUNNABLE, false));
        FinishKeeps(SetEnv(s, t, Env(RUNNABLE, false)), c);
      }
    case SetStatus(t, st) =>
      if t < NENV && s.envs[t].status != FREE && (st == RUNNABLE || st == NOT_RUNNABLE) {
        assert Current(s, c, s.cpus[c].cur.value);
        SetEnvReady(s, c, t, s.envs[t].(status := st));
        FinishKeeps(SetStat(s, t, st), c);
      }
    case _ =>
  }

  lemma ServeBreaks(s: State, c: nat, call: Call)
    requires Inv(s) && c < |s.cpus| && s.cpus[c].mode.Kernel? && s.cpus[c].cur.Some?
    requires s.envs[s.cpus[c].cur.value].status != DYING && !Allowed(s, c, call)
    ensures !Inv(Served(s, c, call))
  {
    InvReady(s, c);
    var cur := s.cpus[c].cur.value;
    var r := Served(s, c, call);
    var t := call.target;
    assert t != cur;
    assert r.envs[t].recving == s.envs[t].recving;
    assert r.envs[t].status == if call.Destroy? then FREE else call.st;
    if OnCpu(s.envs[t].status) {
      var d: nat :| Current(s, d, t);
      assert d != c;
      assert r.cpus[d] == s.cpus[d];
      assert Current(r, d, t);
    }
  }

  // ---------------------------------------------------------------------------------------------
  // Whole runs.

  /** A step the machine can take in which nobody makes one of the two unguarded calls. */
  predicate Takes(s: State, ev: Event)
    requires Sized(s)
  {
    && Enabled(s, ev)
    && (ev.Work? && s.cpus[ev.c].mode.user && s.envs[s.cpus[ev.c].cur.value].status != DYING ==>
          Allowed(s, ev.c, ev.call))
  }

  predicate Runs(s: State, evs: seq<Event>)
    requires Sized(s)
    decreases |evs|
  {
    evs == [] || (Takes(s, evs[0]) && Runs(Step(s, evs[0]), evs[1..]))
  }

  function Outcome(s: State, evs: seq<Event>): (r: State)
    requires Sized(s) && Runs(s, evs)
    ensures Sized(r) && |r.cpus| == |s.cpus|
    decreases |evs|
  {
    if evs == [] then s else Outcome(Step(s, evs[0]), evs[1..])
  }

  /** i386_init has created the first environments and holds the lock; the other CPUs are in mp_main. */
  ghost predicate Boot(s: State) {
    && |s.envs| == NENV && |s.cpus| > 0 && s.locked && s.holder == Some(0)
    && (forall e :: 0 <= e < NENV ==> s.envs[e].status in {FREE, RUNNABLE} && !s.envs[e].recving)
    && s.cpus[0] == Cpu(false, None, Kernel(false))
    && (forall c :: 0 < c < |s.cpus| ==> s.cpus[c] == Cpu(false, None, Locking(1, false)))
  }

  lemma BootInv(s: State)
    requires Boot(s)
    ensures Inv(s)
  {
    assert Inside(s.cpus[0].mode);
  }

  lemma StepKeepsInv(s: State, ev: Event)
    requires Inv(s) && Takes(s, ev)
    ensures Inv(Step(s, ev))
  {
    if ev.Work? {
      var c := ev.c;
      assert CpuOk(s.cpus[c]);
      if s.cpus[c].mode.user {
        ServeKeeps(s, c, ev.call);
      } else {
        InvReady(s, c);
        SchedYieldKeeps(s, c);
      }
    } else {
      LockStepKeeps(s, ev);
    }
  }

  lemma {:induction false} RunKeepsInv(s: State, evs: seq<Event>)
    requires Inv(s) && Runs(s, evs)
    ensures Inv(Outcome(s, evs))
    decreases |evs|
  {
    if evs == [] {
    } else {
      StepKeepsInv(s, evs[0]);
      RunKeepsInv(Step(s, evs[0]), evs[1..]);
    }
  }

  /** In every run from boot: at most one CPU is in the kernel, none ever finds that it already
      holds the lock it takes or does not hold the lock it gives back, and an environment is RUNNING
      or DYING exactly when it is the current environment of exactly one CPU. */
  lemma RunIsSafe(s: State, evs: seq<Event>)
    requires Boot(s) && Runs(s, evs)
    ensures var r := Outcome(s, evs);
      && (forall c, d :: 0 <= c < |r.cpus| && 0 <= d < |r.cpus| ==>
            Inside(r.cpus[c].mode) && Inside(r.cpus[d].mode) ==> c == d)
      && (forall c :: 0 <= c < |r.cpus| && r.cpus[c].mode.Locking? ==> !Holding(r, c))
      && (forall c :: 0 <= c < |r.cpus| && r.cpus[c].mode.Leaving? ==> Holding(r, c))
      && (forall c :: 0 <= c < |r.cpus| ==> !r.cpus[c].mode.Panicked?)
      && (forall e: nat :: e < NENV && OnCpu(r.envs[e].status) ==>
            exists c :: Current(r, c, e) && forall d :: Current(r, d, e) ==> d == c)
      && (forall c, e: nat :: Current(r, c, e) ==> OnCpu(r.envs[e].status))
  {
    BootInv(s);
    RunKeepsInv(s, evs);
    var r := Outcome(s, evs);
    assert forall c :: 0 <= c < |r.cpus| ==> CpuOk(r.cpus[c]);
    forall e: nat | e < NENV && OnCpu(r.envs[e].status)
      ensures exists c :: Current(r, c, e) && forall d :: Current(r, d, e) ==> d == c
    {
      var c :| Current(r, c, e);
    }
  }

  // ---------------------------------------------------------------------------------------------
  // Which slots the scheduler sees.

  lemma {:induction false} FirstRunnableIs(envs: seq<Env>, i: nat, n: nat)
    requires |envs| == NENV
    ensures FirstRunnable(envs, i, n).None? <==> forall j :: i <= j < i + n ==> envs[Slot(j)].status != RUNNABLE
    ensures forall k :: i <= k < i + n && envs[Slot(k)].status == RUNNABLE
              && (forall j :: i <= j < k ==> envs[Slot(j)].status != RUNNABLE)
              ==> FirstRunnable(envs, i, n) == Some(Slot(k))
    decreases n
  {
    if n == 0 {
    } else {
      FirstRunnableIs(envs, i + 1, n - 1);
      assert envs[Slot(i)].status == RUNNABLE ==> FirstRunnable(envs, i, n) == Some(Slot(i));
    }
  }

  /** The search finds something exactly when a slot is RUNNABLE that it looks at. */
  lemma SearchFinds(envs: seq<Env>, cur: Option<nat>)
    requires |envs| == NENV && (cur.Some? ==> cur.value < NENV)
    ensures var last := if cur.Some? then cur.value else NENV - 1;
      FirstRunnable(envs, if cur.Some? then cur.value + 1 else 0, NENV - 1).Some? <==>
        exists e :: 0 <= e < NENV && envs[e].status == RUNNABLE && e != last
  {
    var start := if cur.Some? then cur.value + 1 else 0;
    FirstRunnableIs(envs, start, NENV - 1);
    hide FirstRunnable;
    var last := if cur.Some? then cur.value else NENV - 1;
    if e :| 0 <= e < NENV && e != last && envs[e].status == RUNNABLE {
      var j := if e >= start then e else e + NENV;
      assert Slot(j) == e;
    } else {
      forall j | start <= j < start + NENV - 1
        ensures envs[Slot(j)].status != RUNNABLE
      {
        assert Slot(j) != last;
      }
    }
  }

  /** A CPU with no current environment schedules one exactly when a slot other than the last is
      RUNNABLE; a CPU with one, exactly when another slot is RUNNABLE or its own is still RUNNING. */
  lemma SchedYieldRunsSomething(s: State, c: nat)
    requires Sized(s) && c < |s.cpus|
    ensures var cur := s.cpus[c].cur;
      Yielded(s, c).cpus[c].mode == Leaving(ToUser) <==>
        || (cur.None? && exists e :: 0 <= e < NENV - 1 && s.envs[e].status == RUNNABLE)
        || (cur.Some? && exists e :: 0 <= e < NENV && s.envs[e].status == RUNNABLE && e != cur.value)
        || (cur.Some? && s.envs[cur.value].status == RUNNING)
  {
    SearchFinds(s.envs, s.cpus[c].cur);
    hide FirstRunnable;
  }

  /** Only the last slot is RUNNABLE and no CPU has a current environment. */
  predicate OnlyLastWaits(s: State) {
    && Sized(s)
    && (forall c :: 0 <= c < |s.cpus| ==>
          && s.cpus[c].cur.None? && !s.cpus[c].mode.User?
          && s.cpus[c].mode != Leaving(ToUser) && s.cpus[c].mode != Unrecorded(ToUser))
    && s.envs[NENV - 1].status == RUNNABLE
    && (forall e :: 0 <= e < NENV - 1 ==> s.envs[e].status in {FREE, NOT_RUNNABLE})
  }

  /** From then on no run of any length, with any number of timer interrupts, ever starts it. */
  lemma {:induction false} LastSlotStarves(s: State, evs: seq<Event>)
    requires OnlyLastWaits(s) && Runs(s, evs)
    ensures OnlyLastWaits(Outcome(s, evs)) && Outcome(s, evs).envs == s.envs
    decreases |evs|
  {
    if evs == [] {
    } else {
      var c := evs[0].c;
      if evs[0].Work? {
        SchedYieldRunsSomething(s, c);
      }
      LastSlotStarves(Step(s, evs[0]), evs[1..]);
    }
  }

  // ---------------------------------------------------------------------------------------------
  // Round robin: bounded waiting.

  /** How far slot t lies ahead of slot cur, going round the table. */
  function Ahead(cur: nat, t: nat): (d: nat)
    requires cur < NENV && t < NENV
    ensures d < NENV && (cur + d) % NENV == t
  {
    if t >= cur then t - cur else t + NENV - cur
  }

  /** Where a search that succeeds stops: nothing before that is RUNNABLE. */
  lemma {:induction false} FoundAt(envs: seq<Env>, i: nat, n: nat) returns (j: nat)
    requires |envs| == NENV && FirstRunnable(envs, i, n).Some?
    ensures i <= j < i + n && FirstRunnable(envs, i, n) == Some(Slot(j))
    ensures forall l :: i <= l < j ==> envs[Slot(l)].status != RUNNABLE
    decreases n
  {
    if envs[Slot(i)].status == RUNNABLE {
      j := i;
    } else {
      j := FoundAt(envs, i + 1, n - 1);
    }
  }

  /** The j-th slot of a search that starts after base. */
  lemma AheadOf(start: nat, base: nat, j: nat)
    requires base < NENV && (start == base + 1 || (start == 0 && base == NENV - 1))
    requires start <= j < start + NENV - 1
    ensures Ahead(base, Slot(j)) == j - start + 1
  {
  }

  /** While t waits, one search from the slot after cur stops at t or at a slot nearer to t. */
  lemma SearchStopsNearer(envs: seq<Env>, cur: nat, t: nat)
    requires |envs| == NENV && cur < NENV && t < NENV && cur != t && envs[t].status == RUNNABLE
    ensures var r := FirstRunnable(envs, cur + 1, NENV - 1);
      r.Some? && Ahead(r.value, t) < Ahead(cur, t)
  {
    var k := cur + Ahead(cur, t);
    assert Slot(k) == t;
    FirstRunnableBefore(envs, cur + 1, NENV - 1, k);
  }

  lemma {:induction false} FirstRunnableBefore(envs: seq<Env>, i: nat, n: nat, k: nat)
    requires |envs| == NENV && i <= k < i + n && envs[Slot(k)].status == RUNNABLE
    ensures exists j :: i <= j <= k && FirstRunnable(envs, i, n) == Some(Slot(j))
    decreases n
  {
    if envs[Slot(i)].status == RUNNABLE {
      assert FirstRunnable(envs, i, n) == Some(Slot(i));
    } else {
      FirstRunnableBefore(envs, i + 1, n - 1, k);
      var j :| i + 1 <= j <= k && FirstRunnable(envs, i + 1, n - 1) == Some(Slot(j));
      assert FirstRunnable(envs, i, n) == Some(Slot(j));
    }
  }

  /** Throughout the run slot t stays RUNNABLE, and CPU c never loses its current environment. */
  predicate Waits(s: State, evs: seq<Event>, c: nat, t: nat)
    requires Sized(s) && Runs(s, evs)
    decreases |evs|
  {
    && c < |s.cpus| && t < NENV && s.envs[t].status == RUNNABLE
    && (evs != [] ==> KeepsOne(s, evs[0], c) && Waits(Step(s, evs[0]), evs[1..], c, t))
  }

  /** If c has the kernel in this step, its current environment is RUNNING and does not destroy itself. */
  predicate KeepsOne(s: State, ev: Event, c: nat)
    requires Sized(s) && c < |s.cpus|
  {
    ev.Work? && ev.c == c ==>
      && s.cpus[c].cur.Some?
      && s.envs[s.cpus[c].cur.value].status == RUNNING
      && ev.call != Destroy(s.cpus[c].cur.value)
  }

  /** c gives up the processor of its own accord or on a timer interrupt. */
  predicate GivesWay(ev: Event, c: nat) {
    ev.Work? && ev.c == c && (ev.call.Yield? || ev.call.Recv?)
  }

  function Turns(evs: seq<Event>, c: nat): nat {
    if evs == [] then 0 else (if GivesWay(evs[0], c) then 1 else 0) + Turns(evs[1..], c)
  }

  lemma YieldNearer(s: State, c: nat, t: nat)
    requires Sized(s) && c < |s.cpus| && t < NENV && s.envs[t].status == RUNNABLE
    requires s.cpus[c].cur.Some? && s.cpus[c].cur.value != t
    requires Yielded(s, c).envs[t].status == RUNNABLE
    ensures var cur' := Yielded(s, c).cpus[c].cur;
      && cur'.Some? && cur'.value != t && Ahead(cur'.value, t) < Ahead(s.cpus[c].cur.value, t)
  {
    SearchStopsNearer(s.envs, s.cpus[c].cur.value, t);
    hide FirstRunnable;
  }

  /** A call other than a yield, a receive or a set_status of the caller returns to the caller. */
  lemma ServeReturns(s: State, c: nat, call: Call)
    requires Sized(s) && c < |s.cpus| && s.cpus[c].cur.Some?
    requires s.envs[s.cpus[c].cur.value].status == RUNNING
    requires call != Destroy(s.cpus[c].cur.value) && !call.Yield? && !call.Recv?
    requires call.SetStatus? ==> call.target != s.cpus[c].cur.value
    requires call.Send? && call.target < NENV && s.envs[call.target].recving ==> call.target != s.cpus[c].cur.value
    ensures Served(s, c, call).cpus[c].cur == s.cpus[c].cur
  {
    hide Yielded;
  }

  lemma WaitStep(s: State, ev: Event, c: nat, t: nat)
    requires Inv(s) && Takes(s, ev) && c < |s.cpus| && t < NENV && KeepsOne(s, ev, c)
    requires s.cpus[c].cur.Some? && s.cpus[c].cur.value != t
    requires s.envs[t].status == RUNNABLE && Step(s, ev).envs[t].status == RUNNABLE
    ensures var cur' := Step(s, ev).cpus[c].cur;
      && cur'.Some? && cur'.value != t
      && Ahead(cur'.value, t) + (if GivesWay(ev, c) then 1 else 0) <= Ahead(s.cpus[c].cur.value, t)
  {
    hide Yielded, LockOk, Ahead;
    if ev.Work? && ev.c == c {
      var cur := s.cpus[c].cur.value;
      assert CpuOk(s.cpus[c]);
      match ev.call
      case Yield => YieldNearer(s, c, t);
      case Recv => YieldNearer(SetEnv(s, cur, Env(NOT_RUNNABLE, true)), c, t);
      case SetStatus(u, st) =>
        if u == cur && (st == RUNNABLE || st == NOT_RUNNABLE) {
          YieldNearer(SetStat(s, cur, st), c, t);
        } else if u != cur {
          ServeReturns(s, c, ev.call);
        }
      case _ => ServeReturns(s, c, ev.call);
    } else {
      OthersKeepCpu(s, ev, c);
    }
  }

  lemma SchedKeepsOthers(s: State, c: nat, d: nat)
    requires Sized(s) && c < |s.cpus| && d < |s.cpus| && d != c
    ensures Yielded(s, c).cpus[d] == s.cpus[d] && Finished(s, c).cpus[d] == s.cpus[d]
  {
    hide FirstRunnable;
  }

  lemma DestroyKeepsOthers(s: State, c: nat, t: nat, d: nat)
    requires Sized(s) && c < |s.cpus| && t < NENV && d < |s.cpus| && d != c
    ensures Destroyed(s, c, t).cpus[d] == s.cpus[d]
  {
    hide Yielded, Finished;
    SchedKeepsOthers(SetStat(s, t, DYING), c, d);
    SchedKeepsOthers(SetStat(s, t, FREE), c, d);
    SchedKeepsOthers(SetCpu(SetStat(s, t, FREE), c, s.cpus[c].(cur := None)), c, d);
  }

  lemma ServeKeepsOthers(s: State, c: nat, call: Call, d: nat)
    requires Sized(s) && c < |s.cpus| && s.cpus[c].cur.Some? && d < |s.cpus| && d != c
    ensures Served(s, c, call).cpus[d] == s.cpus[d]
  {
    hide Yielded, Finished, Destroyed;
    var cur := s.cpus[c].cur.value;
    SchedKeepsOthers(SetCpu(SetStat(s, cur, FREE), c, s.cpus[c].(cur := None)), c, d);
    SchedKeepsOthers(s, c, d);
    match call
    case Exofork(k) => if k < NENV { SchedKeepsOthers(SetEnv(s, k, Env(NOT_RUNNABLE, false)), c, d); }
    case Recv => SchedKeepsOthers(SetEnv(s, cur, Env(NOT_RUNNABLE, true)), c, d);
    case Send(t, _) => if t < NENV { SchedKeepsOthers(SetEnv(s, t, Env(RUNNABLE, false)), c, d); }
    case SetStatus(t, st) => if t < NENV { SchedKeepsOthers(SetStat(s, t, st), c, d); }
    case Destroy(t) => if t < NENV { DestroyKeepsOthers(s, c, t, d); }
    case _ =>
  }

  /** What a destroy leaves of its target. */
  lemma DestroySpares(s: State, c: nat, e: nat)
    requires Sized(s) && c < |s.cpus| && e < NENV
    ensures var r := Destroyed(s, c, e);
      && r.envs[e].status == (if s.envs[e].status == RUNNING && s.cpus[c].cur != Some(e) then DYING else FREE)
      && (r.cpus[c].mode == Leaving(ToUser) ==> r.cpus[c].cur != Some(e))
  {
    hide Yielded, Finished;
    SchedSpares(SetStat(s, e, DYING), c, e);
    SchedSpares(SetStat(s, e, FREE), c, e);
    SchedSpares(SetCpu(SetStat(s, e, FREE), c, s.cpus[c].(cur := None)), c, e);
  }

  predicate SameElsewhere(s: State, r: State, c: nat) {
    |r.cpus| == |s.cpus| && forall d :: 0 <= d < |s.cpus| && d != c ==> r.cpus[d] == s.cpus[d]
  }

  /** Serving a call, if its environment was destroyed meanwhile, frees and does not resume that and keeps
      the invariant, and otherwise keeps the invariant exactly if the call is allowed. */
  ghost predicate ServedWell(s: State, r: State, c: nat, call: Call)
    requires Sized(s) && Sized(r) && |r.cpus| == |s.cpus| && c < |s.cpus| && s.cpus[c].cur.Some?
  {
    var cur := s.cpus[c].cur.value;
    if s.envs[cur].status == DYING then
      && r.envs[cur].status == FREE && (r.cpus[c].mode == Leaving(ToUser) ==> r.cpus[c].cur != Some(cur))
      && (Inv(s) && s.cpus[c].mode.Kernel? ==> Inv(r))
    else Inv(s) && s.cpus[c].mode.Kernel? ==> (Inv(r) <==> Allowed(s, c, call))
  }

  // ---------------------------------------------------------------------------------------------
  // What the calls do, one by one.

  /** CPU c goes on with environment x. */
  predicate GoesOn(r: State, c: nat, x: nat) {
    c < |r.cpus| && r.cpus[c].cur == Some(x) && r.cpus[c].mode == Leaving(ToUser)
  }

  /** x is RUNNABLE, and none of the slots after `base` that come before x, going round the table, is. */
  predicate Nearest(envs: seq<Env>, base: nat, x: nat)
    requires |envs| == NENV && base < NENV && x < NENV
  {
    && x != base && envs[x].status == RUNNABLE
    && forall y :: 0 <= y < NENV && 0 < Ahead(base, y) < Ahead(base, x) ==> envs[y].status != RUNNABLE
  }

  /** No slot but `base` is RUNNABLE. */
  predicate NoOther(envs: seq<Env>, base: nat)
    requires |envs| == NENV
  {
    forall y :: 0 <= y < NENV && y != base ==> envs[y].status != RUNNABLE
  }

  predicate Present(e: Env) { e.status == RUNNABLE || e.status == RUNNING || e.status == DYING }

  /** What becomes of the table, and of CPU c with current environment cur, in the scheduler: the nearest
      RUNNABLE environment after cur is started and cur, if it was RUNNING, becomes RUNNABLE; or cur goes
      on; or the CPU halts, or drops into the monitor if there is nobody at all. */
  predicate Scheduled(envs: seq<Env>, cur: Option<nat>, r: State, c: nat)
    requires |envs| == NENV && (cur.Some? ==> cur.value < NENV) && c < |r.cpus|
  {
    var base := if cur.Some? then cur.value else NENV - 1;
    var isRunning := cur.Some? && envs[base].status == RUNNING;
    || (r.cpus[c].cur.Some? && r.cpus[c].cur.value < NENV
        && var x := r.cpus[c].cur.value;
           && GoesOn(r, c, x) && Nearest(envs, base, x)
           && r.envs == (if isRunning then envs[base := envs[base].(status := RUNNABLE)] else envs)
                        [x := envs[x].(status := RUNNING)])
    || (NoOther(envs, base) && isRunning && GoesOn(r, c, base) && r.envs == envs)
    || (NoOther(envs, base) && !isRunning && r.envs == envs
        && if exists y :: 0 <= y < NENV && Present(envs[y]) then r.cpus[c] == Cpu(true, None, Leaving(ToIdle))
           else r.cpus[c].mode == Monitor)
  }

  lemma FoundIsNearest(envs: seq<Env>, start: nat, base: nat)
    requires |envs| == NENV && base < NENV && (start == base + 1 || (start == 0 && base == NENV - 1))
    requires FirstRunnable(envs, start, NENV - 1).Some?
    ensures Nearest(envs, base, FirstRunnable(envs, start, NENV - 1).value)
  {
    var j := FoundAt(envs, start, NENV - 1);
    var x := Slot(j);
    AheadOf(start, base, j);
    hide FirstRunnable;
    forall y | 0 <= y < NENV && 0 < Ahead(base, y) < Ahead(base, x)
      ensures envs[y].status != RUNNABLE
    {
      var l := start + Ahead(base, y) - 1;
      AheadOf(start, base, l);
      assert Slot(l) == y;
    }
  }

  lemma HaltedIs(s: State, c: nat)
    requires Sized(s) && c < |s.cpus|
    ensures var r := Halted(s, c);
      && r.envs == s.envs
      && if exists y :: 0 <= y < NENV && Present(s.envs[y]) then r.cpus[c] == Cpu(true, None, Leaving(ToIdle))
         else r.cpus[c].mode == Monitor
  {
    assert forall e :: 0 <= e < NENV ==> (s.envs[e].status in {RUNNABLE, RUNNING, DYING} <==> Present(s.envs[e]));
  }

  lemma RanIs(s: State, c: nat, x: nat)
    requires Sized(s) && c < |s.cpus| && x < NENV
    ensures var cur, r := s.cpus[c].cur, Ran(s, c, x);
      && GoesOn(r, c, x)
      && r.envs == (if cur.Some? && s.envs[cur.value].status == RUNNING
                    then s.envs[cur.value := s.envs[cur.value].(status := RUNNABLE)] else s.envs)
                   [x := s.envs[x].(status := RUNNING)]
  {
  }

  lemma YieldedIs(s: State, c: nat)
    requires Sized(s) && c < |s.cpus|
    ensures Scheduled(s.envs, s.cpus[c].cur, Yielded(s, c), c)
  {
    hide FirstRunnable, Nearest, Ran, Halted, Present;
    var cur := s.cpus[c].cur;
    var base := if cur.Some? then cur.value else NENV - 1;
    var start := if cur.Some? then cur.value + 1 else 0;
    SearchFinds(s.envs, cur);
    var found := FirstRunnable(s.envs, start, NENV - 1);
    if found.Some? {
      FoundIsNearest(s.envs, start, base);
      RanIs(s, c, found.value);
    } else if cur.Some? && s.envs[base].status == RUNNING {
      RanIs(s, c, base);
      assert s.envs[base := s.envs[base].(status := RUNNABLE)][base := s.envs[base].(status := RUNNING)] == s.envs;
    } else {
      HaltedIs(s, c);
    }
  }

  /** The call is done and the caller goes on. */
  predicate Returns(s: State, r: State, c: nat)
    requires c < |s.cpus|
  {
    s.cpus[c].cur.Some? && GoesOn(r, c, s.cpus[c].cur.value)
  }

  /** Environment t is destroyed by one that is RUNNING on c: itself, or another. */
  predicate DestroyedHere(s: State, r: State, c: nat, t: nat)
    requires Sized(s) && c < |s.cpus| && |r.cpus| == |s.cpus| && s.cpus[c].cur.Some? && t < NENV
  {
    var cur := s.cpus[c].cur.value;
    if t == cur then Scheduled(s.envs[cur := Env(FREE, s.envs[cur].recving)], None, r, c)
    else
      && r.envs == s.envs[t := Env(if s.envs[t].status == RUNNING then DYING else FREE, s.envs[t].recving)]
      && Returns(s, r, c)
  }

  /** What a call leaves of the table, and who goes on, if its caller is RUNNING. */
  predicate CallDone(s: State, r: State, c: nat, call: Call)
    requires Sized(s) && c < |s.cpus| && |r.cpus| == |s.cpus| && s.cpus[c].cur.Some?
  {
    var cur := s.cpus[c].cur.value;
    var refused := r.envs == s.envs && Returns(s, r, c);
    match call
    case Yield => Scheduled(s.envs, Some(cur), r, c)
    case Other => refused
    case Exofork(k) =>
      if k >= NENV || s.envs[k].status != FREE then refused
      else r.envs == s.envs[k := Env(NOT_RUNNABLE, false)] && Returns(s, r, c)
    case Recv =>
      && Scheduled(s.envs[cur := Env(NOT_RUNNABLE, true)], Some(cur), r, c)
      && |r.envs| == NENV && r.envs[cur] == Env(NOT_RUNNABLE, true) && !GoesOn(r, c, cur)
    case Send(t, fails) =>
      if t >= NENV || s.envs[t].status == FREE || !s.envs[t].recving || fails then refused
      else r.envs == s.envs[t := Env(RUNNABLE, false)] && Returns(s, r, c)
    case SetStatus(t, st) =>
      if t >= NENV || s.envs[t].status == FREE || (st != RUNNABLE && st != NOT_RUNNABLE) then refused
      else if t != cur then r.envs == s.envs[t := Env(st, s.envs[t].recving)] && Returns(s, r, c)
      else Scheduled(s.envs[cur := Env(st, s.envs[cur].recving)], Some(cur), r, c)
    case Destroy(t) => if t >= NENV || s.envs[t].status == FREE then refused else DestroyedHere(s, r, c, t)
  }

  /** The end of trap, for a current environment that is still RUNNING. */
  lemma FinishReturns(s: State, c: nat)
    requires Sized(s) && c < |s.cpus| && Running(s, c)
    ensures Finished(s, c).envs == s.envs && GoesOn(Finished(s, c), c, s.cpus[c].cur.value)
  {
    var cur := s.cpus[c].cur.value;
    assert s.envs[cur := s.envs[cur].(status := RUNNABLE)][cur := s.envs[cur].(status := RUNNING)] == s.envs;
    hide Yielded;
  }

  lemma ServeDone(s: State, c: nat, call: Call)
    requires Sized(s) && c < |s.cpus| && Running(s, c) && !s.envs[s.cpus[c].cur.value].recving
    ensures CallDone(s, Served(s, c, call), c, call)
  {
    hide Scheduled, GoesOn, Finished, Yielded;
    var cur := s.cpus[c].cur.value;
    FinishReturns(s, c);
    match call
    case Yield => YieldedIs(s, c);
    case Recv =>
      var s1 := SetEnv(s, cur, Env(NOT_RUNNABLE, true));
      YieldedIs(s1, c);
      SchedSpares(s1, c, cur);
      hide Served;
      NotResumed(s1, c, cur);
    case Exofork(k) =>
      if k < NENV && s.envs[k].status == FREE {
        FinishReturns(SetEnv(s, k, Env(NOT_RUNNABLE, false)), c);
      }
    case Send(t, _) =>
      if t < NENV && s.envs[t].recving {
        FinishReturns(SetEnv(s, t, Env(RUNNABLE, false)), c);
      }
    case SetStatus(t, st) =>
      if t < NENV && t != cur {
        FinishReturns(SetStat(s, t, st), c);
      } else if t == cur && (st == RUNNABLE || st == NOT_RUNNABLE) {
        FinishYields(SetStat(s, t, st), c);
      }
    case Destroy(t) => if t < NENV { DestroyDone(s, c, t); }
    case Other =>
  }

  lemma NotResumed(s: State, c: nat, e: nat)
    requires Sized(s) && c < |s.cpus| && e < NENV && s.envs[e].status !in {RUNNABLE, RUNNING}
    ensures !GoesOn(Yielded(s, c), c, e)
  {
    SchedSpares(s, c, e);
    hide Yielded;
  }

  lemma FinishYields(s: State, c: nat)
    requires Sized(s) && c < |s.cpus| && !Running(s, c)
    ensures Finished(s, c) == Yielded(s, c) && Scheduled(s.envs, s.cpus[c].cur, Finished(s, c), c)
  {
    YieldedIs(s, c);
    hide Yielded, Scheduled;
  }

  lemma DestroyDone(s: State, c: nat, t: nat)
    requires Sized(s) && c < |s.cpus| && Running(s, c) && t < NENV
    ensures DestroyedHere(s, Destroyed(s, c, t), c, t)
  {
    var cur := s.cpus[c].cur.value;
    hide Yielded, Finished, Scheduled, GoesOn;
    if t == cur {
      YieldedIs(SetCpu(SetStat(s, t, FREE), c, s.cpus[c].(cur := None)), c);
    } else {
      FinishReturns(SetStat(s, t, DYING), c);
      FinishReturns(SetStat(s, t, FREE), c);
    }
  }

  lemma DestroyDoes(s: State, c: nat, e: nat)
    requires Sized(s) && c < |s.cpus| && e < NENV
    ensures var r := Destroyed(s, c, e);
      && r.envs[e].status == (if s.envs[e].status == RUNNING && s.cpus[c].cur != Some(e) then DYING else FREE)
      && (r.cpus[c].mode == Leaving(ToUser) ==> r.cpus[c].cur != Some(e))
      && SameElsewhere(s, r, c)
      && (Ready(s, c) && Running(s, c) && s.envs[e].status != DYING ==> Inv(r))
      && (Running(s, c) ==> DestroyedHere(s, r, c, e))
  {
    hide Ready, Inv, Destroyed, DestroyedHere, Running;
    DestroySpares(s, c, e);
    if Running(s, c) {
      DestroyDone(s, c, e);
    }
    if Ready(s, c) && Running(s, c) && s.envs[e].status != DYING {
      DestroyKeeps(s, c, e);
    }
    forall d | 0 <= d < |s.cpus| && d != c
      ensures Destroyed(s, c, e).cpus[d] == s.cpus[d]
    {
      DestroyKeepsOthers(s, c, e, d);
    }
  }

  lemma ServeDoes(s: State, c: nat, call: Call)
    requires Sized(s) && c < |s.cpus| && s.cpus[c].cur.Some?
    ensures ServedWell(s, Served(s, c, call), c, call) && SameElsewhere(s, Served(s, c, call), c)
  {
    hide Yielded, Finished, Destroyed, Inv, Allowed;
    var cur := s.cpus[c].cur.value;
    if s.envs[cur].status == DYING {
      SchedSpares(SetCpu(SetStat(s, cur, FREE), c, s.cpus[c].(cur := None)), c, cur);
      if Inv(s) && s.cpus[c].mode.Kernel? { ServeKeeps(s, c, call); }
    } else if Inv(s) && s.cpus[c].mode.Kernel? {
      ServeKeepsExactly(s, c, call);
    }
    forall d | 0 <= d < |s.cpus| && d != c ensures Served(s, c, call).cpus[d] == s.cpus[d] {
      ServeKeepsOthers(s, c, call, d);
    }
  }

  /** A step of one CPU leaves the others' records alone. */
  lemma OthersKeepCpu(s: State, ev: Event, c: nat)
    requires Sized(s) && Enabled(s, ev) && c < |s.cpus| && (ev.c != c || !ev.Work?)
    ensures Step(s, ev).cpus[c].cur == s.cpus[c].cur
    ensures ev.c != c ==> Step(s, ev).cpus[c] == s.cpus[c]
  {
    hide Served, Yielded;
    if ev.Work? {
      SchedKeepsOthers(s, ev.c, c);
      if s.cpus[ev.c].mode.user {
        ServeKeepsOthers(s, ev.c, ev.call, c);
      }
    }
  }

  /** The scheduler neither touches nor starts an environment that is not RUNNABLE or RUNNING. */
  lemma SchedSpares(s: State, c: nat, e: nat)
    requires Sized(s) && c < |s.cpus| && e < NENV && s.envs[e].status !in {RUNNABLE, RUNNING}
    ensures Yielded(s, c).envs[e] == s.envs[e] && Finished(s, c).envs[e] == s.envs[e]
    ensures Yielded(s, c).cpus[c].mode == Leaving(ToUser) ==> Yielded(s, c).cpus[c].cur != Some(e)
    ensures Finished(s, c).cpus[c].mode == Leaving(ToUser) ==> Finished(s, c).cpus[c].cur != Some(e)
  {
    hide FirstRunnable;
  }

  /** While slot t stays RUNNABLE and unchosen, CPU c gives way fewer times than t lies ahead of its
      current slot, and so at most NENV - 2 times: the next time, at the latest, it chooses t. */
  lemma {:induction false} BoundedWaiting(s: State, evs: seq<Event>, c: nat, t: nat)
    requires Inv(s) && Runs(s, evs) && Waits(s, evs, c, t)
    requires s.cpus[c].cur.Some? && s.cpus[c].cur.value != t
    ensures Turns(evs, c) < Ahead(s.cpus[c].cur.value, t) <= NENV - 1
    decreases |evs|
  {
    if evs == [] {
    } else {
      WaitStep(s, evs[0], c, t);
      StepKeepsInv(s, evs[0]);
      BoundedWaiting(Step(s, evs[0]), evs[1..], c, t);
    }
  }

  // ---------------------------------------------------------------------------------------------
  // A run from boot to a call that is not allowed.

  lemma RunCons(s: State, ev: Event, evs: seq<Event>)
    requires Sized(s) && Takes(s, ev) && Runs(Step(s, ev), evs)
    ensures Runs(s, [ev] + evs) && Outcome(s, [ev] + evs) == Outcome(Step(s, ev), evs)
  {
    assert ([ev] + evs)[1..] == evs;
  }

  lemma {:induction false} RunAppend(s: State, xs: seq<Event>, ys: seq<Event>)
    requires Sized(s) && Runs(s, xs) && Runs(Outcome(s, xs), ys)
    ensures Runs(s, xs + ys) && Outcome(s, xs + ys) == Outcome(Outcome(s, xs), ys)
    decreases |xs|
  {
    hide Step;
    if xs == [] {
      assert xs + ys == ys;
    } else {
      RunAppend(Step(s, xs[0]), xs[1..], ys);
      RunCons(s, xs[0], xs[1..] + ys);
      assert [xs[0]] + (xs[1..] + ys) == xs + ys;
    }
  }

  /** Out of the kernel and, with the next trap, in again. */
  const TRIP: seq<Event> := [Unrecord(0), Release(0), Trap(0), Check(0), Xchg(0), Record(0)]

  function Alone(envs: seq<Env>, cur: Option<nat>, mode: Mode, locked: bool, holder: Option<nat>): State {
    State(envs, [Cpu(false, cur, mode)], locked, holder)
  }

  /** The single steps of such a trip. */
  lemma TripSteps(envs: seq<Env>, cur: Option<nat>)
    requires |envs| == NENV && cur.Some? && cur.value < NENV
    ensures var s := Alone(envs, cur, Leaving(ToUser), true, Some(0));
      Takes(s, Unrecord(0)) && Step(s, Unrecord(0)) == Alone(envs, cur, Unrecorded(ToUser), true, None)
    ensures var s := Alone(envs, cur, Unrecorded(ToUser), true, None);
      Takes(s, Release(0)) && Step(s, Release(0)) == Alone(envs, cur, User, false, None)
    ensures var s := Alone(envs, cur, User, false, None);
      Takes(s, Trap(0)) && Step(s, Trap(0)) == Alone(envs, cur, Locking(1, true), false, None)
    ensures var s := Alone(envs, cur, Locking(1, true), false, None);
      Takes(s, Check(0)) && Step(s, Check(0)) == Alone(envs, cur, Spinning(1, true), false, None)
    ensures var s := Alone(envs, cur, Spinning(1, true), false, None);
      Takes(s, Xchg(0)) && Step(s, Xchg(0)) == Alone(envs, cur, Got(1, true), true, None)
    ensures var s := Alone(envs, cur, Got(1, true), true, None);
      Takes(s, Record(0)) && Step(s, Record(0)) == Alone(envs, cur, Kernel(true), true, Some(0))
  {
    hide Yielded, Served;
  }

  lemma TripReturns(envs: seq<Env>, e: nat)
    requires |envs| == NENV && e < NENV
    ensures var s := Alone(envs, Some(e), Leaving(ToUser), true, Some(0));
      Runs(s, TRIP) && Outcome(s, TRIP) == Alone(envs, Some(e), Kernel(true), true, Some(0))
  {
    hide Runs, Outcome;
    ComesBack(envs, e);
    TripSteps(envs, Some(e));
    hide Step, Takes;
    RunCons(Alone(envs, Some(e), Unrecorded(ToUser), true, None), Release(0),
            [Trap(0), Check(0), Xchg(0), Record(0)]);
    RunCons(Alone(envs, Some(e), Leaving(ToUser), true, Some(0)), Unrecord(0),
            [Release(0), Trap(0), Check(0), Xchg(0), Record(0)]);
    assert [Unrecord(0)] + [Release(0), Trap(0), Check(0), Xchg(0), Record(0)] == TRIP;
    assert [Release(0)] + [Trap(0), Check(0), Xchg(0), Record(0)]
        == [Release(0), Trap(0), Check(0), Xchg(0), Record(0)];
  }

  lemma ComesBack(envs: seq<Env>, e: nat)
    requires |envs| == NENV && e < NENV
    ensures var s, evs := Alone(envs, Some(e), User, false, None), [Trap(0), Check(0), Xchg(0), Record(0)];
      Runs(s, evs) && Outcome(s, evs) == Alone(envs, Some(e), Kernel(true), true, Some(0))
  {
    var cur := Some(e);
    var s6 := Alone(envs, cur, Kernel(true), true, Some(0));
    assert Runs(s6, []) && Outcome(s6, []) == s6;
    hide Runs, Outcome;
    TripSteps(envs, cur);
    hide Step, Takes;
    RunCons(Alone(envs, cur, Got(1, true), true, None), Record(0), []);
    RunCons(Alone(envs, cur, Spinning(1, true), false, None), Xchg(0), [Record(0)]);
    RunCons(Alone(envs, cur, Locking(1, true), false, None), Check(0), [Xchg(0), Record(0)]);
    RunCons(Alone(envs, cur, User, false, None), Trap(0), [Check(0), Xchg(0), Record(0)]);
  }

  /** One CPU and two environments. */
  function TwoReady(): seq<Env> { seq(NENV, i => Env(if i < 2 then RUNNABLE else FREE, false)) }

  function Start(): State { Alone(TwoReady(), None, Kernel(false), true, Some(0)) }

  /** The first environment waits for a message, and the second is in the kernel. */
  function Path(): seq<Event> { [Work(0, Yield)] + TRIP + ([Work(0, Recv)] + TRIP) }

  function FirstRuns(): seq<Env> { TwoReady()[0 := Env(RUNNING, false)] }

  function SecondRuns(): seq<Env> { TwoReady()[0 := Env(NOT_RUNNABLE, true)][1 := Env(RUNNING, false)] }

  lemma FirstStarts()
    ensures Takes(Start(), Work(0, Yield))
    ensures Step(Start(), Work(0, Yield)) == Alone(FirstRuns(), Some(0), Leaving(ToUser), true, Some(0))
  {
    assert TwoReady()[0].status == RUNNABLE && Slot(0) == 0;
  }

  lemma FirstWaits()
    ensures var s := Alone(FirstRuns(), Some(0), Kernel(true), true, Some(0));
      Takes(s, Work(0, Recv)) && Step(s, Work(0, Recv)) == Alone(SecondRuns(), Some(1), Leaving(ToUser), true, Some(0))
  {
    var envs := FirstRuns()[0 := Env(NOT_RUNNABLE, true)];
    assert envs[1].status == RUNNABLE && Slot(1) == 1;
    assert envs[1 := Env(RUNNING, false)] == SecondRuns();
  }

  lemma PathLeads()
    ensures Boot(Start()) && Runs(Start(), Path())
    ensures Outcome(Start(), Path()) == Alone(SecondRuns(), Some(1), Kernel(true), true, Some(0))
  {
    hide Step;
    FirstStarts();
    FirstWaits();
    TripReturns(FirstRuns(), 0);
    TripReturns(SecondRuns(), 1);
    hide Runs, Outcome, Step, Takes;
    RunCons(Start(), Work(0, Yield), TRIP);
    RunCons(Alone(FirstRuns(), Some(0), Kernel(true), true, Some(0)), Work(0, Recv), TRIP);
    RunAppend(Start(), [Work(0, Yield)] + TRIP, [Work(0, Recv)] + TRIP);
  }

  /** There the second may wake the first with sys_env_set_status, and the invariant is gone. */
  lemma ForbiddenCallReached()
    ensures Boot(Start()) && Runs(Start(), Path())
    ensures var r, call := Outcome(Start(), Path()), SetStatus(0, RUNNABLE);
      && Enabled(r, Work(0, call)) && r.cpus[0].mode == Kernel(true) && r.cpus[0].cur == Some(1)
      && !Allowed(r, 0, call) && !Inv(Step(r, Work(0, call)))
  {
    hide Runs, Outcome, Served, Inv, Boot, LockOk;
    PathLeads();
    BootInv(Start());
    RunKeepsInv(Start(), Path());
    ServeKeepsExactly(Outcome(Start(), Path()), 0, SetStatus(0, RUNNABLE));
  }

  // ---------------------------------------------------------------------------------------------
  // The code of the kernel, which changes the table and the CPU records in place.

  class Machine {
    var envs: seq<Env>
    var cpus: seq<Cpu>
    var locked: bool
    var holder: Option<nat>

    function Value(): State
      reads this
    {
      State(envs, cpus, locked, holder)
    }

    /** env_run up to and including its call of unlock_kernel: e runs here, whoever ran here before can
        be scheduled again, and nobody else notices. */
    method EnvRun(c: nat, e: nat)
      requires Sized(Value()) && c < |cpus| && e < NENV
      modifies this`envs, this`cpus
      ensures Value() == Ran(old(Value()), c, e)
      ensures Current(Value(), c, e) && envs[e].status == RUNNING && cpus[c].mode == Leaving(ToUser)
      ensures var cur := old(cpus)[c].cur; cur.Some? && cur != Some(e) && old(envs)[cur.value].status == RUNNING ==>
                envs[cur.value].status == RUNNABLE
      ensures forall x :: 0 <= x < NENV && x != e && old(cpus)[c].cur != Some(x) ==> envs[x] == old(envs)[x]
      ensures forall d :: 0 <= d < |cpus| && d != c ==> cpus[d] == old(cpus)[d]
      ensures old(Ready(Value(), c) && MayRun(Value(), c, e)) ==> Inv(Value())
    {
      hide LockOk, OnCpu;
      ghost var s := Value();
      if Ready(s, c) && MayRun(s, c, e) {
        EnvRunKeeps(s, c, e);
      }
      var cur := cpus[c].cur;
      if cur.Some? && envs[cur.value].status == RUNNING {
        envs := envs[cur.value := envs[cur.value].(status := RUNNABLE)];
      }
      cpus := cpus[c := cpus[c].(cur := Some(e))];
      envs := envs[e := envs[e].(status := RUNNING)];
      cpus := cpus[c := cpus[c].(mode := Leaving(ToUser))];
    }

    /** sched_halt up to its call of unlock_kernel. */
    method SchedHalt(c: nat)
      requires Sized(Value()) && c < |cpus|
      modifies this
      ensures Value() == Halted(old(Value()), c)
      ensures envs == old(envs) && |cpus| == |old(cpus)|
      ensures cpus[c].mode == Monitor <==>
        forall e :: 0 <= e < NENV ==> envs[e].status == FREE || envs[e].status == NOT_RUNNABLE
      ensures cpus[c].mode != Monitor ==> cpus[c] == Cpu(true, None, Leaving(ToIdle))
      ensures forall d :: 0 <= d < |cpus| && d != c ==> cpus[d] == old(cpus)[d]
    {
      var i := 0;
      while i < NENV && envs[i].status !in {RUNNABLE, RUNNING, DYING}
        invariant 0 <= i <= NENV && Value() == old(Value())
        invariant forall j :: 0 <= j < i ==> envs[j].status !in {RUNNABLE, RUNNING, DYING}
      {
        i := i + 1;
      }
      if i == NENV {
        cpus := cpus[c := cpus[c].(mode := Monitor)];
        return;
      }
      cpus := cpus[c := cpus[c].(cur := None)];
      cpus := cpus[c := cpus[c].(halted := true)];
      cpus := cpus[c := cpus[c].(mode := Leaving(ToIdle))];
    }

    /** sched_yield: whoever is found first runs; the search reads nothing of what it changes. */
    method SchedYield(c: nat)
      requires Sized(Value()) && c < |cpus|
      modifies this
      ensures Value() == Yielded(old(Value()), c)
      ensures c < |cpus| && Scheduled(old(envs), old(cpus)[c].cur, Value(), c)
    {
      YieldedIs(Value(), c);
      hide Scheduled;
      var cur := cpus[c].cur;
      var found := Search(envs, cur);
      if found.Some? {
        EnvRun(c, found.value);
      } else if cur.Some? && envs[cur.value].status == RUNNING {
        EnvRun(c, cur.value);
      } else {
        SchedHalt(c);
      }
    }

    /** The last lines of trap. */
    method Finish(c: nat)
      requires Sized(Value()) && c < |cpus|
      modifies this
      ensures Value() == Finished(old(Value()), c)
    {
      var cur := cpus[c].cur;
      if cur.Some? && envs[cur.value].status == RUNNING {
        EnvRun(c, cur.value);
      } else {
        SchedYield(c);
      }
    }

    /** env_destroy and the end of trap: an environment that runs elsewhere is marked and left to the CPU
        it runs on, any other is free at once; this CPU does not go on with it. */
    method EnvDestroy(c: nat, e: nat)
      requires Sized(Value()) && c < |cpus| && e < NENV
      modifies this
      ensures Value() == Destroyed(old(Value()), c, e)
      ensures envs[e].status == if old(envs)[e].status == RUNNING && old(cpus)[c].cur != Some(e) then DYING else FREE
      ensures cpus[c].mode == Leaving(ToUser) ==> cpus[c].cur != Some(e)
      ensures SameElsewhere(old(Value()), Value(), c)
      ensures old(Ready(Value(), c) && Running(Value(), c)) && old(envs)[e].status != DYING ==> Inv(Value())
      ensures old(Running(Value(), c)) ==> DestroyedHere(old(Value()), Value(), c, e)
    {
      DestroyDoes(Value(), c, e);
      hide Ready, Inv, Running, Yielded, Finished, DestroyedHere, Scheduled, SameElsewhere;
      if envs[e].status == RUNNING && cpus[c].cur != Some(e) {
        envs := envs[e := envs[e].(status := DYING)];
        Finish(c);
        return;
      }
      envs := envs[e := envs[e].(status := FREE)];
      if cpus[c].cur == Some(e) {
        cpus := cpus[c := cpus[c].(cur := None)];
        SchedYield(c);
      } else {
        Finish(c);
      }
    }

    /** trap for a trap from user mode, once the lock is held.  An environment that was destroyed from
        elsewhere is collected here whatever it wanted; any other call keeps the table in order exactly if
        it is allowed; no other CPU's record changes. */
    method Trap(c: nat, call: Call)
      requires Sized(Value()) && c < |cpus| && cpus[c].cur.Some?
      modifies this
      ensures Value() == Served(old(Value()), c, call)
      ensures ServedWell(old(Value()), Value(), c, call)
      ensures var cur := old(cpus)[c].cur.value;
        && (old(envs)[cur] == Env(RUNNING, false) ==> CallDone(old(Value()), Value(), c, call))
        && (old(envs)[cur].status == DYING ==>
              Scheduled(old(envs)[cur := Env(FREE, old(envs)[cur].recving)], None, Value(), c))
      ensures SameElsewhere(old(Value()), Value(), c)
    {
      hide Yielded, Finished, Destroyed, Inv, Allowed, SameElsewhere, ServedWell, CallDone, Scheduled;
      ServeDoes(Value(), c, call);
      var cur := cpus[c].cur.value;
      if envs[cur] == Env(RUNNING, false) {
        ServeDone(Value(), c, call);
      } else if envs[cur].status == DYING {
        YieldedIs(SetCpu(SetStat(Value(), cur, FREE), c, cpus[c].(cur := None)), c);
      }
      if envs[cur].status == DYING {
        envs := envs[cur := envs[cur].(status := FREE)];
        cpus := cpus[c := cpus[c].(cur := None)];
        SchedYield(c);
        return;
      }
      match call {
      case Yield =>
        SchedYield(c);
        return;
      case Recv =>
        envs := envs[cur := Env(NOT_RUNNABLE, true)];
        SchedYield(c);
        return;
      case Destroy(t) =>
        if t < NENV && envs[t].status != FREE {
          EnvDestroy(c, t);
          return;
        }
      case Exofork(k) =>
        if k < NENV && envs[k].status == FREE {
          envs := envs[k := Env(NOT_RUNNABLE, false)];
        }
      case Send(t, fails) =>
        if t < NENV && envs[t].status != FREE && envs[t].recving && !fails {
          envs := envs[t := Env(RUNNABLE, false)];
        }
      case SetStatus(t, st) =>
        if t < NENV && envs[t].status != FREE && (st == RUNNABLE || st == NOT_RUNNABLE) {
          envs := envs[t := envs[t].(status := st)];
        }
      case Other =>
      }
      Finish(c);
    }
  }
}
