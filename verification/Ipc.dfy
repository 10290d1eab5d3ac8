/** Messages between environments: sys_ipc_try_send and sys_ipc_recv (tps/kern/syscall.c), and the
    library calls around them (tps/lib/ipc.c).

    Each system call is one step, as it holds the kernel lock.  The library reads the three fields of a
    received message with three separate loads, each one a step of its own.  */
module Ipc {

  import opened Options

  const UTOP: nat := 0xEEC0_0000
  const PGSIZE: nat := 0x1000

  const PTE_P: bv32 := 1
  const PTE_W: bv32 := 2
  const PTE_U: bv32 := 4
  const PTE_SYSCALL: bv32 := 0xE07

  /** check_perm: PTE_P and PTE_U, perhaps PTE_W and the three bits left to software, and nothing else. */
  predicate PermOk(perm: bv32): (ok: bool)
    ensures ok <==> perm & 5 == 5 && perm & 0xFFFF_F1F8 == 0
  {
    perm & !PTE_SYSCALL == 0 && perm & (PTE_U | PTE_P) == PTE_U | PTE_P
  }

  datatype Pte = Pte(page: nat, perm: bv32)

  /** Where an environment's program is. */
  datatype Phase =
    | Computing
    | Sending(to: nat, value: int, pg: nat, perm: bv32)   // in the retry loop of ipc_send
    | Waiting                                             // in sys_ipc_recv
    | Returned                                            // sys_ipc_recv has returned 0
    | HaveFrom(from: nat)                                 // ... and env_ipc_from has been read
    | HavePerm(from: nat, perm: bv32)                     // ... and env_ipc_perm
    | Panicked

  datatype Env = Env(runnable: bool, recving: bool, from: nat, value: int, perm: bv32, dstva: nat,
                     maps: map<nat, Pte>, phase: Phase)

  datatype Code = Done | BadEnv | NotRecv | Inval | NoMem

  // ---------------------------------------------------------------------------------------------
  // The system call.

  /** What sys_ipc_try_send returns; room says whether page_insert finds memory for a page table. */
  function SendCode(envs: map<nat, Env>, s: nat, to: nat, srcva: nat, perm: bv32, room: bool): Code
    requires s in envs
  {
    var t := if to == 0 then s else to;
    if t !in envs then BadEnv
    else if !envs[t].recving then NotRecv
    else if srcva >= UTOP then Done
    else if srcva % PGSIZE != 0 || !PermOk(perm) then Inval
    else if srcva !in envs[s].maps then Inval
    else if perm & PTE_W != 0 && envs[s].maps[srcva].perm & PTE_W == 0 then Inval
    else if envs[t].dstva < UTOP && !room then NoMem
    else Done
  }

  /** The page that changes hands, if any. */
  function Shared(envs: map<nat, Env>, s: nat, t: nat, srcva: nat, perm: bv32): Option<Pte>
    requires s in envs && t in envs
  {
    if srcva < UTOP && envs[t].dstva < UTOP && srcva in envs[s].maps then Some(Pte(envs[s].maps[srcva].page, perm))
    else None
  }

  /** The environments after a successful send. */
  function Delivered(envs: map<nat, Env>, s: nat, t: nat, value: int, srcva: nat, perm: bv32): map<nat, Env>
    requires s in envs && t in envs
  {
    var e := envs[t];
    var page := Shared(envs, s, t, srcva, perm);
    envs[t := Env(true, false, s, value, if page.Some? then perm else 0, e.dstva,
                  if page.Some? then e.maps[e.dstva := page.value] else e.maps, e.phase)]
  }

  // ---------------------------------------------------------------------------------------------
  // The system.

  datatype Msg = Msg(from: nat, to: nat, value: int, perm: bv32)

  /** log: the successful sends in order; got: what each environment's ipc_recv calls returned;
      done: for each environment, its ipc_send calls that returned.  Ids are never used twice. */
  datatype State = State(envs: map<nat, Env>, ever: set<nat>, log: seq<Msg>,
                         got: map<nat, seq<Msg>>, done: map<nat, seq<Msg>>)

  datatype Event =
    | Create(id: nat, e: Env)   // env_alloc clears env_ipc_recving and no other field seen here
    | Kill(id: nat)
    | Remap(id: nat, maps: map<nat, Pte>)
    | SetStatus(id: nat, run: bool)
    | StartSend(id: nat, to: nat, value: int, pg: Option<nat>, perm: bv32)
    | Attempt(id: nat, room: bool)
    | StartRecv(id: nat, pg: Option<nat>)
    | Resume(id: nat)
    | ReadFrom(id: nat)
    | ReadPerm(id: nat)
    | ReadValue(id: nat)

  function PageArg(pg: Option<nat>): nat { if pg.Some? then pg.value else UTOP }

  predicate Enabled(s: State, ev: Event) {
    if ev.Create? then ev.id !in s.ever && ev.id > 0 && !ev.e.recving && ev.e.phase.Computing?
    else
      && ev.id in s.envs && ev.id in s.got && ev.id in s.done
      && (!ev.Kill? && !ev.SetStatus? ==> s.envs[ev.id].runnable)
      && match ev
         case StartSend(id, _, _, _, _) => s.envs[id].phase.Computing?
         case Attempt(id, _) => s.envs[id].phase.Sending?
         case StartRecv(id, _) => s.envs[id].phase.Computing?
         case Resume(id) => s.envs[id].phase.Waiting?
         case ReadFrom(id) => s.envs[id].phase.Returned?
         case ReadPerm(id) => s.envs[id].phase.HaveFrom?
         case ReadValue(id) => s.envs[id].phase.HavePerm?
         // sys_env_set_status does not look at env_ipc_recving; see SetStatusExactly
         case SetStatus(id, run) => run ==> !s.envs[id].recving
         case _ => true
  }

  function SetEnv(s: State, id: nat, e: Env): State {
    State(s.envs[id := e], s.ever, s.log, s.got, s.done)
  }

  function SetPhase(s: State, id: nat, p: Phase): State
    requires id in s.envs
  {
    SetEnv(s, id, s.envs[id].(phase := p))
  }

  /** One round of the loop in ipc_send. */
  function AttemptSend(s: State, id: nat, room: bool): State
    requires id in s.envs && id in s.done && s.envs[id].phase.Sending?
  {
    var p := s.envs[id].phase;
    var t := if p.to == 0 then id else p.to;
    match SendCode(s.envs, id, p.to, p.pg, p.perm, room)
    case Done =>
      var envs := Delivered(s.envs, id, t, p.value, p.pg, p.perm);
      var m := Msg(id, t, p.value, envs[t].perm);
      SetPhase(State(envs, s.ever, s.log + [m], s.got, s.done[id := s.done[id] + [m]]), id, Computing)
    case NotRecv => s
    case BadEnv => SetPhase(s, id, Panicked)
    // env_ipc_perm was cleared before the checks
    case _ => SetPhase(SetEnv(s, t, s.envs[t].(perm := 0)), id, Panicked)
  }

  function Step(s: State, ev: Event): State
    requires (ev.SetStatus? && ev.id in s.envs) || Enabled(s, ev)
  {
    match ev
    case Create(id, e) =>
      State(s.envs[id := e], s.ever + {id}, s.log, s.got[id := []], s.done[id := []])
    case Kill(id) => State(s.envs - {id}, s.ever, s.log, s.got, s.done)
    case Remap(id, maps) => SetEnv(s, id, s.envs[id].(maps := maps))
    case SetStatus(id, run) => SetEnv(s, id, s.envs[id].(runnable := run))
    case StartSend(id, to, value, pg, perm) => SetPhase(s, id, Sending(to, value, PageArg(pg), perm))
    case Attempt(id, room) => AttemptSend(s, id, room)
    case StartRecv(id, pg) =>
      var dstva := PageArg(pg);
      if dstva < UTOP && dstva % PGSIZE != 0 then s
      else SetEnv(s, id, s.envs[id].(runnable := false, recving := true, dstva := dstva, phase := Waiting))
    case Resume(id) => SetPhase(s, id, Returned)
    case ReadFrom(id) => SetPhase(s, id, HaveFrom(s.envs[id].from))
    case ReadPerm(id) => SetPhase(s, id, HavePerm(s.envs[id].phase.from, s.envs[id].perm))
    case ReadValue(id) =>
      var m := Msg(s.envs[id].phase.from, id, s.envs[id].value, s.envs[id].phase.perm);
      State(s.envs[id := s.envs[id].(phase := Computing)], s.ever, s.log, s.got[id := s.got[id] + [m]], s.done)
  }

  // ---------------------------------------------------------------------------------------------
  // The invariant.

  /** The messages of the log that went to r. */
  function To(log: seq<Msg>, r: nat): seq<Msg> {
    if log == [] then [] else
      var m := log[|log| - 1];
      To(log[..|log| - 1], r) + if m.to == r then [m] else []
  }

  /** The messages of the log that came from s. */
  function From(log: seq<Msg>, s: nat): seq<Msg> {
    if log == [] then [] else
      var m := log[|log| - 1];
      From(log[..|log| - 1], s) + if m.from == s then [m] else []
  }

  lemma LogAppend(log: seq<Msg>, m: Msg, r: nat)
    ensures To(log + [m], r) == To(log, r) + if m.to == r then [m] else []
    ensures From(log + [m], r) == From(log, r) + if m.from == r then [m] else []
  {
    assert (log + [m])[..|log|] == log;
  }

  /** A message delivered to e and not yet returned to its program. */
  predicate Unread(e: Env) {
    e.phase.Returned? || e.phase.HaveFrom? || e.phase.HavePerm? || (e.phase.Waiting? && !e.recving)
  }

  function Pending(e: Env, id: nat): seq<Msg> {
    if Unread(e) then [Msg(e.from, id, e.value, e.perm)] else []
  }

  predicate EnvOk(e: Env) {
    && (e.recving ==> e.phase.Waiting? && !e.runnable)
    && (e.phase.HaveFrom? ==> e.phase.from == e.from)
    && (e.phase.HavePerm? ==> e.phase.from == e.from && e.phase.perm == e.perm)
  }

  ghost predicate Inv(s: State) {
    && 0 !in s.ever && s.got.Keys == s.ever && s.done.Keys == s.ever
    && (forall id :: id in s.envs ==> id in s.ever && EnvOk(s.envs[id]))
    && (forall id :: id in s.envs ==> To(s.log, id) == s.got[id] + Pending(s.envs[id], id))
    && (forall id :: id in s.ever ==> s.got[id] <= To(s.log, id) && |To(s.log, id)| <= |s.got[id]| + 1)
    && (forall id :: id in s.ever ==> From(s.log, id) == s.done[id])
    && (forall k :: 0 <= k < |s.log| ==> s.log[k].to in s.ever && s.log[k].from in s.ever)
  }

  lemma NoneBefore(log: seq<Msg>, r: nat)
    requires forall k :: 0 <= k < |log| ==> log[k].to != r && log[k].from != r
    ensures To(log, r) == [] && From(log, r) == []
  {
  }

  /** Changing one environment without touching what is pending for it. */
  lemma SetEnvKeepsInv(s: State, id: nat, e: Env)
    requires Inv(s) && id in s.envs && EnvOk(e) && Pending(e, id) == Pending(s.envs[id], id)
    ensures Inv(SetEnv(s, id, e))
  {
    hide To, From;
  }

  lemma ReadKeepsInv(s: State, id: nat)
    requires Inv(s) && Enabled(s, ReadValue(id))
    ensures Inv(Step(s, ReadValue(id)))
  {
    hide To, From;
  }

  lemma CreateKeepsInv(s: State, id: nat, e: Env)
    requires Inv(s) && Enabled(s, Create(id, e))
    ensures Inv(Step(s, Create(id, e)))
  {
    NoneBefore(s.log, id);
    hide To, From;
  }

  lemma OwnStepKeepsInv(s: State, ev: Event)
    requires Inv(s) && Enabled(s, ev)
    requires !ev.Create? && !ev.Kill? && !ev.Attempt? && !ev.ReadValue?
    ensures Inv(Step(s, ev))
  {
    assert EnvOk(s.envs[ev.id]);
    hide Inv;
    var r := Step(s, ev);
    if r != s {
      SetEnvKeepsInv(s, ev.id, r.envs[ev.id]);
    }
  }

  lemma StepKeepsInv(s: State, ev: Event)
    requires Inv(s) && Enabled(s, ev)
    ensures Inv(Step(s, ev))
  {
    match ev
    case Create(id, e) => CreateKeepsInv(s, id, e);
    case Kill(_) => hide To(), From();
    case Attempt(id, room) => AttemptKeepsInv(s, id, room);
    case ReadValue(id) => ReadKeepsInv(s, id);
    case _ => OwnStepKeepsInv(s, ev);
  }

  /** A send that was refused for anything but a missing target found the target waiting. */
  lemma SendCodeTarget(envs: map<nat, Env>, cur: nat, to: nat, srcva: nat, perm: bv32, room: bool)
    requires cur in envs
    ensures var t := if to == 0 then cur else to;
            var code := SendCode(envs, cur, to, srcva, perm, room);
            !code.BadEnv? && !code.NotRecv? ==> t in envs && envs[t].recving
  {
    hide PermOk;
  }

  lemma GiveUpKeepsInv(s: State, id: nat)
    requires Inv(s) && id in s.envs && s.envs[id].phase.Sending?
    ensures Inv(SetPhase(s, id, Panicked))
  {
    assert EnvOk(s.envs[id]);
    hide Inv;
    SetEnvKeepsInv(s, id, s.envs[id].(phase := Panicked));
  }

  lemma ClearKeepsInv(s: State, t: nat)
    requires Inv(s) && t in s.envs && s.envs[t].recving
    ensures Inv(SetEnv(s, t, s.envs[t].(perm := 0)))
  {
    assert EnvOk(s.envs[t]);
    hide Inv;
    SetEnvKeepsInv(s, t, s.envs[t].(perm := 0));
  }

  /** The sender may send page srcva with permission perm. */
  predicate MaySend(e: Env, srcva: nat, perm: bv32) {
    && srcva % PGSIZE == 0 && PermOk(perm) && srcva in e.maps
    && (perm & PTE_W != 0 ==> e.maps[srcva].perm & PTE_W != 0)
  }

  /** Which answer a sender gets: one for a target that does not exist, one for a target that does not
      wait, one for a page that may not be sent, one for want of memory. */
  predicate CodeIs(envs: map<nat, Env>, cur: nat, t: nat, srcva: nat, perm: bv32, room: bool, code: Code) {
    && cur in envs
    && (code == BadEnv <==> t !in envs)
    && (code == NotRecv <==> t in envs && !envs[t].recving)
    && (code == Inval <==> t in envs && envs[t].recving && srcva < UTOP && !MaySend(envs[cur], srcva, perm))
    && (code == NoMem <==> t in envs && envs[t].recving && srcva < UTOP && MaySend(envs[cur], srcva, perm)
                           && envs[t].dstva < UTOP && !room)
  }

  lemma SendCodeIs(envs: map<nat, Env>, cur: nat, to: nat, srcva: nat, perm: bv32, room: bool)
    requires cur in envs
    ensures var t, code := if to == 0 then cur else to, SendCode(envs, cur, to, srcva, perm, room);
      CodeIs(envs, cur, t, srcva, perm, room, code) && (code == Done && srcva < UTOP ==> srcva in envs[cur].maps)
  {
    hide PermOk;
  }

  /** When a send is tried again, when it goes through, and when the sender gives up. */
  lemma AttemptExactly(s: State, id: nat, room: bool)
    requires Inv(s) && Enabled(s, Attempt(id, room))
    ensures var r, p := Step(s, Attempt(id, room)), s.envs[id].phase;
      var t := if p.to == 0 then id else p.to;
      && (t in s.envs && !s.envs[t].recving ==> r == s)
      && (t !in s.envs ==> r == s.(envs := s.envs[id := s.envs[id].(phase := Panicked)]))
      && (t in s.envs && s.envs[t].recving ==>
            var page := p.pg < UTOP && s.envs[t].dstva < UTOP;
            if p.pg < UTOP && (!MaySend(s.envs[id], p.pg, p.perm) || (page && !room)) then
              r.log == s.log && id in r.envs && r.envs[id].phase == Panicked
            else
              && r.log == s.log + [Msg(id, t, p.value, if page then p.perm else 0)]
              && id in r.envs && r.envs[id].phase == Computing && t in r.envs && r.envs[t].runnable)
  {
    hide PermOk, To, From;
    assert forall x :: x in s.envs ==> EnvOk(s.envs[x]);
  }

  /** A receive waits, with the address it was given, exactly if that is aligned or no address of a user
      page; otherwise nothing happens. */
  lemma RecvExactly(s: State, id: nat, pg: Option<nat>)
    requires Enabled(s, StartRecv(id, pg))
    ensures var r := Step(s, StartRecv(id, pg));
      && id in r.envs
      && (r.envs[id].phase.Waiting? <==> pg.None? || pg.value >= UTOP || pg.value % PGSIZE == 0)
      && (r.envs[id].phase.Waiting? ==>
            && r.envs[id].recving && !r.envs[id].runnable
            && (r.envs[id].dstva < UTOP <==> pg.Some? && pg.value < UTOP)
            && (pg.Some? ==> r.envs[id].dstva == pg.value))
      && (!r.envs[id].phase.Waiting? ==> r == s)
  {
  }

  /** A step changes its own environment and, if it sends, the one it sends to. */
  lemma StepTouches(s: State, ev: Event, x: nat)
    requires Enabled(s, ev) && x in s.envs && x != ev.id
    requires ev.Attempt? ==> x != s.envs[ev.id].phase.to
    ensures x in Step(s, ev).envs && Step(s, ev).envs[x] == s.envs[x]
    ensures ev.Create? ==> ev.id in Step(s, ev).envs && Step(s, ev).envs[ev.id] == ev.e
    ensures ev.Kill? ==> ev.id !in Step(s, ev).envs
  {
    hide SendCode;
  }

  lemma AttemptKeepsInv(s: State, id: nat, room: bool)
    requires Inv(s) && Enabled(s, Attempt(id, room))
    ensures Inv(AttemptSend(s, id, room))
  {
    hide Inv, Delivered, SendCode, Pending;
    var p := s.envs[id].phase;
    var t := if p.to == 0 then id else p.to;
    SendCodeTarget(s.envs, id, p.to, p.pg, p.perm, room);
    match SendCode(s.envs, id, p.to, p.pg, p.perm, room)
    case Done =>
      DeliveryKeepsInv(s, id, t, p.value, p.pg, p.perm);
    case NotRecv =>
    case BadEnv =>
      GiveUpKeepsInv(s, id);
    case _ =>
      ClearKeepsInv(s, t);
      GiveUpKeepsInv(SetEnv(s, t, s.envs[t].(perm := 0)), id);
  }

  /** What a delivery makes of the environments. */
  lemma DeliveredEnvs(s: State, id: nat, t: nat, value: int, pg: nat, perm: bv32)
    requires id in s.envs && s.envs[id].phase.Sending? && t in s.envs && s.envs[t].recving
    requires EnvOk(s.envs[t]) && EnvOk(s.envs[id])
    ensures var envs := Delivered(s.envs, id, t, value, pg, perm);
      var after := envs[id := envs[id].(phase := Computing)];
      && t != id && Pending(s.envs[t], t) == [] == Pending(s.envs[id], id)
      && EnvOk(after[id]) && Pending(after[id], id) == []
      && EnvOk(after[t]) && Pending(after[t], t) == [Msg(id, t, value, envs[t].perm)]
      && after.Keys == s.envs.Keys && forall x :: x in s.envs && x != id && x != t ==> after[x] == s.envs[x]
  {
  }

  /** One more successful send, pending for its receiver, for whom nothing else was. */
  lemma LogGrows(s: State, r: State, m: Msg)
    requires Inv(s) && m.to in s.envs && m.from in s.ever && Pending(s.envs[m.to], m.to) == []
    requires r.ever == s.ever && r.got == s.got && r.log == s.log + [m] && r.envs.Keys == s.envs.Keys
    requires r.done == s.done[m.from := s.done[m.from] + [m]]
    requires forall x :: x in s.envs ==> EnvOk(r.envs[x])
    requires forall x :: x in s.envs ==>
      Pending(r.envs[x], x) == if x == m.to then [m] else Pending(s.envs[x], x)
    ensures Inv(r)
  {
    hide To, From, Pending, EnvOk;
    forall x | x in s.ever
      ensures To(r.log, x) == To(s.log, x) + if m.to == x then [m] else []
      ensures From(r.log, x) == From(s.log, x) + if m.from == x then [m] else []
    {
      LogAppend(s.log, m, x);
    }
    assert To(s.log, m.to) == s.got[m.to];
  }

  lemma DeliveryKeepsInv(s: State, id: nat, t: nat, value: int, pg: nat, perm: bv32)
    requires Inv(s) && id in s.envs && s.envs[id].phase.Sending? && t in s.envs && s.envs[t].recving
    ensures var envs := Delivered(s.envs, id, t, value, pg, perm);
      var m := Msg(id, t, value, envs[t].perm);
      Inv(SetPhase(State(envs, s.ever, s.log + [m], s.got, s.done[id := s.done[id] + [m]]), id, Computing))
  {
    assert EnvOk(s.envs[t]) && EnvOk(s.envs[id]) && forall x :: x in s.envs ==> EnvOk(s.envs[x]);
    DeliveredEnvs(s, id, t, value, pg, perm);
    hide Inv, Delivered, Pending, EnvOk;
    var envs := Delivered(s.envs, id, t, value, pg, perm);
    var m := Msg(id, t, value, envs[t].perm);
    var r := SetPhase(State(envs, s.ever, s.log + [m], s.got, s.done[id := s.done[id] + [m]]), id, Computing);
    LogGrows(s, r, m);
  }

  /** Setting the status of an environment that waits for a message is the one thing that must not be
      done: it is safe exactly when it does not make such an environment RUNNABLE. */
  lemma SetStatusExactly(s: State, id: nat, run: bool)
    requires Inv(s) && id in s.envs
    ensures Inv(Step(s, SetStatus(id, run))) <==> !(run && s.envs[id].recving)
  {
    hide To, From;
    var r := Step(s, SetStatus(id, run));
    assert r.envs == s.envs[id := s.envs[id].(runnable := run)];
    assert EnvOk(s.envs[id]);
    assert EnvOk(r.envs[id]) <==> !(run && s.envs[id].recving);
    if !(run && s.envs[id].recving) {
      assert forall x :: x in r.envs ==> EnvOk(r.envs[x]) && Pending(r.envs[x], x) == Pending(s.envs[x], x);
    }
  }

  /** And when it does, the environment returns from ipc_recv with a message nobody sent. */
  lemma WokenReadsStale(s: State, id: nat)
    requires Inv(s) && id in s.envs && s.envs[id].recving
    ensures var evs := [Resume(id), ReadFrom(id), ReadPerm(id), ReadValue(id)];
      var s1 := Step(s, SetStatus(id, true));
      && Runs(s1, evs)
      && Run(s1, evs).log == s.log && id in Run(s1, evs).got
      && Run(s1, evs).got[id] == To(s.log, id) + [Msg(s.envs[id].from, id, s.envs[id].value, s.envs[id].perm)]
  {
    assert EnvOk(s.envs[id]) && id in s.ever && To(s.log, id) == s.got[id];
    hide To, From, Inv;
    ReadsBack(Step(s, SetStatus(id, true)), id);
  }

  lemma ReadsBack(s: State, id: nat)
    requires id in s.envs && id in s.got && id in s.done && s.envs[id].runnable && s.envs[id].phase.Waiting?
    ensures var evs := [Resume(id), ReadFrom(id), ReadPerm(id), ReadValue(id)];
      && Runs(s, evs)
      && Run(s, evs).log == s.log && id in Run(s, evs).got
      && Run(s, evs).got[id] == s.got[id] + [Msg(s.envs[id].from, id, s.envs[id].value, s.envs[id].perm)]
  {
    hide Enabled;
    var s2 := SetPhase(s, id, Returned);
    var s3 := SetPhase(s2, id, HaveFrom(s.envs[id].from));
    var s4 := SetPhase(s3, id, HavePerm(s.envs[id].from, s.envs[id].perm));
    RunFirst(s4, ReadValue(id), []);
    RunFirst(s3, ReadPerm(id), [ReadValue(id)]);
    RunFirst(s2, ReadFrom(id), [ReadPerm(id), ReadValue(id)]);
    RunFirst(s, Resume(id), [ReadFrom(id), ReadPerm(id), ReadValue(id)]);
    assert [Resume(id)] + [ReadFrom(id), ReadPerm(id), ReadValue(id)]
        == [Resume(id), ReadFrom(id), ReadPerm(id), ReadValue(id)];
    assert [ReadFrom(id)] + [ReadPerm(id), ReadValue(id)] == [ReadFrom(id), ReadPerm(id), ReadValue(id)];
    assert [ReadPerm(id)] + [ReadValue(id)] == [ReadPerm(id), ReadValue(id)];
    assert [ReadValue(id)] + [] == [ReadValue(id)];
  }

  lemma RunFirst(s: State, ev: Event, evs: seq<Event>)
    requires Enabled(s, ev) && Runs(Step(s, ev), evs)
    ensures Runs(s, [ev] + evs) && Run(s, [ev] + evs) == Run(Step(s, ev), evs)
  {
    assert ([ev] + evs)[1..] == evs;
  }

  /** A send that fails leaves every other environment alone, except that it may clear env_ipc_perm of
      a receiver that still waits. */
  lemma FailedSendHarmless(s: State, id: nat, room: bool, x: nat)
    requires Enabled(s, Attempt(id, room)) && x in s.envs && x != id
    requires var p := s.envs[id].phase; !SendCode(s.envs, id, p.to, p.pg, p.perm, room).Done?
    ensures var r := AttemptSend(s, id, room);
      && r.log == s.log && r.got == s.got && r.done == s.done && x in r.envs
      && (r.envs[x] == s.envs[x] ||
          (s.envs[x].recving && s.envs[id].phase.to == x && r.envs[x] == s.envs[x].(perm := 0)))
  {
  }

  /** What was delivered and not yet read stays as it is, whatever anybody else does. */
  lemma UnreadStays(s: State, ev: Event, r: nat)
    requires Inv(s) && Enabled(s, ev) && r in s.envs && Unread(s.envs[r])
    requires ev != Kill(r) && ev != ReadValue(r)
    ensures var s' := Step(s, ev);
      && r in s'.envs && Unread(s'.envs[r])
      && s'.envs[r].from == s.envs[r].from && s'.envs[r].value == s.envs[r].value && s'.envs[r].perm == s.envs[r].perm
  {
    hide To, From, PermOk, Pending;
    assert EnvOk(s.envs[r]);
  }

  /** The receiver sees a nonzero perm exactly when a page came with the message, and then the page is
      the sender's, mapped where the receiver asked. */
  lemma PermTellsPage(envs: map<nat, Env>, s: nat, to: nat, value: int, srcva: nat, perm: bv32, room: bool)
    requires s in envs && SendCode(envs, s, to, srcva, perm, room).Done?
    ensures var t := if to == 0 then s else to;
      var e := Delivered(envs, s, t, value, srcva, perm)[t];
      && (e.perm != 0 <==> srcva < UTOP && envs[t].dstva < UTOP)
      && (e.perm != 0 ==> srcva in envs[s].maps && envs[t].dstva in e.maps
                          && e.maps[envs[t].dstva] == Pte(envs[s].maps[srcva].page, perm)
                          && (perm & PTE_W != 0 ==> envs[s].maps[srcva].perm & PTE_W != 0))
      && (forall va :: va in envs[t].maps && va != envs[t].dstva ==> va in e.maps && e.maps[va] == envs[t].maps[va])
  {
    assert PermOk(0) == false;
  }

  // ---------------------------------------------------------------------------------------------
  // Whole runs.

  predicate Runs(s: State, evs: seq<Event>)
    decreases |evs|
  {
    evs == [] || (Enabled(s, evs[0]) && Runs(Step(s, evs[0]), evs[1..]))
  }

  function Run(s: State, evs: seq<Event>): State
    requires Runs(s, evs)
    decreases |evs|
  {
    if evs == [] then s else Run(Step(s, evs[0]), evs[1..])
  }

  lemma {:induction false} RunKeepsInv(s: State, evs: seq<Event>)
    requires Inv(s) && Runs(s, evs)
    ensures Inv(Run(s, evs))
    decreases |evs|
  {
    if evs == [] {
    } else {
      StepKeepsInv(s, evs[0]);
      RunKeepsInv(Step(s, evs[0]), evs[1..]);
    }
  }

  /** In every run from the empty system, what a receiver's calls returned is exactly the successful
      sends to it in order, less at most one that it has not finished reading, and an environment's
      finished calls of ipc_send are exactly its successful sends in order. */
  lemma DeliveredOnceInOrder(evs: seq<Event>, id: nat)
    requires Runs(State(map[], {}, [], map[], map[]), evs)
    ensures var s := Run(State(map[], {}, [], map[], map[]), evs);
      && (id in s.ever ==> id in s.got && id in s.done && From(s.log, id) == s.done[id])
      && (id in s.ever ==> s.got[id] <= To(s.log, id) && |To(s.log, id)| <= |s.got[id]| + 1)
      && (id in s.envs ==> id in s.got && To(s.log, id) == s.got[id] + Pending(s.envs[id], id))
      && (id in s.envs && s.envs[id].phase.Computing? ==> To(s.log, id) == s.got[id])
  {
    RunKeepsInv(State(map[], {}, [], map[], map[]), evs);
  }

  // ---------------------------------------------------------------------------------------------
  // The code.

  /** Environment t, and no other, has changed: it has a message from cur and is awake; a page came with it
      if the sender gave one and the receiver wanted one. */
  predicate Received(envs: map<nat, Env>, envs': map<nat, Env>, cur: nat, t: nat, value: int, srcva: nat, perm: bv32) {
    && envs'.Keys == envs.Keys && cur in envs && t in envs
    && (forall x :: x in envs && x != t ==> envs'[x] == envs[x])
    && var e, e' := envs[t], envs'[t];
       && e'.runnable && !e'.recving && e'.from == cur && e'.value == value
       && e'.dstva == e.dstva && e'.phase == e.phase
       && if srcva < UTOP && e.dstva < UTOP then
            && srcva in envs[cur].maps && e'.perm == perm
            && e'.maps == e.maps[e.dstva := Pte(envs[cur].maps[srcva].page, perm)]
          else e'.perm == 0 && e'.maps == e.maps
  }

  lemma DeliveredIs(envs: map<nat, Env>, cur: nat, t: nat, value: int, srcva: nat, perm: bv32)
    requires cur in envs && t in envs && (srcva < UTOP ==> srcva in envs[cur].maps)
    ensures Received(envs, Delivered(envs, cur, t, value, srcva, perm), cur, t, value, srcva, perm)
  {
  }

  class Kernel {
    var envs: map<nat, Env>

    /** page_lookup of the sender's page; the mapping of a page that the source looks up without a
        test for presence is outside this model (see the module for page tables). */
    method SysIpcTrySend(cur: nat, to: nat, value: int, srcva: nat, perm: bv32, room: bool) returns (code: Code)
      requires cur in envs
      modifies this
      ensures code == SendCode(old(envs), cur, to, srcva, perm, room)
      ensures CodeIs(old(envs), cur, if to == 0 then cur else to, srcva, perm, room, code)
      ensures code == Done ==> Received(old(envs), envs, cur, if to == 0 then cur else to, value, srcva, perm)
      ensures code.Done? ==> envs == Delivered(old(envs), cur, if to == 0 then cur else to, value, srcva, perm)
      ensures code.BadEnv? || code.NotRecv? ==> envs == old(envs)
      ensures code.Inval? || code.NoMem? ==>
                var t := if to == 0 then cur else to; t in old(envs) && envs == old(envs)[t := old(envs[t].(perm := 0))]
    {
      hide CodeIs, Received, PermOk;
      SendCodeIs(envs, cur, to, srcva, perm, room);
      var t := if to == 0 then cur else to;
      if t !in envs {
        return BadEnv;
      }
      if !envs[t].recving {
        return NotRecv;
      }
      if SendCode(envs, cur, to, srcva, perm, room) == Done {
        DeliveredIs(envs, cur, t, value, srcva, perm);
      }
      code := TakePage(cur, t, srcva, perm, room);
      if code == Done {
        Wake(cur, t, value);
        assert envs == Delivered(old(envs), cur, t, value, srcva, perm);
      }
    }

    /** sys_ipc_try_send from the store to env_ipc_perm to the end of the page transfer (syscall.c:342-361). */
    method TakePage(cur: nat, t: nat, srcva: nat, perm: bv32, room: bool) returns (code: Code)
      requires cur in envs && t in envs
      modifies this
      ensures code == Inval <==> srcva < UTOP && !MaySend(old(envs)[cur], srcva, perm)
      ensures code == NoMem <==>
                srcva < UTOP && MaySend(old(envs)[cur], srcva, perm) && old(envs)[t].dstva < UTOP && !room
      ensures code == Done || code == Inval || code == NoMem
      ensures code == Done && srcva < UTOP ==> srcva in old(envs)[cur].maps
      ensures var e := old(envs)[t];
        envs == old(envs)[t := if code == Done && srcva < UTOP && e.dstva < UTOP
                               then e.(perm := perm,
                                       maps := e.maps[e.dstva := Pte(old(envs)[cur].maps[srcva].page, perm)])
                               else e.(perm := 0)]
    {
      hide PermOk;
      envs := envs[t := envs[t].(perm := 0)];
      if srcva < UTOP {
        if srcva % PGSIZE != 0 || !PermOk(perm) {
          return Inval;
        }
        if srcva !in envs[cur].maps {
          return Inval;
        }
        var pte := envs[cur].maps[srcva];
        if perm & PTE_W != 0 && pte.perm & PTE_W == 0 {
          return Inval;
        }
        if envs[t].dstva < UTOP {
          if !room {
            return NoMem;
          }
          envs := envs[t := envs[t].(maps := envs[t].maps[envs[t].dstva := Pte(pte.page, perm)])];
          envs := envs[t := envs[t].(perm := perm)];
        }
      }
      return Done;
    }

    /** The last four stores of sys_ipc_try_send (syscall.c:363-366). */
    method Wake(cur: nat, t: nat, value: int)
      requires t in envs
      modifies this
      ensures envs == old(envs)[t := old(envs[t].(recving := false, from := cur, value := value, runnable := true))]
    {
      envs := envs[t := envs[t].(recving := false)];
      envs := envs[t := envs[t].(from := cur)];
      envs := envs[t := envs[t].(value := value)];
      envs := envs[t := envs[t].(runnable := true)];
    }

    /** sys_ipc_recv; on success the caller stays in the kernel until a message comes. */
    method SysIpcRecv(cur: nat, dstva: nat) returns (code: Code)
      requires cur in envs
      modifies this
      ensures code == if dstva < UTOP && dstva % PGSIZE != 0 then Inval else Done
      ensures code.Inval? ==> envs == old(envs)
      ensures code.Done? ==>
        envs == old(envs)[cur := old(envs[cur].(runnable := false, recving := true, dstva := dstva))]
    {
      if dstva < UTOP && dstva % PGSIZE != 0 {
        return Inval;
      }
      envs := envs[cur := envs[cur].(runnable := false)];
      envs := envs[cur := envs[cur].(recving := true)];
      envs := envs[cur := envs[cur].(dstva := dstva)];
      return Done;
    }
  }
}
