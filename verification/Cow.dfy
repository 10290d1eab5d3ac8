/** Copy-on-write fork (tps/lib/fork.c) over the page-mapping system calls (tps/kern/syscall.c).

    Several environments run interleaved.  Every system call, every user load or store and every
    byte copied by the fault handler is one step, so two environments may be in the middle of
    `fork`, `duppage` or `pgfault` at the same time.  The reference it is compared with is a machine
    in which every environment owns its pages and `duppage` copies the page at once.  */
module Cow {

  const PGSIZE := 4096
  /** Page number of PFTEMP, where `pgfault` builds the private copy. */
  const PFTEMP := 0x7FF
  /** Page number of the user exception stack, UXSTACKTOP - PGSIZE. */
  const XSTACK := 0xEEBFF
  /** Number of pages below UTOP. */
  const USERPAGES := 0xEEC00

  type Byte = b: int | 0 <= b < 256
  type Page = p: seq<Byte> | |p| == PGSIZE witness seq(PGSIZE, _ => 0)

  function ZeroPage(): Page { seq(PGSIZE, _ => 0) }

  datatype Addr = Addr(env: nat, vpn: nat)

  /** A present, user-accessible page table entry: frame, PTE_W and PTE_COW. */
  datatype Pte = Pte(ppn: nat, w: bool, cow: bool)

  /** How far an environment is inside `pgfault` for page `v`. */
  datatype Fault =
    | NoFault
    | Taken(v: nat)                 // trapped, no system call made yet
    | Copying(v: nat, k: nat)       // a page is at PFTEMP, k bytes copied
    | Remapped(v: nat)              // the copy is mapped at v, PFTEMP not yet unmapped

  /** Whether an environment is between the two `sys_page_map` calls of `duppage`. */
  datatype Dup = NoDup | Half(child: nat, dv: nat)

  /** `embryo` holds the parent while the child is still ENV_NOT_RUNNABLE. */
  datatype Status = Runnable | Embryo(parent: nat)

  /** `upcall`: env_pgfault_upcall is set. */
  datatype Env = Env(status: Status, fault: Fault, dup: Dup, upcall: bool)

  datatype State = State(pt: map<Addr, Pte>, mem: map<nat, Page>, envs: map<nat, Env>)

  datatype Event =
    | Exofork(e: nat, c: nat)
    | SetUpcall(e: nat, c: nat)                // sys_env_set_pgfault_upcall on itself or on the child
    | ChildStack(e: nat, c: nat, q: nat)       // sys_page_alloc(child, UXSTACKTOP - PGSIZE)
    | MapChild(e: nat, c: nat, v: nat)         // first (or only) sys_page_map of duppage
    | MapSelf(e: nat)                          // second sys_page_map of duppage
    | SetRunnable(e: nat, c: nat)
    | Store(e: nat, v: nat, off: nat, b: Byte)
    | FaultAlloc(e: nat, q: nat)
    | FaultCopy(e: nat)                        // one byte of memcpy
    | FaultRemap(e: nat)
    | FaultUnmap(e: nat)
    | PageAlloc(e: nat, v: nat, q: nat, w: bool)
    | PageUnmap(e: nat, v: nat)
    | Exit(e: nat)                             // exit, panic, or destroyed by the parent

  /** No mapping refers to frame q: it is on the free list. */
  ghost predicate FreeFrame(s: State, q: nat) {
    forall a :: a in s.pt ==> s.pt[a].ppn != q
  }

  predicate Running(s: State, e: nat) {
    e in s.envs && s.envs[e].status.Runnable?
  }

  /** Running, and not inside the fault handler or between the two calls of duppage. */
  predicate Quiet(s: State, e: nat) {
    Running(s, e) && s.envs[e].fault.NoFault? && s.envs[e].dup.NoDup?
  }

  predicate Child(s: State, e: nat, c: nat) {
    c in s.envs && s.envs[c].status == Embryo(e)
  }

  predicate Scratch(v: nat) { v == PFTEMP || v == XSTACK }

  function SetEnv(s: State, e: nat, i: Env): State { State(s.pt, s.mem, s.envs[e := i]) }

  function SetPte(s: State, a: Addr, p: Pte): State { State(s.pt[a := p], s.mem, s.envs) }

  /** sys_page_alloc: a zeroed frame mapped at a, replacing what was there. */
  function AllocAt(s: State, a: Addr, q: nat, w: bool): State {
    State(s.pt[a := Pte(q, w, false)], s.mem[q := ZeroPage()], s.envs)
  }

  function Destroy(s: State, e: nat): State {
    State(map a | a in s.pt && a.env != e :: s.pt[a], s.mem, s.envs - {e})
  }

  /** First (or only) sys_page_map of duppage: the child's entry is read-only or copy-on-write. */
  function DoMapChild(s: State, e: nat, c: nat, v: nat): State
    requires e in s.envs && Addr(e, v) in s.pt
  {
    var pte := s.pt[Addr(e, v)];
    if pte.w || pte.cow then
      SetEnv(SetPte(s, Addr(c, v), Pte(pte.ppn, false, true)), e, s.envs[e].(dup := Half(c, v)))
    else
      SetPte(s, Addr(c, v), Pte(pte.ppn, false, false))
  }

  /** Second sys_page_map of duppage: whatever page is there now becomes copy-on-write. */
  function DoMapSelf(s: State, e: nat): State
    requires e in s.envs && s.envs[e].dup.Half? && Addr(e, s.envs[e].dup.dv) in s.pt
  {
    var a := Addr(e, s.envs[e].dup.dv);
    SetEnv(SetPte(s, a, Pte(s.pt[a].ppn, false, true)), e, s.envs[e].(dup := NoDup))
  }

  predicate Writable(s: State, a: Addr) { a in s.pt && s.pt[a].w }

  /** The kernel can hand a page fault to environment e: there is an upcall, and an exception stack. */
  predicate Armed(s: State, e: nat) {
    e in s.envs && s.envs[e].upcall && Writable(s, Addr(e, XSTACK))
  }

  /** A store to a copy-on-write page traps, if the kernel can push a frame on the exception stack. */
  predicate Traps(s: State, e: nat, v: nat) {
    Addr(e, v) in s.pt && s.pt[Addr(e, v)].cow && Armed(s, e)
  }

  function Poke(s: State, a: Addr, off: nat, b: Byte): State
    requires a in s.pt && s.pt[a].ppn in s.mem && off < PGSIZE
  {
    State(s.pt, s.mem[s.pt[a].ppn := s.mem[s.pt[a].ppn][off := b]], s.envs)
  }

  /** A user store: it goes through, or traps into pgfault, or kills the environment. */
  function DoStore(s: State, e: nat, v: nat, off: nat, b: Byte): State
    requires WellMapped(s) && e in s.envs && off < PGSIZE
  {
    if Writable(s, Addr(e, v)) then Poke(s, Addr(e, v), off, b)
    else if Traps(s, e, v) then SetEnv(s, e, s.envs[e].(fault := Taken(v)))
    else Destroy(s, e)
  }

  function DoFaultAlloc(s: State, e: nat, q: nat): State
    requires e in s.envs && s.envs[e].fault.Taken?
  {
    SetEnv(AllocAt(s, Addr(e, PFTEMP), q, true), e, s.envs[e].(fault := Copying(s.envs[e].fault.v, 0)))
  }

  function DoFaultCopy(s: State, e: nat): State
    requires WellMapped(s) && e in s.envs && s.envs[e].fault.Copying? && s.envs[e].fault.k < PGSIZE
    requires Addr(e, PFTEMP) in s.pt && Addr(e, s.envs[e].fault.v) in s.pt
  {
    var f := s.envs[e].fault;
    var src := s.mem[s.pt[Addr(e, f.v)].ppn];
    var q := s.pt[Addr(e, PFTEMP)].ppn;
    SetEnv(State(s.pt, s.mem[q := s.mem[q][f.k := src[f.k]]], s.envs), e,
           s.envs[e].(fault := Copying(f.v, f.k + 1)))
  }

  function DoFaultRemap(s: State, e: nat): State
    requires e in s.envs && s.envs[e].fault.Copying? && Addr(e, PFTEMP) in s.pt
  {
    var v := s.envs[e].fault.v;
    SetEnv(SetPte(s, Addr(e, v), Pte(s.pt[Addr(e, PFTEMP)].ppn, true, false)), e,
           s.envs[e].(fault := Remapped(v)))
  }

  function DoUnmap(s: State, a: Addr): State { State(s.pt - {a}, s.mem, s.envs) }

  ghost predicate Enabled(s: State, ev: Event) {
    match ev
    case Exofork(e, c) => Quiet(s, e) && c !in s.envs
    case SetUpcall(e, c) => Quiet(s, e) && (c == e || Child(s, e, c))
    case ChildStack(e, c, q) => Quiet(s, e) && Child(s, e, c) && FreeFrame(s, q)
    case MapChild(e, c, v) =>
      Quiet(s, e) && Child(s, e, c) && Addr(e, v) in s.pt && v != XSTACK
    case MapSelf(e) => Running(s, e) && s.envs[e].fault.NoFault? && s.envs[e].dup.Half?
    case SetRunnable(e, c) => Quiet(s, e) && Child(s, e, c)
    case Store(e, v, off, b) =>
      Running(s, e) && off < PGSIZE && v != PFTEMP && (s.envs[e].fault.NoFault? || v == XSTACK)
    case FaultAlloc(e, q) => Running(s, e) && s.envs[e].fault.Taken? && FreeFrame(s, q)
    case FaultCopy(e) => Running(s, e) && s.envs[e].fault.Copying? && s.envs[e].fault.k < PGSIZE
    case FaultRemap(e) => Running(s, e) && s.envs[e].fault.Copying? && s.envs[e].fault.k == PGSIZE
    case FaultUnmap(e) => Running(s, e) && s.envs[e].fault.Remapped?
    case PageAlloc(e, v, q, w) => Quiet(s, e) && v < USERPAGES && v != PFTEMP && FreeFrame(s, q)
    case PageUnmap(e, v) => Quiet(s, e) && v != PFTEMP
    case Exit(e) => e in s.envs && forall p :: p in s.envs && s.envs[p].dup.Half? ==> s.envs[p].dup.child != e
  }

  function Step(s: State, ev: Event): State
    requires Inv(s) && Enabled(s, ev)
  {
    match ev
    case Exofork(e, c) => SetEnv(s, c, Env(Embryo(e), NoFault, NoDup, false))
    case SetUpcall(e, c) => SetEnv(s, c, s.envs[c].(upcall := true))
    case ChildStack(e, c, q) => AllocAt(s, Addr(c, XSTACK), q, true)
    case MapChild(e, c, v) => DoMapChild(s, e, c, v)
    case MapSelf(e) => DoMapSelf(s, e)
    case SetRunnable(e, c) => SetEnv(s, c, s.envs[c].(status := Runnable))
    case Store(e, v, off, b) => DoStore(s, e, v, off, b)
    case FaultAlloc(e, q) => DoFaultAlloc(s, e, q)
    case FaultCopy(e) => DoFaultCopy(s, e)
    case FaultRemap(e) => DoFaultRemap(s, e)
    case FaultUnmap(e) => SetEnv(DoUnmap(s, Addr(e, PFTEMP)), e, s.envs[e].(fault := NoFault))
    case PageAlloc(e, v, q, w) => AllocAt(s, Addr(e, v), q, w)
    case PageUnmap(e, v) => DoUnmap(s, Addr(e, v))
    case Exit(e) => Destroy(s, e)
  }

  // ---------------------------------------------------------------------------------------------
  // The invariant.

  /** The only two situations in which a writable mapping a shares its frame with a mapping b. */
  predicate Exempt(s: State, a: Addr, b: Addr) {
    || (a.env in s.envs && s.envs[a.env].dup == Half(b.env, a.vpn) && b.vpn == a.vpn)
    || (a.env == b.env && a.env in s.envs && s.envs[a.env].fault.Remapped? &&
        (a.vpn == PFTEMP || b.vpn == PFTEMP) &&
        (a.vpn == s.envs[a.env].fault.v || b.vpn == s.envs[a.env].fault.v))
  }

  ghost predicate WellMapped(s: State) {
    forall a :: a in s.pt ==>
      a.env in s.envs && a.vpn < USERPAGES && s.pt[a].ppn in s.mem && !(s.pt[a].w && s.pt[a].cow)
  }

  /** A frame mapped writable has exactly one mapping. */
  ghost predicate Exclusive(s: State) {
    forall a, b :: a in s.pt && b in s.pt && a != b && s.pt[a].w && s.pt[a].ppn == s.pt[b].ppn
                   ==> Exempt(s, a, b)
  }

  ghost predicate FaultOk(s: State, e: nat)
    requires WellMapped(s) && e in s.envs
  {
    match s.envs[e].fault
    case NoFault => Addr(e, PFTEMP) !in s.pt
    case Taken(v) => InHandler(s, e, v) && s.pt[Addr(e, v)].cow && Addr(e, PFTEMP) !in s.pt
    case Copying(v, k) =>
      && InHandler(s, e, v) && s.pt[Addr(e, v)].cow
      && Addr(e, PFTEMP) in s.pt && s.pt[Addr(e, PFTEMP)].w && k <= PGSIZE
    case Remapped(v) =>
      && InHandler(s, e, v) && s.pt[Addr(e, v)].w
      && Addr(e, PFTEMP) in s.pt && s.pt[Addr(e, PFTEMP)] == s.pt[Addr(e, v)]
  }

  predicate InHandler(s: State, e: nat, v: nat)
    requires e in s.envs
  {
    && !Scratch(v) && Addr(e, v) in s.pt && s.envs[e].status.Runnable?
    && Addr(e, XSTACK) in s.pt && s.pt[Addr(e, XSTACK)].w
  }

  /** The first k bytes at PFTEMP are those of the page being copied. */
  ghost predicate CopyOk(s: State, e: nat)
    requires WellMapped(s) && e in s.envs && FaultOk(s, e)
  {
    s.envs[e].fault.Copying? ==>
      var f := s.envs[e].fault;
      forall i :: 0 <= i < f.k ==> s.mem[s.pt[Addr(e, PFTEMP)].ppn][i] == s.mem[s.pt[Addr(e, f.v)].ppn][i]
  }

  predicate DupOk(s: State, e: nat)
    requires e in s.envs
  {
    match s.envs[e].dup
    case NoDup => true
    case Half(c, v) =>
      && s.envs[e].status.Runnable? && !Scratch(v) && Child(s, e, c)
      && Addr(e, v) in s.pt && (s.pt[Addr(e, v)].w || s.pt[Addr(e, v)].cow)
      && Addr(c, v) in s.pt && s.pt[Addr(c, v)].cow
  }

  /** The exception stack is never copy-on-write. */
  ghost predicate StackOk(s: State) {
    forall a :: a in s.pt && a.vpn == XSTACK ==> !s.pt[a].cow
  }

  ghost predicate MapsOk(s: State) { WellMapped(s) && Exclusive(s) && StackOk(s) }

  ghost predicate EnvOk(s: State, e: nat)
    requires WellMapped(s) && e in s.envs
  {
    && FaultOk(s, e) && CopyOk(s, e) && DupOk(s, e)
    && (s.envs[e].status.Embryo? ==> s.envs[e].fault.NoFault?)
  }

  ghost predicate Inv(s: State) {
    MapsOk(s) && forall e :: e in s.envs ==> EnvOk(s, e)
  }

  // ---------------------------------------------------------------------------------------------
  // Each kind of step keeps the invariant: first what concerns mappings, then one environment x.

  lemma ExoforkMaps(s: State, e: nat, c: nat)
    requires Inv(s) && Quiet(s, e) && c !in s.envs
    ensures MapsOk(SetEnv(s, c, Env(Embryo(e), NoFault, NoDup, false)))
  {
  }

  lemma ExoforkEnv(s: State, e: nat, c: nat, x: nat)
    requires Inv(s) && Quiet(s, e) && c !in s.envs
    ensures var t := SetEnv(s, c, Env(Embryo(e), NoFault, NoDup, false));
            WellMapped(t) && (x in t.envs ==> EnvOk(t, x))
  {
    ExoforkMaps(s, e, c);
  }

  lemma SetUpcallMaps(s: State, e: nat, c: nat)
    requires Inv(s) && c in s.envs
    ensures MapsOk(SetEnv(s, c, s.envs[c].(upcall := true)))
  {
    var t := SetEnv(s, c, s.envs[c].(upcall := true));
    assert forall a, b :: Exempt(s, a, b) <==> Exempt(t, a, b);
  }

  lemma SetUpcallEnv(s: State, e: nat, c: nat, x: nat)
    requires Inv(s) && c in s.envs
    ensures var t := SetEnv(s, c, s.envs[c].(upcall := true)); WellMapped(t) && (x in t.envs ==> EnvOk(t, x))
  {
    SetUpcallMaps(s, e, c);
    assert x in s.envs ==> EnvOk(s, x);
  }

  lemma ChildStackMaps(s: State, e: nat, c: nat, q: nat)
    requires Inv(s) && Quiet(s, e) && Child(s, e, c) && FreeFrame(s, q)
    ensures MapsOk(AllocAt(s, Addr(c, XSTACK), q, true))
  {
    var t := AllocAt(s, Addr(c, XSTACK), q, true);
    forall a, b | a in t.pt && b in t.pt && a != b && t.pt[a].w && t.pt[a].ppn == t.pt[b].ppn
      ensures Exempt(t, a, b)
    {
      assert Exempt(s, a, b);
    }
  }

  lemma ChildStackEnv(s: State, e: nat, c: nat, q: nat, x: nat)
    requires Inv(s) && Quiet(s, e) && Child(s, e, c) && FreeFrame(s, q)
    ensures var t := AllocAt(s, Addr(c, XSTACK), q, true); WellMapped(t) && (x in t.envs ==> EnvOk(t, x))
  {
    ChildStackMaps(s, e, c, q);
  }

  lemma MapChildMaps(s: State, e: nat, c: nat, v: nat)
    requires Inv(s) && Quiet(s, e) && Child(s, e, c) && Addr(e, v) in s.pt && v != XSTACK
    ensures MapsOk(DoMapChild(s, e, c, v))
  {
    var t := DoMapChild(s, e, c, v);
    var n := Addr(c, v);
    assert forall a :: a in s.pt && a != Addr(e, v) && s.pt[a].w && s.pt[a].ppn == s.pt[Addr(e, v)].ppn
                       ==> Exempt(s, a, Addr(e, v));
    forall a, b | a in t.pt && b in t.pt && a != b && t.pt[a].w && t.pt[a].ppn == t.pt[b].ppn
      ensures Exempt(t, a, b)
    {
      if a != n && b != n { assert Exempt(s, a, b); }
    }
  }

  lemma MapChildEnv(s: State, e: nat, c: nat, v: nat, x: nat)
    requires Inv(s) && Quiet(s, e) && Child(s, e, c) && Addr(e, v) in s.pt && v != XSTACK
    ensures var t := DoMapChild(s, e, c, v); WellMapped(t) && (x in t.envs ==> EnvOk(t, x))
  {
    hide WellMapped;
    MapChildMaps(s, e, c, v);
    var t := DoMapChild(s, e, c, v);
    assert EnvOk(s, e) && (x in s.envs ==> EnvOk(s, x));
    if x in t.envs && x != e && x != c {
      assert forall u :: Addr(x, u) in t.pt <==> Addr(x, u) in s.pt;
    }
  }

  lemma MapSelfMaps(s: State, e: nat)
    requires Inv(s) && Running(s, e) && s.envs[e].fault.NoFault? && s.envs[e].dup.Half?
    ensures MapsOk(DoMapSelf(s, e))
  {
    var t := DoMapSelf(s, e);
    forall a, b | a in t.pt && b in t.pt && a != b && t.pt[a].w && t.pt[a].ppn == t.pt[b].ppn
      ensures Exempt(t, a, b)
    {
      assert Exempt(s, a, b);
    }
  }

  lemma MapSelfEnv(s: State, e: nat, x: nat)
    requires Inv(s) && Running(s, e) && s.envs[e].fault.NoFault? && s.envs[e].dup.Half?
    ensures var t := DoMapSelf(s, e); WellMapped(t) && (x in t.envs ==> EnvOk(t, x))
  {
    MapSelfMaps(s, e);
  }

  lemma SetRunnableMaps(s: State, e: nat, c: nat)
    requires Inv(s) && Quiet(s, e) && Child(s, e, c)
    ensures MapsOk(SetEnv(s, c, s.envs[c].(status := Runnable)))
  {
  }

  lemma SetRunnableEnv(s: State, e: nat, c: nat, x: nat)
    requires Inv(s) && Quiet(s, e) && Child(s, e, c)
    ensures var t := SetEnv(s, c, s.envs[c].(status := Runnable)); WellMapped(t) && (x in t.envs ==> EnvOk(t, x))
  {
    SetRunnableMaps(s, e, c);
  }

  lemma PokeMaps(s: State, e: nat, v: nat, off: nat, b: Byte)
    requires Inv(s) && Running(s, e) && off < PGSIZE && v != PFTEMP && Writable(s, Addr(e, v))
    requires s.envs[e].fault.NoFault? || v == XSTACK
    ensures MapsOk(Poke(s, Addr(e, v), off, b))
  {
  }

  lemma PokeEnv(s: State, e: nat, v: nat, off: nat, b: Byte, x: nat)
    requires Inv(s) && Running(s, e) && off < PGSIZE && v != PFTEMP && Writable(s, Addr(e, v))
    requires s.envs[e].fault.NoFault? || v == XSTACK
    ensures var t := Poke(s, Addr(e, v), off, b); WellMapped(t) && (x in t.envs ==> EnvOk(t, x))
  {
    PokeMaps(s, e, v, off, b);
    var a := Addr(e, v);
    var t := Poke(s, a, off, b);
    if x in t.envs && t.envs[x].fault.Copying? {
      assert Addr(x, t.envs[x].fault.v) != a && Addr(x, PFTEMP) != a;
      assert !Exempt(s, a, Addr(x, t.envs[x].fault.v));
      assert !Exempt(s, a, Addr(x, PFTEMP));
    }
  }

  lemma TrapMaps(s: State, e: nat, v: nat)
    requires Inv(s) && Running(s, e) && v != PFTEMP && s.envs[e].fault.NoFault? && Traps(s, e, v)
    ensures MapsOk(SetEnv(s, e, s.envs[e].(fault := Taken(v))))
  {
  }

  lemma TrapEnv(s: State, e: nat, v: nat, x: nat)
    requires Inv(s) && Running(s, e) && v != PFTEMP && s.envs[e].fault.NoFault? && Traps(s, e, v)
    ensures var t := SetEnv(s, e, s.envs[e].(fault := Taken(v))); WellMapped(t) && (x in t.envs ==> EnvOk(t, x))
  {
    TrapMaps(s, e, v);
  }

  lemma FaultAllocMaps(s: State, e: nat, q: nat)
    requires Inv(s) && Running(s, e) && s.envs[e].fault.Taken? && FreeFrame(s, q)
    ensures MapsOk(DoFaultAlloc(s, e, q))
  {
    var t := DoFaultAlloc(s, e, q);
    forall a, b | a in t.pt && b in t.pt && a != b && t.pt[a].w && t.pt[a].ppn == t.pt[b].ppn
      ensures Exempt(t, a, b)
    {
      assert Exempt(s, a, b);
    }
  }

  lemma FaultAllocEnv(s: State, e: nat, q: nat, x: nat)
    requires Inv(s) && Running(s, e) && s.envs[e].fault.Taken? && FreeFrame(s, q)
    ensures var t := DoFaultAlloc(s, e, q); WellMapped(t) && (x in t.envs ==> EnvOk(t, x))
  {
    FaultAllocMaps(s, e, q);
  }

  lemma FaultCopyMaps(s: State, e: nat)
    requires Inv(s) && Running(s, e) && s.envs[e].fault.Copying? && s.envs[e].fault.k < PGSIZE
    ensures MapsOk(DoFaultCopy(s, e))
  {
  }

  /** While the copy is being made its frame is mapped at PFTEMP and nowhere else. */
  lemma TempIsPrivate(s: State, e: nat, a: Addr)
    requires Inv(s) && e in s.envs && s.envs[e].fault.Copying?
    requires a in s.pt && a != Addr(e, PFTEMP)
    ensures Addr(e, PFTEMP) in s.pt && s.pt[a].ppn != s.pt[Addr(e, PFTEMP)].ppn
  {
    assert EnvOk(s, e);
    assert !Exempt(s, Addr(e, PFTEMP), a);
  }

  lemma FaultCopyEnv(s: State, e: nat, x: nat)
    requires Inv(s) && Running(s, e) && s.envs[e].fault.Copying? && s.envs[e].fault.k < PGSIZE
    ensures var t := DoFaultCopy(s, e); WellMapped(t) && (x in t.envs ==> EnvOk(t, x))
  {
    FaultCopyMaps(s, e);
    forall a | a in s.pt && a != Addr(e, PFTEMP)
      ensures s.pt[a].ppn != s.pt[Addr(e, PFTEMP)].ppn
    {
      TempIsPrivate(s, e, a);
    }
    assert EnvOk(s, e) && (x in s.envs ==> EnvOk(s, x));
    assert WellMapped(s);
    hide Inv, StackOk, Exclusive, MapsOk;
  }

  lemma FaultRemapMaps(s: State, e: nat)
    requires Inv(s) && Running(s, e) && s.envs[e].fault.Copying? && s.envs[e].fault.k == PGSIZE
    ensures MapsOk(DoFaultRemap(s, e))
  {
    var t := DoFaultRemap(s, e);
    var tmp := Addr(e, PFTEMP);
    var n := Addr(e, s.envs[e].fault.v);
    assert forall b :: b in s.pt && b != tmp && s.pt[b].ppn == s.pt[tmp].ppn ==> Exempt(s, tmp, b);
    forall a, b | a in t.pt && b in t.pt && a != b && t.pt[a].w && t.pt[a].ppn == t.pt[b].ppn
      ensures Exempt(t, a, b)
    {
      if a != n && b != n { assert Exempt(s, a, b); }
    }
  }

  lemma FaultRemapEnv(s: State, e: nat, x: nat)
    requires Inv(s) && Running(s, e) && s.envs[e].fault.Copying? && s.envs[e].fault.k == PGSIZE
    ensures var t := DoFaultRemap(s, e); WellMapped(t) && (x in t.envs ==> EnvOk(t, x))
  {
    FaultRemapMaps(s, e);
  }

  lemma FaultUnmapMaps(s: State, e: nat)
    requires Inv(s) && Running(s, e) && s.envs[e].fault.Remapped?
    ensures MapsOk(SetEnv(DoUnmap(s, Addr(e, PFTEMP)), e, s.envs[e].(fault := NoFault)))
  {
    hide EnvOk;
  }

  lemma FaultUnmapEnv(s: State, e: nat, x: nat)
    requires Inv(s) && Running(s, e) && s.envs[e].fault.Remapped?
    ensures var t := SetEnv(DoUnmap(s, Addr(e, PFTEMP)), e, s.envs[e].(fault := NoFault));
            WellMapped(t) && (x in t.envs ==> EnvOk(t, x))
  {
    FaultUnmapMaps(s, e);
  }

  lemma PageAllocMaps(s: State, e: nat, v: nat, q: nat, w: bool)
    requires Inv(s) && Quiet(s, e) && v < USERPAGES && v != PFTEMP && FreeFrame(s, q)
    ensures MapsOk(AllocAt(s, Addr(e, v), q, w))
  {
    var t := AllocAt(s, Addr(e, v), q, w);
    forall a, b | a in t.pt && b in t.pt && a != b && t.pt[a].w && t.pt[a].ppn == t.pt[b].ppn
      ensures Exempt(t, a, b)
    {
      assert Exempt(s, a, b);
    }
  }

  lemma PageAllocEnv(s: State, e: nat, v: nat, q: nat, w: bool, x: nat)
    requires Inv(s) && Quiet(s, e) && v < USERPAGES && v != PFTEMP && FreeFrame(s, q)
    ensures var t := AllocAt(s, Addr(e, v), q, w); WellMapped(t) && (x in t.envs ==> EnvOk(t, x))
  {
    PageAllocMaps(s, e, v, q, w);
  }

  lemma PageUnmapMaps(s: State, e: nat, v: nat)
    requires Inv(s) && Quiet(s, e) && v != PFTEMP
    ensures MapsOk(DoUnmap(s, Addr(e, v)))
  {
  }

  lemma PageUnmapEnv(s: State, e: nat, v: nat, x: nat)
    requires Inv(s) && Quiet(s, e) && v != PFTEMP
    ensures var t := DoUnmap(s, Addr(e, v)); WellMapped(t) && (x in t.envs ==> EnvOk(t, x))
  {
    PageUnmapMaps(s, e, v);
  }

  lemma ExitMaps(s: State, e: nat)
    requires Inv(s) && e in s.envs && forall p :: p in s.envs && s.envs[p].dup.Half? ==> s.envs[p].dup.child != e
    ensures MapsOk(Destroy(s, e))
  {
  }

  lemma ExitEnv(s: State, e: nat, x: nat)
    requires Inv(s) && e in s.envs && forall p :: p in s.envs && s.envs[p].dup.Half? ==> s.envs[p].dup.child != e
    ensures var t := Destroy(s, e); WellMapped(t) && (x in t.envs ==> EnvOk(t, x))
  {
    ExitMaps(s, e);
  }

  lemma StepKeepsInv(s: State, ev: Event)
    requires Inv(s) && Enabled(s, ev)
    ensures Inv(Step(s, ev))
  {
    var t := Step(s, ev);
    StepMaps(s, ev);
    forall x | x in t.envs ensures EnvOk(t, x) { StepEnv(s, ev, x); }
  }

  lemma StepMaps(s: State, ev: Event)
    requires Inv(s) && Enabled(s, ev)
    ensures MapsOk(Step(s, ev))
  {
    match ev
    case Exofork(e, c) => ExoforkMaps(s, e, c);
    case SetUpcall(e, c) => SetUpcallMaps(s, e, c);
    case ChildStack(e, c, q) => ChildStackMaps(s, e, c, q);
    case MapChild(e, c, v) => MapChildMaps(s, e, c, v);
    case MapSelf(e) => MapSelfMaps(s, e);
    case SetRunnable(e, c) => SetRunnableMaps(s, e, c);
    case Store(e, v, off, b) =>
      if Writable(s, Addr(e, v)) { PokeMaps(s, e, v, off, b); }
      else if Traps(s, e, v) { TrapMaps(s, e, v); }
      else { ExitMaps(s, e); }
    case FaultAlloc(e, q) => FaultAllocMaps(s, e, q);
    case FaultCopy(e) => FaultCopyMaps(s, e);
    case FaultRemap(e) => FaultRemapMaps(s, e);
    case FaultUnmap(e) => FaultUnmapMaps(s, e);
    case PageAlloc(e, v, q, w) => PageAllocMaps(s, e, v, q, w);
    case PageUnmap(e, v) => PageUnmapMaps(s, e, v);
    case Exit(e) => ExitMaps(s, e);
  }

  /** A fork in progress concerns a child that does not run yet. */
  lemma RunningIsNoChild(s: State, e: nat)
    requires Inv(s) && Running(s, e)
    ensures forall p :: p in s.envs && s.envs[p].dup.Half? ==> s.envs[p].dup.child != e
  {
    assert forall p :: p in s.envs ==> EnvOk(s, p);
  }

  lemma StepEnv(s: State, ev: Event, x: nat)
    requires Inv(s) && Enabled(s, ev) && x in Step(s, ev).envs
    ensures WellMapped(Step(s, ev)) && EnvOk(Step(s, ev), x)
  {
    hide EnvOk, Exclusive, StackOk, FreeFrame;
    match ev
    case Exofork(e, c) => ExoforkEnv(s, e, c, x);
    case SetUpcall(e, c) => SetUpcallEnv(s, e, c, x);
    case ChildStack(e, c, q) => ChildStackEnv(s, e, c, q, x);
    case MapChild(e, c, v) => MapChildEnv(s, e, c, v, x);
    case MapSelf(e) => MapSelfEnv(s, e, x);
    case SetRunnable(e, c) => SetRunnableEnv(s, e, c, x);
    case Store(e, v, off, b) =>
      if Writable(s, Addr(e, v)) { PokeEnv(s, e, v, off, b, x); }
      else if Traps(s, e, v) { TrapEnv(s, e, v, x); }
      else {
        RunningIsNoChild(s, e);
        ExitEnv(s, e, x);
      }
    case FaultAlloc(e, q) => FaultAllocEnv(s, e, q, x);
    case FaultCopy(e) => FaultCopyEnv(s, e, x);
    case FaultRemap(e) => FaultRemapEnv(s, e, x);
    case FaultUnmap(e) => FaultUnmapEnv(s, e, x);
    case PageAlloc(e, v, q, w) => PageAllocEnv(s, e, v, q, w, x);
    case PageUnmap(e, v) => PageUnmapEnv(s, e, v, x);
    case Exit(e) => ExitEnv(s, e, x);
  }

  // ---------------------------------------------------------------------------------------------
  // The reference: every environment owns its pages, and copying is immediate.

  /** A page with its contents and whether its owner may write it. */
  datatype Own = Own(content: Page, rw: bool)

  type Eager = map<Addr, Own>

  datatype Op =
    | Put(a: Addr, page: Page, rw: bool)
    | Write(a: Addr, off: nat, b: Byte)
    | Copy(src: Addr, dst: Addr)
    | Drop(a: Addr)
    | DropEnv(env: nat)

  function Apply(g: Eager, op: Op): Eager {
    match op
    case Put(a, page, rw) => g[a := Own(page, rw)]
    case Write(a, off, b) =>
      if a in g && off < PGSIZE then g[a := Own(g[a].content[off := b], g[a].rw)] else g
    case Copy(src, dst) => if src in g then g[dst := g[src]] else g
    case Drop(a) => g - {a}
    case DropEnv(e) => map a | a in g && a.env != e :: g[a]
  }

  function ApplyAll(g: Eager, ops: seq<Op>): Eager
    decreases |ops|
  {
    if ops == [] then g else ApplyAll(Apply(g, ops[0]), ops[1..])
  }

  /** What each environment sees, apart from its two scratch pages. */
  ghost function Abs(s: State): Eager
    requires WellMapped(s)
  {
    map a | a in s.pt && !Scratch(a.vpn) :: Own(s.mem[s.pt[a].ppn], s.pt[a].w || s.pt[a].cow)
  }

  /** Between the two calls of duppage the child still shares a page that the parent can write. */
  predicate SharedWindow(s: State, e: nat, v: nat) {
    && e in s.envs && s.envs[e].dup.Half? && s.envs[e].dup.dv == v
    && Writable(s, Addr(e, v)) && Addr(s.envs[e].dup.child, v) in s.pt
    && s.pt[Addr(s.envs[e].dup.child, v)].ppn == s.pt[Addr(e, v)].ppn
  }

  /** The eager operations one step stands for.  Every step of the fault handler and the second call
      of duppage stand for none; a parent that writes inside the window renews the child's copy. */
  ghost function Ops(s: State, ev: Event): seq<Op> {
    match ev
    case MapChild(e, c, v) => [Copy(Addr(e, v), Addr(c, v))]
    case Store(e, v, off, b) =>
      if Writable(s, Addr(e, v)) then
        if v == XSTACK then []
        else if SharedWindow(s, e, v) then
          [Write(Addr(e, v), off, b), Copy(Addr(e, v), Addr(s.envs[e].dup.child, v))]
        else [Write(Addr(e, v), off, b)]
      else if Traps(s, e, v) then [] else [DropEnv(e)]
    case PageAlloc(e, v, q, w) => if v == XSTACK then [] else [Put(Addr(e, v), ZeroPage(), w)]
    case PageUnmap(e, v) => [Drop(Addr(e, v))]
    case Exit(e) => [DropEnv(e)]
    case _ => []
  }

  lemma MapChildRefines(s: State, e: nat, c: nat, v: nat)
    requires Inv(s) && Enabled(s, MapChild(e, c, v))
    ensures MapsOk(DoMapChild(s, e, c, v))
    ensures Abs(DoMapChild(s, e, c, v)) == Apply(Abs(s), Copy(Addr(e, v), Addr(c, v)))
  {
    hide FaultOk, WellMapped, Scratch, EnvOk;
    MapChildMaps(s, e, c, v);
    assert EnvOk(s, e);
  }

  lemma ApplyOneOrTwo(g: Eager, x: Op, y: Op)
    ensures ApplyAll(g, [x]) == Apply(g, x)
    ensures ApplyAll(g, [x, y]) == Apply(Apply(g, x), y)
  {
    assert [x, y][1..] == [y] && [x][1..] == [] && [y][1..] == [];
    assert ApplyAll(Apply(g, x), [y]) == ApplyAll(Apply(Apply(g, x), y), []);
  }

  /** Another mapping of a frame that is stored to is the child's, between the two calls of duppage. */
  lemma SharedOnlyInWindow(s: State, e: nat, v: nat, a: Addr)
    requires Inv(s) && Running(s, e) && v != PFTEMP && Writable(s, Addr(e, v))
    requires s.envs[e].fault.NoFault? || v == XSTACK
    requires a in s.pt && a != Addr(e, v) && s.pt[a].ppn == s.pt[Addr(e, v)].ppn
    ensures SharedWindow(s, e, v) && a == Addr(s.envs[e].dup.child, v)
  {
    assert EnvOk(s, e);
    assert Exempt(s, Addr(e, v), a);
  }

  lemma WindowIsPage(s: State, e: nat, v: nat)
    requires Inv(s) && SharedWindow(s, e, v)
    ensures !Scratch(v) && s.pt[Addr(s.envs[e].dup.child, v)].cow
  {
    assert EnvOk(s, e);
  }

  lemma PokeRefines(s: State, e: nat, v: nat, off: nat, b: Byte)
    requires Inv(s) && Enabled(s, Store(e, v, off, b)) && Writable(s, Addr(e, v))
    ensures MapsOk(Poke(s, Addr(e, v), off, b))
    ensures Abs(Poke(s, Addr(e, v), off, b)) == ApplyAll(Abs(s), Ops(s, Store(e, v, off, b)))
  {
    hide EnvOk, Exclusive, StackOk, Exempt, FreeFrame, ApplyAll;
    var p := Addr(e, v);
    var t := Poke(s, p, off, b);
    PokeMaps(s, e, v, off, b);
    forall a | a in s.pt && a != p && s.pt[a].ppn == s.pt[p].ppn
      ensures SharedWindow(s, e, v) && a == Addr(s.envs[e].dup.child, v)
    {
      SharedOnlyInWindow(s, e, v, a);
    }
    var w := Write(p, off, b);
    var w1 := Apply(Abs(s), w);
    if SharedWindow(s, e, v) {
      WindowIsPage(s, e, v);
      var c := Copy(p, Addr(s.envs[e].dup.child, v));
      ApplyOneOrTwo(Abs(s), w, c);
      assert Abs(t) == Apply(w1, c);
    } else if v != XSTACK {
      ApplyOneOrTwo(Abs(s), w, w);
      assert Abs(t) == w1;
    } else {
      NoOps(Abs(s));
      assert Abs(t) == Abs(s);
    }
  }

  lemma NoOps(g: Eager)
    ensures ApplyAll(g, []) == g
  {
  }

  lemma FaultCopyRefines(s: State, e: nat)
    requires Inv(s) && Enabled(s, FaultCopy(e))
    ensures MapsOk(Step(s, FaultCopy(e))) && Abs(Step(s, FaultCopy(e))) == Abs(s)
  {
    FaultCopyMaps(s, e);
    var t := DoFaultCopy(s, e);
    forall a | a in s.pt && !Scratch(a.vpn) ensures Abs(t)[a] == Abs(s)[a] { TempIsPrivate(s, e, a); }
  }

  /** Once every byte is copied, remapping the page changes neither its contents nor its rights. */
  lemma FaultRemapRefines(s: State, e: nat)
    requires Inv(s) && Enabled(s, FaultRemap(e))
    ensures MapsOk(Step(s, FaultRemap(e))) && Abs(Step(s, FaultRemap(e))) == Abs(s)
  {
    FaultRemapMaps(s, e);
    assert EnvOk(s, e);
    var p := s.mem[s.pt[Addr(e, s.envs[e].fault.v)].ppn];
    assert s.mem[s.pt[Addr(e, PFTEMP)].ppn] == p;
  }

  lemma AllocRefines(s: State, a: Addr, q: nat, w: bool)
    requires WellMapped(s) && a.env in s.envs && a.vpn < USERPAGES && FreeFrame(s, q)
    ensures WellMapped(AllocAt(s, a, q, w))
    ensures Abs(AllocAt(s, a, q, w)) == if Scratch(a.vpn) then Abs(s) else Apply(Abs(s), Put(a, ZeroPage(), w))
  {
  }

  lemma UnmapRefines(s: State, a: Addr)
    requires WellMapped(s)
    ensures WellMapped(DoUnmap(s, a)) && Abs(DoUnmap(s, a)) == Apply(Abs(s), Drop(a))
    ensures Scratch(a.vpn) ==> Abs(DoUnmap(s, a)) == Abs(s)
  {
  }

  /** The second call of duppage turns a readable and writable page into a copy-on-write one. */
  lemma MapSelfRefines(s: State, e: nat)
    requires Inv(s) && Enabled(s, MapSelf(e))
    ensures WellMapped(DoMapSelf(s, e)) && Abs(DoMapSelf(s, e)) == Abs(s)
  {
    hide StackOk, Exclusive, CopyOk;
    assert EnvOk(s, e);
  }

  lemma StepRefines(s: State, ev: Event)
    requires Inv(s) && Enabled(s, ev)
    ensures Inv(Step(s, ev))
    ensures Abs(Step(s, ev)) == ApplyAll(Abs(s), Ops(s, ev))
  {
    StepKeepsInv(s, ev);
    if ev.Store? && Writable(s, Addr(ev.e, ev.v)) {
      PokeRefines(s, ev.e, ev.v, ev.off, ev.b);
    } else {
      if Ops(s, ev) != [] { ApplyOneOrTwo(Abs(s), Ops(s, ev)[0], Ops(s, ev)[0]); }
      StepRefinesOne(s, ev);
    }
  }

  lemma StepRefinesOne(s: State, ev: Event)
    requires Inv(s) && Enabled(s, ev) && !(ev.Store? && Writable(s, Addr(ev.e, ev.v)))
    requires WellMapped(Step(s, ev))
    ensures Abs(Step(s, ev)) == if Ops(s, ev) == [] then Abs(s) else Apply(Abs(s), Ops(s, ev)[0])
  {
    hide EnvOk, Exclusive, StackOk, FreeFrame, Apply;
    match ev
    case MapChild(e, c, v) => MapChildRefines(s, e, c, v);
    case MapSelf(e) => MapSelfRefines(s, e);
    case ChildStack(e, c, q) => AllocRefines(s, Addr(c, XSTACK), q, true);
    case FaultAlloc(e, q) => AllocRefines(s, Addr(e, PFTEMP), q, true);
    case FaultCopy(e) => FaultCopyRefines(s, e);
    case FaultRemap(e) => FaultRemapRefines(s, e);
    case FaultUnmap(e) => UnmapRefines(s, Addr(e, PFTEMP));
    case PageAlloc(e, v, q, w) => AllocRefines(s, Addr(e, v), q, w);
    case PageUnmap(e, v) => UnmapRefines(s, Addr(e, v));
    case Store(e, _, _, _) => DestroyRefines(s, e);
    case Exit(e) => DestroyRefines(s, e);
    case _ =>
  }

  lemma DestroyRefines(s: State, e: nat)
    requires WellMapped(s)
    ensures WellMapped(Destroy(s, e)) && Abs(Destroy(s, e)) == Apply(Abs(s), DropEnv(e))
  {
  }

  // ---------------------------------------------------------------------------------------------
  // Whole runs.

  /** The events can be performed one after the other from s, and lead to t.  Inv is here only because
      Step is defined under it; StepKeepsInv says that it rules out no event. */
  ghost predicate Runs(s: State, evs: seq<Event>, t: State)
    decreases |evs|
  {
    if evs == [] then s == t
    else Inv(s) && Enabled(s, evs[0]) && Runs(Step(s, evs[0]), evs[1..], t)
  }

  ghost function RunOps(s: State, evs: seq<Event>): seq<Op>
    decreases |evs|
  {
    if evs == [] || !Inv(s) || !Enabled(s, evs[0]) then []
    else Ops(s, evs[0]) + RunOps(Step(s, evs[0]), evs[1..])
  }

  lemma {:induction false} ApplyConcat(g: Eager, xs: seq<Op>, ys: seq<Op>)
    ensures ApplyAll(g, xs + ys) == ApplyAll(ApplyAll(g, xs), ys)
    decreases |xs|
  {
    if xs == [] {
      assert xs + ys == ys;
    } else {
      assert (xs + ys)[1..] == xs[1..] + ys;
      ApplyConcat(Apply(g, xs[0]), xs[1..], ys);
    }
  }

  /** The machine before the first environment runs any code. */
  function Boot(): State { State(map[], map[], map[0 := Env(Runnable, NoFault, NoDup, false)]) }

  /** Copy-on-write refines eager copying over every interleaving, and a frame mapped writable has
      no second mapping except inside duppage or just before the fault handler drops PFTEMP. */
  lemma {:induction false} RunRefinesEager(s: State, evs: seq<Event>, t: State)
    requires Inv(s) && Runs(s, evs, t)
    ensures Inv(t) && Exclusive(t)
    ensures Abs(t) == ApplyAll(Abs(s), RunOps(s, evs))
    decreases |evs|
  {
    if evs == [] {
    } else {
      var m := Step(s, evs[0]);
      StepRefines(s, evs[0]);
      RunRefinesEager(m, evs[1..], t);
      ApplyConcat(Abs(s), Ops(s, evs[0]), RunOps(m, evs[1..]));
    }
  }

  /** From boot, whatever the interleaving, a load returns the byte the eager machine holds. */
  lemma EveryLoadIsEager(evs: seq<Event>, t: State, a: Addr, off: nat)
    requires Runs(Boot(), evs, t) && a in t.pt && !Scratch(a.vpn) && off < PGSIZE
    ensures var g := ApplyAll(map[], RunOps(Boot(), evs));
            a in g && t.pt[a].ppn in t.mem && t.mem[t.pt[a].ppn][off] == g[a].content[off]
  {
    RunRefinesEager(Boot(), evs, t);
  }

  /** Nothing an environment does changes a page of another running environment. */
  lemma StepIsIsolated(s: State, ev: Event, x: nat, v: nat)
    requires Inv(s) && Enabled(s, ev) && Running(s, x) && x != ev.e && !Scratch(v)
    ensures Inv(Step(s, ev))
    ensures Addr(x, v) in Abs(Step(s, ev)) <==> Addr(x, v) in Abs(s)
    ensures Addr(x, v) in Abs(s) ==> Abs(Step(s, ev))[Addr(x, v)] == Abs(s)[Addr(x, v)]
  {
    hide Abs, EnvOk, Enabled, WellMapped;
    StepRefines(s, ev);
    OpsAvoid(s, ev, x);
    var ops := Ops(s, ev);
    if |ops| == 1 {
      ApplyOneOrTwo(Abs(s), ops[0], ops[0]);
    } else if |ops| == 2 {
      assert ops == [ops[0], ops[1]];
      ApplyOneOrTwo(Abs(s), ops[0], ops[1]);
    }
  }

  /** What an environment's stores depend on, the upcall and the exception stack, nobody can take away but
      the environment itself, or its parent as long as it does not run. */
  lemma ArmedStays(s: State, ev: Event, x: nat)
    requires Inv(s) && Enabled(s, ev) && Armed(s, x) && x in Step(s, ev).envs
    requires !(ev.PageAlloc? && ev.e == x && ev.v == XSTACK) && !(ev.PageUnmap? && ev.e == x && ev.v == XSTACK)
    ensures Armed(Step(s, ev), x)
  {
    hide Exclusive, StackOk, CopyOk;
    if ev.MapSelf? || ev.FaultRemap? { assert EnvOk(s, ev.e); }
  }

  /** The exception stack of an environment is its own. */
  lemma StackIsPrivate(s: State, x: nat, a: Addr)
    requires Inv(s) && x in s.envs && Writable(s, Addr(x, XSTACK)) && a in s.pt && a != Addr(x, XSTACK)
    ensures s.pt[a].ppn != s.pt[Addr(x, XSTACK)].ppn
  {
    assert EnvOk(s, x);
    assert !Exempt(s, Addr(x, XSTACK), a);
  }

  /** A store to a page that the eager machine lets its owner write does not kill an armed environment. */
  lemma ArmedStoreGoesOn(s: State, e: nat, v: nat, off: nat, b: Byte)
    requires Inv(s) && Enabled(s, Store(e, v, off, b)) && Armed(s, e)
    requires Addr(e, v) in Abs(s) && Abs(s)[Addr(e, v)].rw
    ensures Running(Step(s, Store(e, v, off, b)), e)
  {
  }

  /** sys_page_alloc gives a page of zeros, writable as asked for. */
  lemma FreshPage(s: State, e: nat, v: nat, q: nat, w: bool, off: nat)
    requires Inv(s) && Enabled(s, PageAlloc(e, v, q, w)) && off < PGSIZE
    ensures var t := Step(s, PageAlloc(e, v, q, w));
      && Addr(e, v) in t.pt && t.pt[Addr(e, v)].ppn in t.mem && t.mem[t.pt[Addr(e, v)].ppn][off] == 0
      && (Writable(t, Addr(e, v)) <==> w)
  {
  }

  predicate Avoids(op: Op, x: nat) {
    match op
    case Put(a, _, _) => a.env != x
    case Write(a, _, _) => a.env != x
    case Copy(_, dst) => dst.env != x
    case Drop(a) => a.env != x
    case DropEnv(e) => e != x
  }

  lemma OpsAvoid(s: State, ev: Event, x: nat)
    requires Inv(s) && Enabled(s, ev) && Running(s, x) && x != ev.e
    ensures |Ops(s, ev)| <= 2 && forall i :: 0 <= i < |Ops(s, ev)| ==> Avoids(Ops(s, ev)[i], x)
  {
    if ev.Store? { assert EnvOk(s, ev.e); }
  }

  // ---------------------------------------------------------------------------------------------
  // The library routines, run from beginning to end by one environment.

  /** g after environment c received a copy of every page of e below page number n. */
  ghost function Forked(g: Eager, e: nat, c: nat, n: nat): Eager {
    map a | a in g.Keys + (set k | k in g && k.env == e && k.vpn < n :: Addr(c, k.vpn)) ::
      if a.env == c && a.vpn < n && Addr(e, a.vpn) in g then g[Addr(e, a.vpn)] else g[a]
  }

  lemma ForkedNone(g: Eager, e: nat, c: nat)
    ensures Forked(g, e, c, 0) == g
  {
  }

  lemma ForkedStep(g: Eager, e: nat, c: nat, n: nat)
    requires e != c && (forall a :: a in g ==> a.env != c)
    ensures Forked(g, e, c, n + 1) == Apply(Forked(g, e, c, n), Copy(Addr(e, n), Addr(c, n)))
  {
    var l, r := Forked(g, e, c, n + 1), Apply(Forked(g, e, c, n), Copy(Addr(e, n), Addr(c, n)));
    assert forall a :: a in l <==> a in r;
    assert forall a :: a in l ==> l[a] == r[a];
  }

  /** The exception stacks are where they were, and no frame has been taken. */
  ghost predicate Undisturbed(s: State, t: State) {
    && (forall x :: Addr(x, XSTACK) in s.pt <==> Addr(x, XSTACK) in t.pt)
    && (forall x :: Addr(x, XSTACK) in s.pt ==> t.pt[Addr(x, XSTACK)] == s.pt[Addr(x, XSTACK)])
    && (forall p :: FreeFrame(s, p) ==> FreeFrame(t, p))
  }

  lemma UndisturbedSelf(s: State)
    ensures Undisturbed(s, s)
  {
  }

  lemma UndisturbedTwice(s: State, t: State, u: State)
    requires Undisturbed(s, t) && Undisturbed(t, u)
    ensures Undisturbed(s, u)
  {
  }

  lemma UndisturbedKeeps(s: State, t: State, x: nat)
    requires Undisturbed(s, t) && t.envs == s.envs
    ensures Armed(t, x) <==> Armed(s, x)
    ensures forall p :: FreeFrame(s, p) ==> FreeFrame(t, p)
  {
  }

  lemma NoPagesOf(s: State, c: nat)
    requires WellMapped(s) && c !in s.envs
    ensures forall a :: a in Abs(s) ==> a.env != c
  {
  }

  class Machine {
    var s: State

    constructor ()
      ensures s == Boot() && Inv(s)
    {
      s := Boot();
    }

    /** One step of the machine. */
    method Perform(ev: Event)
      requires Inv(s) && Enabled(s, ev)
      modifies this
      ensures s == Step(old(s), ev) && Inv(s)
      ensures Ops(old(s), ev) == [] ==> Abs(s) == old(Abs(s))
      ensures |Ops(old(s), ev)| == 1 ==> Abs(s) == Apply(old(Abs(s)), Ops(old(s), ev)[0])
    {
      StepRefines(s, ev);
      if |Ops(s, ev)| == 1 { ApplyOneOrTwo(Abs(s), Ops(s, ev)[0], Ops(s, ev)[0]); }
      s := Step(s, ev);
    }

    /** The memcpy of pgfault (fork.c:40). */
    method CopyPage(e: nat)
      requires Inv(s) && Running(s, e) && s.envs[e].fault.Copying? && s.envs[e].fault.k == 0
      modifies this
      ensures Inv(s) && Abs(s) == old(Abs(s))
      ensures s.envs == old(s.envs)[e := old(s.envs)[e].(fault := Copying(old(s.envs)[e].fault.v, PGSIZE))]
    {
      ghost var s0 := s;
      var k := 0;
      while k < PGSIZE
        invariant 0 <= k <= PGSIZE
        invariant Inv(s) && Abs(s) == Abs(s0) && Running(s, e)
        invariant s.envs == s0.envs[e := s0.envs[e].(fault := Copying(s0.envs[e].fault.v, k))]
      {
        Perform(FaultCopy(e));
        k := k + 1;
      }
    }

    /** pgfault (fork.c:15-45): q is the frame sys_page_alloc hands out. */
    method Pgfault(e: nat, q: nat)
      requires Inv(s) && Running(s, e) && s.envs[e].fault.Taken? && FreeFrame(s, q)
      modifies this
      ensures Inv(s) && Abs(s) == old(Abs(s))
      ensures s.envs == old(s.envs)[e := old(s.envs)[e].(fault := NoFault)]
      ensures Writable(s, Addr(e, old(s.envs)[e].fault.v))
    {
      hide Inv, Abs, Writable, FreeFrame, Enabled;
      AllocTemp(e, q);
      CopyPage(e);
      FinishFault(e);
    }

    /** The first system call of pgfault (fork.c:38). */
    method AllocTemp(e: nat, q: nat)
      requires Inv(s) && Running(s, e) && s.envs[e].fault.Taken? && FreeFrame(s, q)
      modifies this
      ensures Inv(s) && Abs(s) == old(Abs(s))
      ensures s.envs == old(s.envs)[e := old(s.envs)[e].(fault := Copying(old(s.envs)[e].fault.v, 0))]
    {
      hide Inv, Abs, FreeFrame;
      Perform(FaultAlloc(e, q));
    }

    /** The last two system calls of pgfault (fork.c:41-44). */
    method FinishFault(e: nat)
      requires Inv(s) && Running(s, e) && s.envs[e].fault.Copying? && s.envs[e].fault.k == PGSIZE
      modifies this
      ensures Inv(s) && Abs(s) == old(Abs(s))
      ensures s.envs == old(s.envs)[e := old(s.envs)[e].(fault := NoFault)]
      ensures Writable(s, Addr(e, old(s.envs)[e].fault.v))
    {
      hide Inv, Abs, Writable, Enabled;
      RemapPage(e);
      UnmapTemp(e);
    }

    /** pgfault's page is the copy now (fork.c:41). */
    method RemapPage(e: nat)
      requires Inv(s) && Running(s, e) && s.envs[e].fault.Copying? && s.envs[e].fault.k == PGSIZE
      modifies this
      ensures Inv(s) && Abs(s) == old(Abs(s))
      ensures s.envs == old(s.envs)[e := old(s.envs)[e].(fault := Remapped(old(s.envs)[e].fault.v))]
    {
      hide Abs, Exclusive, StackOk, CopyOk, DupOk;
      Perform(FaultRemap(e));
    }

    /** ... and PFTEMP is unmapped (fork.c:43). */
    method UnmapTemp(e: nat)
      requires Inv(s) && Running(s, e) && s.envs[e].fault.Remapped?
      modifies this
      ensures Inv(s) && Abs(s) == old(Abs(s))
      ensures s.envs == old(s.envs)[e := old(s.envs)[e].(fault := NoFault)]
      ensures Writable(s, Addr(e, old(s.envs)[e].fault.v))
    {
      hide Abs, Exclusive, StackOk, CopyOk, DupOk;
      assert EnvOk(s, e);
      Perform(FaultUnmap(e));
    }

    /** A store instruction together with the fault it may take.  It is exactly one eager write, if the page
        is writable or copy-on-write; in the second case the environment needs its upcall and exception
        stack.  Otherwise it is the end of the environment. */
    method StoreByte(e: nat, v: nat, off: nat, b: Byte, q: nat) returns (alive: bool)
      requires Inv(s) && Quiet(s, e) && off < PGSIZE && !Scratch(v) && FreeFrame(s, q)
      modifies this
      ensures Inv(s)
      ensures alive <==> old(Addr(e, v) in Abs(s) && Abs(s)[Addr(e, v)].rw && (Writable(s, Addr(e, v)) || Armed(s, e)))
      ensures alive ==> s.envs == old(s.envs) && Abs(s) == Apply(old(Abs(s)), Write(Addr(e, v), off, b))
      ensures !alive ==> e !in s.envs && Abs(s) == Apply(old(Abs(s)), DropEnv(e))
    {
      hide Exclusive, StackOk, EnvOk, Apply;
      alive := Writable(s, Addr(e, v)) || Traps(s, e, v);
      if !alive {
        Perform(Store(e, v, off, b));
        return;
      }
      if !Writable(s, Addr(e, v)) {
        Perform(Store(e, v, off, b));
        Pgfault(e, q);
      }
      Perform(Store(e, v, off, b));
    }

    /** The second call of duppage (fork.c:68). */
    method MarkSelf(e: nat)
      requires Inv(s) && Enabled(s, MapSelf(e))
      modifies this
      ensures Inv(s) && Abs(s) == old(Abs(s))
      ensures s.envs == old(s.envs)[e := old(s.envs)[e].(dup := NoDup)]
      ensures forall a :: Writable(s, a) <==> old(Writable(s, a)) && a != Addr(e, old(s.envs)[e].dup.dv)
      ensures Undisturbed(old(s), s)
    {
      assert EnvOk(s, e);
      Perform(MapSelf(e));
    }

    /** The first call of duppage (fork.c:66 or 71). */
    method GiveChild(e: nat, c: nat, v: nat) returns (shared: bool)
      requires Inv(s) && Enabled(s, MapChild(e, c, v))
      modifies this
      ensures Inv(s) && Abs(s) == Apply(old(Abs(s)), Copy(Addr(e, v), Addr(c, v)))
      ensures s.envs == if shared then old(s.envs)[e := old(s.envs)[e].(dup := Half(c, v))] else old(s.envs)
      ensures forall a :: Writable(s, a) <==> old(Writable(s, a)) && a != Addr(c, v)
      ensures old(Writable(s, Addr(e, v))) ==> shared
      ensures Undisturbed(old(s), s)
    {
      hide Inv;
      StepKeepsInv(s, MapChild(e, c, v));
      MapChildRefines(s, e, c, v);
      shared := s.pt[Addr(e, v)].w || s.pt[Addr(e, v)].cow;
      s := DoMapChild(s, e, c, v);
    }

    /** duppage (fork.c:59-76). */
    method Duppage(e: nat, c: nat, v: nat)
      requires Inv(s) && Quiet(s, e) && Child(s, e, c) && Addr(e, v) in s.pt && v != XSTACK
      modifies this
      ensures Inv(s) && s.envs == old(s.envs)
      ensures Abs(s) == Apply(old(Abs(s)), Copy(Addr(e, v), Addr(c, v)))
      ensures !Writable(s, Addr(e, v)) && !Writable(s, Addr(c, v)) && Undisturbed(old(s), s)
    {
      hide Abs;
      var shared := GiveChild(e, c, v);
      if shared {
        MarkSelf(e);
      }
    }

    /** One round of the inner loop of fork (fork.c:164-170). */
    method ForkPage(e: nat, c: nat, v: nat)
      requires Inv(s) && Quiet(s, e) && Child(s, e, c)
      modifies this
      ensures Inv(s) && s.envs == old(s.envs) && Undisturbed(old(s), s)
      ensures Abs(s) == Apply(old(Abs(s)), Copy(Addr(e, v), Addr(c, v)))
    {
      assert EnvOk(s, e);
      if v != XSTACK && Addr(e, v) in s.pt {
        Duppage(e, c, v);
      }
    }

    /** The inner loop of fork for one page table (fork.c:164-170). */
    method ForkTable(e: nat, c: nat, pdx: nat, ghost g: Eager)
      requires Inv(s) && Quiet(s, e) && Child(s, e, c) && e != c
      requires (forall a :: a in g ==> a.env != c) && Abs(s) == Forked(g, e, c, pdx * 1024)
      modifies this
      ensures Inv(s) && s.envs == old(s.envs) && Abs(s) == Forked(g, e, c, pdx * 1024 + 1024)
      ensures Undisturbed(old(s), s)
    {
      hide EnvOk, Exclusive, StackOk, WellMapped, Abs, Forked, Apply, Undisturbed;
      UndisturbedSelf(s);
      var ptx := 0;
      while ptx < 1024
        invariant 0 <= ptx <= 1024
        invariant Inv(s) && s.envs == old(s.envs) && Abs(s) == Forked(g, e, c, pdx * 1024 + ptx)
        invariant Undisturbed(old(s), s)
      {
        ghost var t := s;
        ForkPage(e, c, pdx * 1024 + ptx);
        ForkedStep(g, e, c, pdx * 1024 + ptx);
        UndisturbedTwice(old(s), t, s);
        ptx := ptx + 1;
      }
    }

    /** Both loops of fork (fork.c:160-171). */
    method ForkPages(e: nat, c: nat, ghost g: Eager)
      requires Inv(s) && Quiet(s, e) && Child(s, e, c) && e != c
      requires (forall a :: a in g ==> a.env != c) && Abs(s) == Forked(g, e, c, 0)
      modifies this
      ensures Inv(s) && s.envs == old(s.envs) && Abs(s) == Forked(g, e, c, USERPAGES) && Undisturbed(old(s), s)
    {
      hide EnvOk, Exclusive, StackOk, WellMapped, Abs, Forked, Undisturbed;
      UndisturbedSelf(s);
      var pdx := 0;
      while pdx < 955
        invariant 0 <= pdx <= 955
        invariant Inv(s) && s.envs == old(s.envs) && Abs(s) == Forked(g, e, c, pdx * 1024)
        invariant Undisturbed(old(s), s)
      {
        ghost var t := s;
        ForkTable(e, c, pdx, g);
        UndisturbedTwice(old(s), t, s);
        pdx := pdx + 1;
      }
    }

    /** set_pgfault_handler (tps/lib/pgfault.c:24-40).  The library's _pgfault_handler is set exactly when it
        has set the upcall; q is the frame for the exception stack. */
    method SetHandler(e: nat, q: nat)
      requires Inv(s) && Quiet(s, e) && FreeFrame(s, q)
      modifies this
      ensures Inv(s) && Abs(s) == old(Abs(s))
      ensures s.envs == old(s.envs)[e := old(s.envs)[e].(upcall := true)]
      ensures old(!s.envs[e].upcall || Armed(s, e)) ==> Armed(s, e)
      ensures forall p :: p != q && old(FreeFrame(s, p)) ==> FreeFrame(s, p)
    {
      hide Exclusive, StackOk, EnvOk, Abs;
      if !s.envs[e].upcall {
        Perform(PageAlloc(e, XSTACK, q, true));
        Perform(SetUpcall(e, e));
      }
    }

    /** The calls of fork before its loops (fork.c:145-158): the child exists, and can take page faults. */
    method Conceive(e: nat, c: nat, q0: nat, q: nat)
      requires Inv(s) && Quiet(s, e) && c !in s.envs && FreeFrame(s, q0) && FreeFrame(s, q) && q != q0
      modifies this
      ensures Inv(s) && Quiet(s, e) && Child(s, e, c) && Abs(s) == old(Abs(s))
      ensures s.envs[c].fault.NoFault? && s.envs[c].dup.NoDup? && Armed(s, c)
      ensures old(!s.envs[e].upcall || Armed(s, e)) ==> Armed(s, e)
      ensures forall p :: p != q && p != q0 && old(FreeFrame(s, p)) ==> FreeFrame(s, p)
      ensures forall x :: x in old(s.envs) && x != e ==> x in s.envs && s.envs[x] == old(s.envs)[x]
    {
      hide Exclusive, StackOk, EnvOk, Abs;
      SetHandler(e, q0);
      Perform(Exofork(e, c));
      Perform(SetUpcall(e, c));
      Perform(ChildStack(e, c, q));
    }

    /** fork (fork.c:143-175) as the parent runs it: afterwards the child owns a copy of every page the
        parent had, it can take page faults on an exception stack of its own, and neither the parent nor
        anybody else sees any change. */
    method Fork(e: nat, c: nat, q0: nat, q: nat)
      requires Inv(s) && Quiet(s, e) && c !in s.envs && FreeFrame(s, q0) && FreeFrame(s, q) && q != q0
      modifies this
      ensures Inv(s) && Quiet(s, e) && Quiet(s, c)
      ensures Abs(s) == Forked(old(Abs(s)), e, c, USERPAGES)
      ensures Armed(s, c) && Writable(s, Addr(c, XSTACK))
      ensures forall a :: a in s.pt && a != Addr(c, XSTACK) ==> s.pt[a].ppn != s.pt[Addr(c, XSTACK)].ppn
      ensures old(!s.envs[e].upcall || Armed(s, e)) ==> Armed(s, e)
      ensures forall p :: p != q && p != q0 && old(FreeFrame(s, p)) ==> FreeFrame(s, p)
      ensures forall x :: x in old(s.envs) && x != e ==> x in s.envs && s.envs[x] == old(s.envs)[x]
    {
      hide Exclusive, StackOk, EnvOk, Abs, Forked;
      ghost var g := Abs(s);
      NoPagesOf(s, c);
      ForkedNone(g, e, c);
      Conceive(e, c, q0, q);
      ghost var t := s;
      ForkPages(e, c, g);
      UndisturbedKeeps(t, s, e);
      UndisturbedKeeps(t, s, c);
      Perform(SetRunnable(e, c));
      forall a | a in s.pt && a != Addr(c, XSTACK) ensures s.pt[a].ppn != s.pt[Addr(c, XSTACK)].ppn {
        StackIsPrivate(s, c, a);
      }
    }

    /** A fork and then a store by the child, to any page its parent could have written: it goes through,
        to the child's copy alone. */
    method ChildStores(e: nat, c: nat, q0: nat, q: nat, v: nat, off: nat, b: Byte, q2: nat)
      requires Inv(s) && Quiet(s, e) && c !in s.envs && FreeFrame(s, q0) && FreeFrame(s, q) && q != q0
      requires FreeFrame(s, q2) && q2 != q && q2 != q0 && off < PGSIZE && !Scratch(v)
      requires Addr(e, v) in Abs(s) && Abs(s)[Addr(e, v)].rw
      modifies this
      ensures Inv(s) && Quiet(s, e) && Quiet(s, c)
      ensures Abs(s) == Apply(Forked(old(Abs(s)), e, c, USERPAGES), Write(Addr(c, v), off, b))
    {
      hide Exclusive, StackOk, EnvOk;
      ghost var g := Abs(s);
      Fork(e, c, q0, q);
      assert Addr(c, v) in Forked(g, e, c, USERPAGES) && Forked(g, e, c, USERPAGES)[Addr(c, v)] == g[Addr(e, v)];
      var alive := StoreByte(c, v, off, b, q2);
      assert alive;
    }
  }
}
