/** Environment ids and the free list of environments: tps/kern/env.c. */
module EnvIds {

  import opened Options

  const NENV := 1024
  const GENERATION := 4096       // 1 << ENVGENSHIFT
  const GENERATIONS := 524287    // ids one slot goes through before it starts over: 2^19 - 1

  datatype Result<T> = Ok(value: T) | BadEnv | NoFreeEnv | NoMem

  // ---------------------------------------------------------------------------------------------
  // The arithmetic of ids.

  /** Conversion to int32_t. */
  function Wrap32(x: int): (r: int)
    ensures -0x8000_0000 <= r < 0x8000_0000
    ensures -0x8000_0000 <= x < 0x8000_0000 ==> r == x
  {
    (x + 0x8000_0000) % 0x1_0000_0000 - 0x8000_0000
  }

  /** x & ~(NENV - 1) in two's complement. */
  function ClearSlot(x: int): int { x - x % NENV }

  /** ENVX: the slot an id names, for negative ids as well. */
  function EnvX(id: int): (r: nat)
    ensures r < NENV
  {
    id % NENV
  }

  /** The id env_alloc gives to a slot whose last id was `id` (env.c:219-222). */
  function NextId(id: int, slot: nat): int {
    var generation := ClearSlot(Wrap32(id + GENERATION));
    (if generation <= 0 then GENERATION else generation) + slot
  }

  /** The n-th id a slot is given, counting from 1; before the first it holds 0. */
  function NthId(slot: nat, n: nat): int {
    if n == 0 then 0 else GENERATION * ((n - 1) % GENERATIONS + 1) + slot
  }

  lemma SlotOfId(g: nat, slot: nat)
    requires slot < NENV
    ensures (GENERATION * g + slot) % NENV == slot
  {
  }

  lemma NextIdOf(g: nat, slot: nat)
    requires 0 < g <= GENERATIONS && slot < NENV
    ensures NextId(GENERATION * g + slot, slot) == GENERATION * (if g < GENERATIONS then g + 1 else 1) + slot
  {
    SlotOfId(g + 1, slot);
    var id := GENERATION * g + slot;
    if g == GENERATIONS {
      assert Wrap32(id + GENERATION) == -0x8000_0000 + slot;
    }
  }

  lemma Successor(n: nat)
    requires n > 0
    ensures n % GENERATIONS == if (n - 1) % GENERATIONS + 1 < GENERATIONS then (n - 1) % GENERATIONS + 1 else 0
  {
  }

  lemma NthIdNext(slot: nat, n: nat)
    requires slot < NENV
    ensures NextId(NthId(slot, n), slot) == NthId(slot, n + 1)
  {
    if n == 0 {
    } else {
      Successor(n);
      NextIdOf((n - 1) % GENERATIONS + 1, slot);
      hide NextId;
    }
  }

  /** An id is positive, names its slot, and comes back after exactly GENERATIONS allocations of it. */
  lemma NthIdIdentifies(slot: nat, n: nat, slot': nat, n': nat)
    requires slot < NENV && slot' < NENV && n > 0
    ensures 0 < NthId(slot, n) < 0x8000_0000
    ensures EnvX(NthId(slot, n)) == slot
    ensures NthId(slot, n) == NthId(slot', n') <==>
              slot == slot' && n' > 0 && (n - 1) % GENERATIONS == (n' - 1) % GENERATIONS
  {
    SlotOfId((n - 1) % GENERATIONS + 1, slot);
    if n' > 0 {
      SlotOfId((n' - 1) % GENERATIONS + 1, slot');
    }
  }

  // ---------------------------------------------------------------------------------------------
  // The table as a value.

  /** ids, whether each slot is in use, who created it, the free list from its head, and how often
      each slot was allocated. */
  datatype Table = Table(ids: seq<int>, live: seq<bool>, parents: seq<int>, free: seq<nat>, issued: seq<nat>)

  ghost predicate Inv(t: Table) {
    && |t.ids| == |t.live| == |t.parents| == |t.issued| == NENV
    && (forall k :: 0 <= k < NENV ==> t.ids[k] == NthId(k, t.issued[k]))
    && (forall k :: 0 <= k < NENV && t.live[k] ==> t.issued[k] > 0)
    && (forall i :: 0 <= i < |t.free| ==> t.free[i] < NENV && !t.live[t.free[i]])
    && (forall i, j :: 0 <= i < j < |t.free| ==> t.free[i] != t.free[j])
    && (forall k :: 0 <= k < NENV && !t.live[k] ==> k in t.free)
  }

  /** A successful env_alloc takes the head of the free list. */
  function Alloc(t: Table, parent: int): Table
    requires |t.ids| == |t.live| == |t.parents| == |t.issued| == NENV && t.free != [] && t.free[0] < NENV
  {
    var k := t.free[0];
    Table(t.ids[k := NextId(t.ids[k], k)], t.live[k := true], t.parents[k := parent], t.free[1..],
          t.issued[k := t.issued[k] + 1])
  }

  /** env_free puts the slot at the head. */
  function Free(t: Table, k: nat): Table
    requires |t.live| == NENV && k < NENV
  {
    Table(t.ids, t.live[k := false], t.parents, [k] + t.free, t.issued)
  }

  lemma AllocKeepsInv(t: Table, parent: int)
    requires Inv(t) && t.free != []
    ensures Inv(Alloc(t, parent))
  {
    var r := Alloc(t, parent);
    NthIdNext(t.free[0], t.issued[t.free[0]]);
    assert forall j :: 0 <= j < NENV && !r.live[j] ==> j in t.free && j != t.free[0] && j in r.free;
  }

  lemma FreeKeepsInv(t: Table, k: nat)
    requires Inv(t) && k < NENV && t.live[k]
    ensures Inv(Free(t, k))
  {
    var r := Free(t, k);
    assert forall j :: 0 <= j < NENV && !r.live[j] ==> j == k || j in t.free;
  }

  /** What envid2env finds without its permission check; 0 is the caller itself. */
  function Lookup(t: Table, id: int, cur: Option<nat>): Result<Option<nat>>
    requires Inv(t)
  {
    if id == 0 then Ok(cur)
    else if !t.live[EnvX(id)] || t.ids[EnvX(id)] != id then BadEnv
    else Ok(Some(EnvX(id)))
  }

  /** What envid2env with checkperm allows environment c. */
  predicate May(t: Table, c: nat, id: int)
    requires Inv(t) && c < NENV
  {
    && Lookup(t, id, Some(c)).Ok?
    && (id == 0 || EnvX(id) == c || t.parents[EnvX(id)] == t.ids[c])
  }

  lemma LiveIdsDistinct(t: Table, j: nat, k: nat)
    requires Inv(t) && j < NENV && k < NENV && t.live[j] && t.live[k] && j != k
    ensures t.ids[j] != t.ids[k] && t.ids[j] > 0 && t.ids[k] > 0
  {
    NthIdIdentifies(j, t.issued[j], k, t.issued[k]);
    NthIdIdentifies(k, t.issued[k], j, t.issued[j]);
  }

  /** Every live environment, and nothing else, is found under its own id. */
  lemma LookupFindsExactlyTheLive(t: Table, k: nat, id: int, cur: Option<nat>)
    requires Inv(t) && k < NENV && id != 0
    ensures Lookup(t, id, cur) == Ok(Some(k)) <==> t.live[k] && t.ids[k] == id
    ensures EnvX(id) == k && Lookup(t, id, cur) != Ok(Some(k)) ==> Lookup(t, id, cur) == BadEnv
  {
    if t.live[k] {
      NthIdIdentifies(k, t.issued[k], k, t.issued[k]);
    }
  }

  // ---------------------------------------------------------------------------------------------
  // Runs.

  datatype Op = Allocate(parent: int) | Release(k: nat)

  /** Inv, which every operation keeps, is what makes the operations defined. */
  ghost predicate Can(t: Table, op: Op) {
    Inv(t) && match op case Allocate(_) => t.free != [] case Release(k) => k < NENV && t.live[k]
  }

  ghost function Do(t: Table, op: Op): (r: Table)
    requires Can(t, op)
    ensures Inv(r)
  {
    match op
    case Allocate(p) => AllocKeepsInv(t, p); Alloc(t, p)
    case Release(k) => FreeKeepsInv(t, k); Free(t, k)
  }

  ghost predicate Runs(t: Table, ops: seq<Op>)
    decreases |ops|
  {
    ops == [] || (Can(t, ops[0]) && Runs(Do(t, ops[0]), ops[1..]))
  }

  ghost function Run(t: Table, ops: seq<Op>): (r: Table)
    requires Inv(t) && Runs(t, ops)
    ensures Inv(r)
    decreases |ops|
  {
    if ops == [] then t else Run(Do(t, ops[0]), ops[1..])
  }

  /** How many of the operations allocate slot k. */
  ghost function Tenancies(t: Table, ops: seq<Op>, k: nat): nat
    requires Inv(t) && Runs(t, ops)
    decreases |ops|
  {
    if ops == [] then 0
    else (if ops[0].Allocate? && t.free[0] == k then 1 else 0) + Tenancies(Do(t, ops[0]), ops[1..], k)
  }

  lemma {:induction false} RunCounts(t: Table, ops: seq<Op>, k: nat)
    requires Inv(t) && Runs(t, ops) && k < NENV
    ensures Run(t, ops).issued[k] == t.issued[k] + Tenancies(t, ops, k)
    decreases |ops|
  {
    if ops == [] {
    } else {
      RunCounts(Do(t, ops[0]), ops[1..], k);
    }
  }

  /** Whatever happens after slot k's tenant was given its id, looking that id up finds slot k exactly
      when the slot is in use and was allocated a multiple of GENERATIONS times since.  So a later
      tenant is never found while fewer than GENERATIONS allocations of the slot have happened. */
  lemma StaleIdResolvesExactly(t: Table, ops: seq<Op>, k: nat, cur: Option<nat>)
    requires Inv(t) && k < NENV && t.live[k] && Runs(t, ops)
    ensures var r := Run(t, ops);
      var n := Tenancies(t, ops, k);
      && (Lookup(r, t.ids[k], cur) == Ok(Some(k)) <==> r.live[k] && n % GENERATIONS == 0)
      && (0 < n < GENERATIONS ==> Lookup(r, t.ids[k], cur) == BadEnv)
  {
    hide NthId, Lookup, Tenancies, Run, EnvX;
    var r := Run(t, ops);
    var n := Tenancies(t, ops, k);
    RunCounts(t, ops, k);
    NthIdIdentifies(k, t.issued[k], k, r.issued[k]);
    LookupFindsExactlyTheLive(r, k, t.ids[k], cur);
    SameResidue(t.issued[k] - 1, n);
  }

  lemma {:induction false} RunKeepsParent(t: Table, ops: seq<Op>, k: nat)
    requires Inv(t) && Runs(t, ops) && k < NENV && Tenancies(t, ops, k) == 0
    ensures Run(t, ops).parents[k] == t.parents[k]
    decreases |ops|
  {
    hide NextId, NthId;
    if ops == [] {
    } else {
      RunKeepsParent(Do(t, ops[0]), ops[1..], k);
    }
  }

  lemma MayExactly(t: Table, c: nat, k: nat)
    requires Inv(t) && c < NENV && k < NENV && t.live[k]
    ensures May(t, c, t.ids[k]) <==> c == k || t.parents[k] == t.ids[c]
  {
    NthIdIdentifies(k, t.issued[k], k, t.issued[k]);
  }

  /** The id slot a's tenant has now is that of slot c's tenant at the end of the run. */
  lemma SameIdExactly(s: Table, ops: seq<Op>, a: nat, c: nat)
    requires Inv(s) && Runs(s, ops) && a < NENV && s.live[a] && c < NENV && Run(s, ops).live[c]
    ensures Run(s, ops).ids[c] == s.ids[a] <==> c == a && Tenancies(s, ops, a) % GENERATIONS == 0
  {
    hide NthId, Tenancies, Run;
    RunCounts(s, ops, a);
    NthIdIdentifies(a, s.issued[a], c, Run(s, ops).issued[c]);
    SameResidue(s.issued[a] - 1, Tenancies(s, ops, a));
  }

  /** As long as a child that environment a has created is in use, the child itself and a may name it, and
      no third environment may, until slot a was allocated a multiple of GENERATIONS times since. */
  lemma ChildObeysExactly(t: Table, a: nat, ops: seq<Op>, c: nat)
    requires Inv(t) && a < NENV && t.live[a] && t.free != [] && c < NENV
    requires Inv(Alloc(t, t.ids[a])) && Runs(Alloc(t, t.ids[a]), ops)
    requires var s := Alloc(t, t.ids[a]);
      Run(s, ops).live[t.free[0]] && Run(s, ops).live[c] && Tenancies(s, ops, t.free[0]) == 0
    ensures var s := Alloc(t, t.ids[a]);
      var r := Run(s, ops);
      var k := t.free[0];
      && r.ids[k] == s.ids[k] == NthId(k, t.issued[k] + 1)
      && (May(r, c, r.ids[k]) <==> c == k || (c == a && Tenancies(s, ops, a) % GENERATIONS == 0))
  {
    var s := Alloc(t, t.ids[a]);
    var k := t.free[0];
    NthIdNext(k, t.issued[k]);
    assert k != a && s.ids[a] == t.ids[a] && s.live[a] && s.parents[k] == t.ids[a];
    hide Alloc, Tenancies, Run, NthId, NextId, May, Lookup, Runs;
    RunCounts(s, ops, k);
    RunKeepsParent(s, ops, k);
    MayExactly(Run(s, ops), c, k);
    SameIdExactly(s, ops, a, c);
  }

  lemma SameResidue(a: nat, n: nat)
    ensures a % GENERATIONS == (a + n) % GENERATIONS <==> n % GENERATIONS == 0
  {
  }

  // ---------------------------------------------------------------------------------------------
  // The code.

  /** Following the links from head on visits exactly `list`, in order. */
  predicate Spells(links: seq<Option<nat>>, head: Option<nat>, list: seq<nat>) {
    && |links| == NENV
    && head == (if list == [] then None else Some(list[0]))
    && (forall i :: 0 <= i < |list| ==> list[i] < NENV)
    && (forall i :: 0 < i < |list| ==> links[list[i - 1]] == Some(list[i]))
    && (list != [] ==> links[list[|list| - 1]] == None)
  }

  lemma SpellsPop(links: seq<Option<nat>>, head: Option<nat>, list: seq<nat>)
    requires Spells(links, head, list) && list != []
    ensures Spells(links, links[list[0]], list[1..])
  {
    var rest := list[1..];
    assert forall i :: 0 <= i < |rest| ==> rest[i] == list[i + 1];
  }

  lemma SpellsPush(links: seq<Option<nat>>, head: Option<nat>, list: seq<nat>, e: nat)
    requires Spells(links, head, list) && e < NENV && e !in list
    ensures Spells(links[e := head], Some(e), [e] + list)
  {
    var more := [e] + list;
    assert forall i :: 0 < i < |more| ==> more[i] == list[i - 1] && more[i] != e;
  }

  lemma AllocIs(t: Table, links: seq<Option<nat>>, head: Option<nat>, parent: int)
    requires Inv(t) && Spells(links, head, t.free) && head.Some?
    ensures var e := head.value;
      && t.free != [] && e == t.free[0] && e < NENV == |t.ids| == |t.live| == |t.parents| == |t.issued|
      && |links| == NENV && Inv(Alloc(t, parent)) && Spells(links, links[e], t.free[1..])
      && NextId(t.ids[e], e) == NthId(e, t.issued[e] + 1)
      && Alloc(t, parent) == Table(t.ids[e := NextId(t.ids[e], e)], t.live[e := true], t.parents[e := parent],
                                   t.free[1..], t.issued[e := t.issued[e] + 1])
  {
    hide NextId, NthId;
    SpellsPop(links, head, t.free);
    NthIdNext(t.free[0], t.issued[t.free[0]]);
    AllocKeepsInv(t, parent);
  }

  class EnvTable {
    var ids: seq<int>
    var live: seq<bool>
    var parents: seq<int>
    var links: seq<Option<nat>>
    var freeList: Option<nat>
    ghost var free: seq<nat>
    ghost var issued: seq<nat>

    ghost function Value(): Table
      reads this
    {
      Table(ids, live, parents, free, issued)
    }

    ghost predicate Valid()
      reads this
    {
      Inv(Value()) && Spells(links, freeList, free)
    }

    /** The table in zeroed memory (every env_status is ENV_FREE), then env_init. */
    constructor ()
      ensures Valid()
      ensures free == seq(NENV, i requires 0 <= i < NENV => i)
      ensures forall k :: 0 <= k < NENV ==> !live[k] && issued[k] == 0
    {
      ids := seq(NENV, i => 0);
      live := seq(NENV, i => false);
      parents := seq(NENV, i => 0);
      links := seq(NENV, i => None);
      issued := seq(NENV, i => 0);
      free := seq(NENV, i requires 0 <= i < NENV => i);
      freeList := Some(0);
      new;
      var i := 0;
      while i < NENV
        invariant 0 <= i <= NENV && |ids| == |links| == NENV
        invariant forall k :: 0 <= k < NENV ==> ids[k] == 0
        invariant forall k :: 0 <= k < i ==> links[k] == Some(k + 1)
        invariant free == seq(NENV, i requires 0 <= i < NENV => i) && issued == seq(NENV, i => 0)
        invariant live == seq(NENV, i => false) && |parents| == NENV && freeList == Some(0)
      {
        ids := ids[i := 0];
        links := links[i := Some(i + 1)];
        i := i + 1;
      }
      links := links[NENV - 1 := None];
      forall k | 0 <= k < NENV
        ensures k in free
      {
        assert free[k] == k;
      }
    }

    /** env_alloc; vmOk says whether env_setup_vm found a page for the directory. */
    method EnvAlloc(parent: int, vmOk: bool) returns (r: Result<int>)
      requires Valid()
      modifies this
      ensures Valid()
      ensures old(free) == [] ==> r == NoFreeEnv && Value() == old(Value())
      ensures old(free) != [] && !vmOk ==> r == NoMem && Value() == old(Value())
      ensures old(free) != [] && vmOk ==>
                && Value() == Alloc(old(Value()), parent)
                && r == Ok(NthId(old(free[0]), old(issued[free[0]]) + 1))
      ensures r.Ok? ==>
                var e := old(free[0]);
                && ids == old(ids)[e := r.value] && live == old(live)[e := true]
                && parents == old(parents)[e := parent] && free == old(free)[1..]
                && issued == old(issued)[e := old(issued)[e] + 1]
    {
      hide Wrap32, NthId, ClearSlot, Alloc, Inv;
      if freeList.None? {
        return NoFreeEnv;
      }
      var e := freeList.value;
      if !vmOk {
        return NoMem;
      }
      AllocIs(Value(), links, freeList, parent);
      var generation := ClearSlot(Wrap32(ids[e] + GENERATION));
      if generation <= 0 {
        generation := GENERATION;
      }
      var id := generation + e;
      assert id == NextId(ids[e], e);
      ghost var after := Alloc(Value(), parent);
      hide NextId;
      ids := ids[e := id];
      parents := parents[e := parent];
      live := live[e := true];
      freeList := links[e];
      free := free[1..];
      issued := issued[e := issued[e] + 1];
      assert Value() == after;
      r := Ok(id);
    }

    /** The end of env_free. */
    method EnvFree(e: nat)
      requires Valid() && e < NENV && live[e]
      modifies this
      ensures Valid() && Value() == Free(old(Value()), e)
      ensures live == old(live)[e := false] && free == [e] + old(free)
      ensures ids == old(ids) && parents == old(parents) && issued == old(issued)
    {
      FreeKeepsInv(Value(), e);
      SpellsPush(links, freeList, free, e);
      ghost var after := Free(Value(), e);
      live := live[e := false];
      links := links[e := freeList];
      freeList := Some(e);
      free := [e] + free;
      assert Value() == after;
    }

    /** envid2env: what the id resolves to, and whether the caller may manipulate it. */
    method Envid2Env(id: int, checkperm: bool, cur: Option<nat>) returns (r: Result<Option<nat>>)
      requires Valid() && (cur.Some? ==> cur.value < NENV) && (checkperm ==> cur.Some?)
      ensures id == 0 ==> r == Ok(cur)
      ensures id != 0 ==> r == BadEnv || (r.Ok? && r.value.Some? && r.value.value < NENV)
      ensures id != 0 ==> forall k: nat :: k < NENV ==>
                (r == Ok(Some(k)) <==>
                  && live[k] && ids[k] == id
                  && (checkperm ==> k == cur.value || parents[k] == ids[cur.value]))
      ensures r.Ok? ==> r == Lookup(Value(), id, cur)
      ensures checkperm ==> (r.Ok? <==> May(Value(), cur.value, id))
      ensures !checkperm ==> r == Lookup(Value(), id, cur)
    {
      if id == 0 {
        return Ok(cur);
      }
      var e := EnvX(id);
      forall k: nat | k < NENV && live[k]
        ensures EnvX(ids[k]) == k
      {
        NthIdIdentifies(k, issued[k], k, issued[k]);
      }
      if !live[e] || ids[e] != id {
        return BadEnv;
      }
      if checkperm && Some(e) != cur && parents[e] != ids[cur.value] {
        return BadEnv;
      }
      return Ok(Some(e));
    }
  }
}
