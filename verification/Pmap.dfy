/** Physical pages, reference counts and two-level page tables (tps/kern/pmap.c), and the creation
    and teardown of an address space (tps/kern/env.c).

    Page directories and page tables live in physical frames, as in section 4.3 of the Intel SDM,
    volume 3A.  A word of a table is split into a frame number and its low twelve bits; the zero
    word is `ZERO`.  `pp_ref` has 16 bits.  */
module Pmap {

  import opened Options

  const NENTRIES := 1024
  /** PDX(UTOP): the entries below it belong to the user part of an address space. */
  const UPD := 955
  /** PDX(UVPT). */
  const UVPTX := 957
  const UTOP := 0xEEC00000
  const PGSIZE := 4096
  const REFS := 0x1_0000

  datatype Bit = P | W | U | PWT | PCD | A | D | PS | G | AV0 | AV1 | AV2

  datatype Entry = Entry(ppn: nat, bits: set<Bit>)
  const ZERO := Entry(0, {})

  type u16 = n: int | 0 <= n < REFS

  datatype PageInfo = PageInfo(link: Option<nat>, ref: u16)

  /** A word of physical memory used as a table entry, or the env_pgdir pointer of an environment. */
  datatype Loc = Slot(frame: nat, index: nat) | Root(dir: nat)

  type Frames = seq<seq<Entry>>

  /** The state: the pages array, the free list as a sequence, the frames, the page directories of the
      live environments, for every page table the directory entry that refers to it, and for every
      managed page the places that refer to it. */
  datatype Mem = Mem(pages: seq<PageInfo>, free: seq<nat>, frames: Frames,
                     dirs: set<nat>, owner: map<nat, Loc>, refs: map<nat, set<Loc>>)

  // ---------------------------------------------------------------------------------------------
  // What the tables mean.

  predicate Sized(m: Mem) {
    |m.frames| == |m.pages| && forall f :: 0 <= f < |m.frames| ==> |m.frames[f]| == NENTRIES
  }

  /** Slot (f, i) is a user entry of a live page directory, or an entry of a live page table. */
  predicate Live(m: Mem, f: nat, i: nat) {
    i < NENTRIES && f < |m.frames| && ((f in m.dirs && i < UPD) || f in m.owner)
  }

  /** Location l refers to physical page p. */
  predicate Points(m: Mem, l: Loc, p: nat)
    requires Sized(m)
  {
    match l
    case Slot(f, i) => Live(m, f, i) && m.frames[f][i] != ZERO && m.frames[f][i].ppn == p
    case Root(d) => d in m.dirs && d == p
  }

  /** The entry that maps page `ptx` of table `pdx`, or ZERO. */
  function Walk(m: Mem, d: nat, pdx: nat, ptx: nat): Entry
    requires Shape(m) && d in m.dirs && pdx < UPD && ptx < NENTRIES
  {
    assert PdeOk(m, d, pdx);
    if m.frames[d][pdx] == ZERO then ZERO else m.frames[m.frames[d][pdx].ppn][ptx]
  }

  // ---------------------------------------------------------------------------------------------
  // The invariant.

  predicate PdeOk(m: Mem, d: nat, i: nat)
    requires Sized(m) && d < |m.frames| && i < NENTRIES
  {
    m.frames[d][i] != ZERO ==>
      {P, W, U} <= m.frames[d][i].bits && m.frames[d][i].ppn in m.owner && m.owner[m.frames[d][i].ppn] == Slot(d, i)
  }

  predicate OwnerOk(m: Mem, t: nat)
    requires Sized(m) && t in m.owner
  {
    && m.owner[t].Slot? && m.owner[t].frame in m.dirs && m.owner[t].index < UPD
    && m.owner[t].frame < |m.frames|
    && m.frames[m.owner[t].frame][m.owner[t].index] != ZERO
    && m.frames[m.owner[t].frame][m.owner[t].index].ppn == t
  }

  predicate PteOk(m: Mem, t: nat, j: nat)
    requires Sized(m) && t < |m.frames| && j < NENTRIES
  {
    m.frames[t][j] != ZERO ==>
      && P in m.frames[t][j].bits && m.frames[t][j].ppn < |m.pages|
      && m.frames[t][j].ppn !in m.dirs && m.frames[t][j].ppn !in m.owner
  }

  /** `refs` lists for each managed page exactly the places that refer to it. */
  ghost predicate RefsRight(m: Mem)
    requires Sized(m)
  {
    forall p, l :: p in m.refs ==> (l in m.refs[p] <==> Points(m, l, p))
  }

  /** Directories, tables and mapped pages are different frames, and every table has one directory entry. */
  ghost predicate Shape(m: Mem) {
    && Sized(m)
    && (forall p :: p in m.refs ==> 0 < p < |m.pages|)
    && m.dirs <= m.refs.Keys && m.owner.Keys <= m.refs.Keys && m.dirs !! m.owner.Keys
    && (forall d, i :: d in m.dirs && 0 <= i < UPD ==> PdeOk(m, d, i))
    && (forall t :: t in m.owner ==> OwnerOk(m, t))
    && (forall t, j :: t in m.owner && 0 <= j < NENTRIES ==> PteOk(m, t, j))
    && RefsRight(m)
  }

  /** `extra` names a page whose pp_ref counts one reference more than there are. */
  function Extra(extra: Option<nat>, p: nat): nat { if extra == Some(p) then 1 else 0 }

  /** pp_ref is the number of references, modulo its 16 bits, and the number fits. */
  ghost predicate Counted(rs: map<nat, set<Loc>>, pages: seq<PageInfo>, extra: Option<nat>) {
    forall p :: p in rs ==>
      p < |pages| && |rs[p]| < REFS && pages[p].ref == (|rs[p]| + Extra(extra, p)) % REFS
  }

  /** Following the links from `head` visits the members of `free` in order, none of them twice, and ends. */
  ghost predicate Chain(pages: seq<PageInfo>, head: Option<nat>, free: seq<nat>)
    decreases |free|
  {
    if free == [] then head == None
    else
      && head == Some(free[0]) && free[0] < |pages| && free[0] !in free[1..]
      && Chain(pages, pages[free[0]].link, free[1..])
  }

  ghost predicate Linked(pages: seq<PageInfo>, head: Option<nat>, free: seq<nat>) {
    Chain(pages, head, free) && forall p :: 0 <= p < |pages| && p !in free ==> pages[p].link == None
  }

  /** Following the links from `head` visits exactly the members of `free`, but the last of them may
      lead back into the list. */
  ghost predicate Threaded(pages: seq<PageInfo>, head: Option<nat>, free: seq<nat>) {
    && (forall i :: 0 <= i < |free| ==> free[i] < |pages|)
    && head == (if free == [] then None else Some(free[0]))
    && (forall i :: 0 < i < |free| ==> pages[free[i - 1]].link == Some(free[i]))
    && (free != [] ==> pages[free[|free| - 1]].link == None || pages[free[|free| - 1]].link.value in free)
    && forall p :: 0 <= p < |pages| && p !in free ==> pages[p].link == None
  }

  /** A managed page is on the list exactly if nobody refers to it and it was not just taken from it. */
  ghost predicate FreeRight(rs: map<nat, set<Loc>>, free: seq<nat>, limbo: set<nat>, extra: Option<nat>) {
    forall p :: p in rs ==> (p in free <==> rs[p] == {} && p !in limbo && extra != Some(p))
  }

  /** No page outside management has come on the list. */
  ghost predicate NoStray(rs: map<nat, set<Loc>>, free: seq<nat>) {
    forall p :: p in free ==> p in rs
  }

  /** All that the managed pages need. */
  ghost predicate Sound(m: Mem, limbo: set<nat>, extra: Option<nat>) {
    && Shape(m) && (forall p :: p in limbo ==> p in m.refs && m.refs[p] == {})
    && Counted(m.refs, m.pages, extra) && FreeRight(m.refs, m.free, limbo, extra)
  }

  /** The free list holds exactly the managed pages nobody refers to, apart from those just taken from it. */
  ghost predicate Inv(m: Mem, limbo: set<nat>, extra: Option<nat>) {
    Sound(m, limbo, extra) && NoStray(m.refs, m.free)
  }

  // ---------------------------------------------------------------------------------------------
  // Reference counts and the free list.

  /** page_decref, with page_free when the count reaches zero. */
  function DecrefPages(pages: seq<PageInfo>, free: seq<nat>, p: nat): seq<PageInfo>
    requires p < |pages|
  {
    var r := (pages[p].ref + REFS - 1) % REFS;
    pages[p := PageInfo(if r == 0 && free != [] then Some(free[0]) else pages[p].link, r)]
  }

  function DecrefFree(pages: seq<PageInfo>, free: seq<nat>, p: nat): seq<nat>
    requires p < |pages|
  {
    if pages[p].ref == 1 then [p] + free else free
  }

  lemma DecrefArith(c: nat, x: nat)
    requires 1 <= c < REFS && x <= 1
    ensures ((c + x) % REFS + REFS - 1) % REFS == (c - 1 + x) % REFS == c - 1 + x
    ensures (c + x) % REFS == 1 <==> c - 1 + x == 0
  {
  }

  /** One reference to p goes: dropping its count keeps every count right, and frees p exactly when
      nothing refers to it any more. */
  lemma DecrefCounts(rs: map<nat, set<Loc>>, l: Loc, pages: seq<PageInfo>, free: seq<nat>,
                     p: nat, limbo: set<nat>, extra: Option<nat>)
    requires Counted(rs, pages, extra) && FreeRight(rs, free, limbo, extra)
    requires p in rs && l in rs[p] && p !in limbo
    ensures Counted(rs[p := rs[p] - {l}], DecrefPages(pages, free, p), extra)
    ensures FreeRight(rs[p := rs[p] - {l}], DecrefFree(pages, free, p), limbo, extra)
    ensures NoStray(rs[p := rs[p] - {l}], DecrefFree(pages, free, p)) <==> NoStray(rs, free)
  {
    hide Counted, FreeRight, NoStray, DecrefPages, DecrefFree;
    DecrefCounted(rs, l, pages, free, p, extra);
    DecrefFreed(rs, l, pages, free, p, limbo, extra);
  }

  lemma DecrefCounted(rs: map<nat, set<Loc>>, l: Loc, pages: seq<PageInfo>, free: seq<nat>, p: nat,
                      extra: Option<nat>)
    requires Counted(rs, pages, extra) && p in rs && l in rs[p]
    ensures p < |pages| && Counted(rs[p := rs[p] - {l}], DecrefPages(pages, free, p), extra)
    ensures pages[p].ref == 1 <==> rs[p] - {l} == {} && extra != Some(p)
  {
    DecrefArith(|rs[p]|, Extra(extra, p));
    assert |rs[p] - {l}| == |rs[p]| - 1;
    assert rs[p] - {l} == {} <==> |rs[p] - {l}| == 0;
  }

  lemma DecrefFreed(rs: map<nat, set<Loc>>, l: Loc, pages: seq<PageInfo>, free: seq<nat>, p: nat,
                    limbo: set<nat>, extra: Option<nat>)
    requires FreeRight(rs, free, limbo, extra) && p in rs && l in rs[p] && p !in limbo && p < |pages|
    requires pages[p].ref == 1 <==> rs[p] - {l} == {} && extra != Some(p)
    ensures FreeRight(rs[p := rs[p] - {l}], DecrefFree(pages, free, p), limbo, extra)
    ensures NoStray(rs[p := rs[p] - {l}], DecrefFree(pages, free, p)) <==> NoStray(rs, free)
  {
    assert forall q :: q in DecrefFree(pages, free, p) <==> q in free || (q == p && pages[p].ref == 1);
  }

  lemma {:induction false} ChainFrame(pages: seq<PageInfo>, pages': seq<PageInfo>, head: Option<nat>, free: seq<nat>)
    requires Chain(pages, head, free) && |pages'| == |pages|
    requires forall p :: p in free && p < |pages| ==> pages'[p].link == pages[p].link
    ensures Chain(pages', head, free)
    decreases |free|
  {
    if free == [] {
    } else {
      assert free[0] in free;
      ChainFrame(pages, pages', pages[free[0]].link, free[1..]);
    }
  }

  /** page_free puts an unlinked page in front of the list. */
  lemma PushLinks(pages: seq<PageInfo>, head: Option<nat>, free: seq<nat>, p: nat)
    requires Linked(pages, head, free) && p < |pages| && p !in free
    ensures Linked(pages[p := PageInfo(head, 0)], Some(p), [p] + free)
  {
    var pages' := pages[p := PageInfo(head, 0)];
    ChainFrame(pages, pages', head, free);
    assert ([p] + free)[1..] == free;
    assert forall q :: q in [p] + free <==> q == p || q in free;
  }

  lemma {:induction false} ChainThreads(pages: seq<PageInfo>, head: Option<nat>, free: seq<nat>)
    requires Chain(pages, head, free)
    ensures forall i :: 0 <= i < |free| ==> free[i] < |pages|
    ensures head == if free == [] then None else Some(free[0])
    ensures forall i :: 0 < i < |free| ==> pages[free[i - 1]].link == Some(free[i])
    ensures free != [] ==> pages[free[|free| - 1]].link == None
    decreases |free|
  {
    if free == [] {
    } else {
      var rest := free[1..];
      ChainThreads(pages, pages[free[0]].link, rest);
      assert forall i :: 0 < i < |free| ==> free[i] == rest[i - 1];
    }
  }

  lemma LinkedThreaded(pages: seq<PageInfo>, head: Option<nat>, free: seq<nat>)
    requires Linked(pages, head, free)
    ensures Threaded(pages, head, free)
  {
    ChainThreads(pages, head, free);
  }

  /** page_free puts a page in front even if it is the last of the list already; then the list is a ring. */
  lemma PushThreads(pages: seq<PageInfo>, head: Option<nat>, free: seq<nat>, p: nat)
    requires Threaded(pages, head, free) && p < |pages| && pages[p].link == None
    ensures Threaded(pages[p := PageInfo(head, 0)], Some(p), [p] + free)
    ensures p in free ==> !Linked(pages[p := PageInfo(head, 0)], Some(p), [p] + free)
  {
    var pages' := pages[p := PageInfo(head, 0)];
    var free' := [p] + free;
    forall i | 0 < i < |free'| ensures pages'[free'[i - 1]].link == Some(free'[i]) {
      assert free'[i] == free[i - 1];
      if i > 1 { assert free'[i - 1] == free[i - 2]; }
    }
    assert free'[1..] == free;
    assert forall q :: q in free' <==> q == p || q in free;
    assert free != [] ==> free'[|free'| - 1] == free[|free| - 1];
  }

  /** page_decref in two steps: the count goes down, and if it is zero the page goes in front. */
  lemma DecrefBySteps(pages: seq<PageInfo>, head: Option<nat>, free: seq<nat>, p: nat)
    requires Threaded(pages, head, free) && p < |pages|
    ensures var counted := pages[p := pages[p].(ref := (pages[p].ref + REFS - 1) % REFS)];
      && Threaded(counted, head, free)
      && (pages[p].ref == 1 <==> counted[p].ref == 0)
      && (pages[p].ref != 1 ==> counted == DecrefPages(pages, free, p))
      && (pages[p].ref == 1 && pages[p].link == None ==>
            counted[p := PageInfo(head, 0)] == DecrefPages(pages, free, p))
  {
  }

  lemma CountedLinked(pages: seq<PageInfo>, head: Option<nat>, free: seq<nat>, p: nat, r: u16)
    requires Linked(pages, head, free) && p < |pages|
    ensures Linked(pages[p := pages[p].(ref := r)], head, free)
  {
    ChainFrame(pages, pages[p := pages[p].(ref := r)], head, free);
  }

  /** page_init adds pages at the end of the list. */
  lemma {:induction false} AppendChain(pages: seq<PageInfo>, head: Option<nat>, free: seq<nat>, i: nat)
    requires Chain(pages, head, free) && free != [] && i < |pages| && i !in free && pages[i].link == None
    ensures var last := free[|free| - 1];
            last < |pages| && Chain(pages[last := pages[last].(link := Some(i))], head, free + [i])
    decreases |free|
  {
    var last := free[|free| - 1];
    var rest := free[1..];
    assert (free + [i])[1..] == rest + [i];
    if rest == [] {
      assert [i][1..] == [];
      var pages' := pages[last := pages[last].(link := Some(i))];
      assert Chain(pages', None, []);
      assert Chain(pages', Some(i), [i]);
    } else {
      assert rest[|rest| - 1] == last && last in rest && free[0] != last;
      AppendChain(pages, pages[free[0]].link, rest, i);
    }
  }

  lemma AppendLinks(pages: seq<PageInfo>, head: Option<nat>, free: seq<nat>, i: nat)
    requires Linked(pages, head, free) && free != [] && i < |pages| && i !in free
    ensures var last := free[|free| - 1];
            last < |pages| && last != i && Linked(pages[last := pages[last].(link := Some(i))], head, free + [i])
  {
    AppendChain(pages, head, free, i);
    assert free[|free| - 1] in free;
    assert forall q :: q in free + [i] <==> q in free || q == i;
  }

  lemma PopLinks(pages: seq<PageInfo>, head: Option<nat>, free: seq<nat>)
    requires Linked(pages, head, free) && free != []
    ensures free[0] < |pages| && free[0] !in free[1..]
    ensures Linked(pages[free[0] := pages[free[0]].(link := None)], pages[free[0]].link, free[1..])
  {
    var pages' := pages[free[0] := pages[free[0]].(link := None)];
    assert free == [free[0]] + free[1..];
    assert forall q :: q in free <==> q == free[0] || q in free[1..];
    ChainFrame(pages, pages', pages[free[0]].link, free[1..]);
  }

  // ---------------------------------------------------------------------------------------------
  // Single changes of the tables.

  function Zeros(): seq<Entry> { seq(NENTRIES, _ => ZERO) }

  function AddRef(refs: map<nat, set<Loc>>, p: nat, l: Loc): map<nat, set<Loc>> {
    if p in refs then refs[p := refs[p] + {l}] else refs
  }

  function DropRef(refs: map<nat, set<Loc>>, p: nat, l: Loc): map<nat, set<Loc>> {
    if p in refs then refs[p := refs[p] - {l}] else refs
  }

  lemma UnreferencedIsNoTable(m: Mem, p: nat)
    requires Shape(m) && p in m.refs && m.refs[p] == {}
    ensures p !in m.dirs && p !in m.owner
  {
    forall t | t in m.owner ensures t != p {
      assert OwnerOk(m, t) && Points(m, m.owner[t], t);
    }
    forall d | d in m.dirs ensures d != p {
      assert Points(m, Root(d), d);
    }
  }

  /** Clearing an entry of a page table. */
  function ClearPte(m: Mem, t: nat, j: nat): Mem
    requires Sized(m) && t < |m.frames| && j < NENTRIES
  {
    Mem(m.pages, m.free, m.frames[t := m.frames[t][j := ZERO]], m.dirs, m.owner,
        if m.frames[t][j] == ZERO then m.refs else DropRef(m.refs, m.frames[t][j].ppn, Slot(t, j)))
  }

  lemma ClearPteShape(m: Mem, t: nat, j: nat)
    requires Shape(m) && t in m.owner && j < NENTRIES
    ensures Shape(ClearPte(m, t, j))
  {
    var m' := ClearPte(m, t, j);
    forall d, i | d in m.dirs && 0 <= i < UPD ensures PdeOk(m', d, i) { assert PdeOk(m, d, i); }
    forall u | u in m.owner ensures OwnerOk(m', u) { assert OwnerOk(m, u); }
    forall u, k | u in m.owner && 0 <= k < NENTRIES ensures PteOk(m', u, k) { assert PteOk(m, u, k); }
    forall p, l | p in m'.refs ensures l in m'.refs[p] <==> Points(m', l, p) {
      assert l in m.refs[p] <==> Points(m, l, p);
    }
  }

  /** Writing an entry of a page table that is clear. */
  function SetPte(m: Mem, t: nat, j: nat, e: Entry): Mem
    requires Sized(m) && t < |m.frames| && j < NENTRIES
  {
    Mem(m.pages, m.free, m.frames[t := m.frames[t][j := e]], m.dirs, m.owner, AddRef(m.refs, e.ppn, Slot(t, j)))
  }

  lemma SetPteShape(m: Mem, t: nat, j: nat, e: Entry)
    requires Shape(m) && t in m.owner && j < NENTRIES && m.frames[t][j] == ZERO
    requires P in e.bits && e.ppn < |m.pages| && e.ppn !in m.dirs && e.ppn !in m.owner
    ensures Shape(SetPte(m, t, j, e))
    ensures e.ppn in m.refs ==> Slot(t, j) !in m.refs[e.ppn]
  {
    var m' := SetPte(m, t, j, e);
    forall d, i | d in m.dirs && 0 <= i < UPD ensures PdeOk(m', d, i) { assert PdeOk(m, d, i); }
    forall u | u in m.owner ensures OwnerOk(m', u) { assert OwnerOk(m, u); }
    forall u, k | u in m.owner && 0 <= k < NENTRIES ensures PteOk(m', u, k) { assert PteOk(m, u, k); }
    forall p, l | p in m'.refs ensures l in m'.refs[p] <==> Points(m', l, p) {
      assert l in m.refs[p] <==> Points(m, l, p);
    }
  }

  /** Writing one entry of a page table changes the translation of one page. */
  lemma PteWalk(m: Mem, m': Mem, t: nat, j: nat, e: Entry, d: nat, pdx: nat, ptx: nat)
    requires Shape(m) && Shape(m') && t in m.owner && j < NENTRIES
    requires m'.frames == m.frames[t := m.frames[t][j := e]] && m'.dirs == m.dirs
    requires d in m.dirs && pdx < UPD && ptx < NENTRIES
    ensures Walk(m', d, pdx, ptx) == if m.owner[t] == Slot(d, pdx) && ptx == j then e else Walk(m, d, pdx, ptx)
  {
    assert PdeOk(m, d, pdx) && OwnerOk(m, t);
  }

  /** Exactly one translation differs between m and m': page (pdx, ptx) of directory d now has entry e. */
  ghost predicate Changed(m: Mem, m': Mem, d: nat, pdx: nat, ptx: nat, e: Entry) {
    && Shape(m) && Shape(m') && m'.dirs == m.dirs && d in m.dirs && pdx < UPD && ptx < NENTRIES
    && forall x, i, k :: x in m.dirs && 0 <= i < UPD && 0 <= k < NENTRIES ==>
         Walk(m', x, i, k) == if (x, i, k) == (d, pdx, ptx) then e else Walk(m, x, i, k)
  }

  /** Clearing an entry and writing it again counts as one change. */
  lemma ChangedTwice(m0: Mem, m1: Mem, m2: Mem, d: nat, pdx: nat, ptx: nat, e1: Entry, e2: Entry)
    requires Changed(m0, m1, d, pdx, ptx, e1) && Changed(m1, m2, d, pdx, ptx, e2)
    ensures Changed(m0, m2, d, pdx, ptx, e2)
  {
  }

  lemma NothingThere(m: Mem, d: nat, pdx: nat, ptx: nat)
    requires Shape(m) && d in m.dirs && pdx < UPD && ptx < NENTRIES && Walk(m, d, pdx, ptx) == ZERO
    ensures Changed(m, m, d, pdx, ptx, ZERO)
  {
  }

  lemma ExtendsChanged(m0: Mem, m1: Mem, m2: Mem, d: nat, pdx: nat, ptx: nat, e: Entry)
    requires Extends(m0, m1) && Changed(m1, m2, d, pdx, ptx, e)
    ensures Changed(m0, m2, d, pdx, ptx, e)
  {
  }

  lemma PteWalks(m: Mem, m': Mem, t: nat, j: nat, e: Entry, d: nat, pdx: nat)
    requires Shape(m) && Shape(m') && t in m.owner && j < NENTRIES && m.owner[t] == Slot(d, pdx)
    requires m'.frames == m.frames[t := m.frames[t][j := e]] && m'.dirs == m.dirs
    ensures Changed(m, m', d, pdx, j, e)
  {
    assert OwnerOk(m, t);
    forall x, i, k | x in m.dirs && 0 <= i < UPD && 0 <= k < NENTRIES
      ensures Walk(m', x, i, k) == if (x, i, k) == (d, pdx, j) then e else Walk(m, x, i, k)
    {
      PteWalk(m, m', t, j, e, x, i, k);
    }
  }

  lemma TableWalk(m: Mem, d: nat, pdx: nat, t: nat, ptx: nat)
    requires Shape(m) && t in m.owner && m.owner[t] == Slot(d, pdx) && ptx < NENTRIES
    ensures d in m.dirs && pdx < UPD && m.frames[d][pdx] != ZERO && m.frames[d][pdx].ppn == t
    ensures Walk(m, d, pdx, ptx) == m.frames[t][ptx]
    ensures m.frames[t][ptx] != ZERO && m.frames[t][ptx].ppn in m.refs ==> Slot(t, ptx) in m.refs[m.frames[t][ptx].ppn]
  {
    assert OwnerOk(m, t) && PteOk(m, t, ptx);
    assert m.frames[t][ptx] != ZERO ==> Points(m, Slot(t, ptx), m.frames[t][ptx].ppn);
  }

  predicate Maps(e: Entry, p: nat) { e != ZERO && e.ppn == p }

  /** A page that may be mapped at all: it is neither a table nor on the free list. */
  predicate Mappable(m: Mem, pp: nat) {
    pp < |m.pages| && pp !in m.free && pp !in m.dirs && pp !in m.owner
  }

  /** The 16-bit count of page pp has room for a reference that replaces entry e. */
  predicate Fits(m: Mem, pp: nat, e: Entry)
    requires pp < |m.pages|
  {
    pp in m.refs ==> m.pages[pp].ref < REFS - 1 || Maps(e, pp)
  }

  /** The page that entry e names is managed, or its count, which nobody keeps, does not say that this
      entry is the last reference. */
  predicate Spares(m: Mem, e: Entry) {
    e.ppn < |m.pages| ==> e.ppn in m.refs || m.pages[e.ppn].ref != 1
  }

  /** page_insert has counted page pp when it removes entry e. */
  predicate SparesFor(m: Mem, pp: nat, e: Entry) {
    e == ZERO || if e.ppn == pp then pp >= |m.pages| || pp in m.refs || m.pages[pp].ref != 0 else Spares(m, e)
  }

  /** Frame t becomes the empty table behind entry i of directory d. */
  function AddTable(m: Mem, d: nat, i: nat, t: nat): Mem
    requires Sized(m) && d < |m.frames| && i < NENTRIES && t < |m.frames|
  {
    var fr := m.frames[t := Zeros()];
    Mem(m.pages, m.free, fr[d := fr[d][i := Entry(t, {P, W, U})]], m.dirs, m.owner[t := Slot(d, i)],
        AddRef(m.refs, t, Slot(d, i)))
  }

  lemma AddTableShape(m: Mem, d: nat, i: nat, t: nat)
    requires Shape(m) && d in m.dirs && i < UPD && m.frames[d][i] == ZERO
    requires t in m.refs && m.refs[t] == {}
    ensures Shape(AddTable(m, d, i, t))
  {
    UnreferencedIsNoTable(m, t);
    var m' := AddTable(m, d, i, t);
    forall e, k | e in m.dirs && 0 <= k < UPD ensures PdeOk(m', e, k) { assert PdeOk(m, e, k); }
    forall u | u in m'.owner ensures OwnerOk(m', u) { if u != t { assert OwnerOk(m, u); } }
    forall u, k | u in m'.owner && 0 <= k < NENTRIES ensures PteOk(m', u, k) {
      if u != t { assert PteOk(m, u, k) && !Points(m, Slot(u, k), t); }
    }
    forall p, l | p in m'.refs ensures l in m'.refs[p] <==> Points(m', l, p) {
      assert l in m.refs[p] <==> Points(m, l, p);
    }
  }

  /** Creating a page table changes no translation. */
  lemma AddTableWalk(m: Mem, d: nat, i: nat, t: nat, d': nat, pdx: nat, ptx: nat)
    requires Shape(m) && d in m.dirs && i < UPD && m.frames[d][i] == ZERO
    requires t in m.refs && m.refs[t] == {} && Shape(AddTable(m, d, i, t))
    requires d' in m.dirs && pdx < UPD && ptx < NENTRIES
    ensures Walk(AddTable(m, d, i, t), d', pdx, ptx) == Walk(m, d', pdx, ptx)
  {
    UnreferencedIsNoTable(m, t);
    assert PdeOk(m, d', pdx);
  }

  /** The table behind entry i of directory d goes. */
  function DropTable(m: Mem, d: nat, i: nat): Mem
    requires Sized(m) && d < |m.frames| && i < NENTRIES
  {
    Mem(m.pages, m.free, m.frames[d := m.frames[d][i := ZERO]], m.dirs, m.owner - {m.frames[d][i].ppn},
        DropRef(m.refs, m.frames[d][i].ppn, Slot(d, i)))
  }

  lemma DropTableShape(m: Mem, d: nat, i: nat)
    requires Shape(m) && d in m.dirs && i < UPD && m.frames[d][i] != ZERO
    requires forall j :: 0 <= j < NENTRIES ==> Walk(m, d, i, j) == ZERO
    ensures Shape(DropTable(m, d, i))
    ensures m.frames[d][i].ppn in m.refs && m.refs[m.frames[d][i].ppn] == {Slot(d, i)}
  {
    assert PdeOk(m, d, i);
    var m' := DropTable(m, d, i);
    var t := m.frames[d][i].ppn;
    forall j | 0 <= j < NENTRIES ensures m.frames[t][j] == ZERO { assert Walk(m, d, i, j) == ZERO; }
    forall e, k | e in m.dirs && 0 <= k < UPD ensures PdeOk(m', e, k) { assert PdeOk(m, e, k); }
    forall u | u in m'.owner ensures OwnerOk(m', u) { assert OwnerOk(m, u); }
    forall u, k | u in m'.owner && 0 <= k < NENTRIES ensures PteOk(m', u, k) { assert PteOk(m, u, k); }
    forall p, l | p in m'.refs ensures l in m'.refs[p] <==> Points(m', l, p) {
      assert l in m.refs[p] <==> Points(m, l, p);
    }
    forall l ensures l in m.refs[t] <==> l == Slot(d, i) {
      assert l in m.refs[t] <==> Points(m, l, t);
      match l
      case Root(_) =>
      case Slot(f, k) =>
        if Live(m, f, k) { if f in m.dirs { assert PdeOk(m, f, k); } else { assert PteOk(m, f, k); } }
    }
  }

  // ---------------------------------------------------------------------------------------------
  // Each operation keeps the invariant.

  /** page_alloc(ALLOC_ZERO) takes the first free page out of circulation. */
  function Alloc(m: Mem): Mem
    requires m.free != [] && m.free[0] < |m.pages| && m.free[0] < |m.frames|
  {
    var p := m.free[0];
    Mem(m.pages[p := m.pages[p].(link := None)], m.free[1..], m.frames[p := Zeros()], m.dirs, m.owner, m.refs)
  }

  lemma AllocShape(m: Mem)
    requires Shape(m) && m.free != [] && m.free[0] < |m.pages|
    requires m.free[0] !in m.dirs && m.free[0] !in m.owner
    ensures Shape(Alloc(m))
  {
    hide RefsRight;
    var m' := Alloc(m);
    forall d, i | d in m.dirs && 0 <= i < UPD ensures PdeOk(m', d, i) { assert PdeOk(m, d, i); }
    forall t | t in m.owner ensures OwnerOk(m', t) { assert OwnerOk(m, t); }
    forall t, j | t in m.owner && 0 <= j < NENTRIES ensures PteOk(m', t, j) { assert PteOk(m, t, j); }
    AllocRefsRight(m);
  }

  lemma AllocRefsRight(m: Mem)
    requires Sized(m) && RefsRight(m) && m.free != [] && m.free[0] < |m.pages|
    requires m.free[0] !in m.dirs && m.free[0] !in m.owner
    ensures RefsRight(Alloc(m))
  {
    var m' := Alloc(m);
    forall q, l | q in m'.refs ensures l in m'.refs[q] <==> Points(m', l, q) {
      assert l in m.refs[q] <==> Points(m, l, q);
    }
  }

  lemma AllocKeeps(m: Mem, limbo: set<nat>)
    requires Inv(m, limbo, None) && m.free != [] && m.free[0] !in m.free[1..]
    ensures m.free[0] < |m.pages| && Inv(Alloc(m), limbo + {m.free[0]}, None)
    ensures m.free[0] in m.refs && m.refs[m.free[0]] == {} && m.free[0] !in limbo && m.pages[m.free[0]].ref == 0
  {
    hide AddRef, RefsRight, PdeOk, PteOk, OwnerOk;
    var p := m.free[0];
    assert p in m.free;
    UnreferencedIsNoTable(m, p);
    AllocShape(m);
    hide Shape;
    assert m.free == [p] + m.free[1..];
  }

  lemma AllocWalk(m: Mem, limbo: set<nat>, d: nat, pdx: nat, ptx: nat)
    requires Inv(m, limbo, None) && m.free != [] && m.free[0] < |m.pages| && Shape(Alloc(m))
    requires d in m.dirs && pdx < UPD && ptx < NENTRIES
    ensures Walk(Alloc(m), d, pdx, ptx) == Walk(m, d, pdx, ptx)
  {
    assert m.free[0] in m.free;
    UnreferencedIsNoTable(m, m.free[0]);
    assert PdeOk(m, d, pdx);
  }

  /** An allocated page is no page directory. */
  lemma AllocElsewhere(m: Mem, d: nat)
    requires Inv(m, {}, None) && m.free != [] && m.free[0] < |m.pages| && d in m.dirs
    ensures d < |m.frames| && Alloc(m).frames[d] == m.frames[d] && Alloc(m).free == m.free[1..]
  {
    assert m.free[0] in m.free;
    UnreferencedIsNoTable(m, m.free[0]);
  }

  function WithRef(m: Mem, p: nat, r: u16): Mem
    requires p < |m.pages|
  {
    Mem(m.pages[p := m.pages[p].(ref := r)], m.free, m.frames, m.dirs, m.owner, m.refs)
  }

  lemma ShapeSame(m: Mem, m': Mem)
    requires Shape(m) && m'.frames == m.frames && |m'.pages| == |m.pages|
    requires m'.dirs == m.dirs && m'.owner == m.owner && m'.refs == m.refs
    ensures Shape(m')
  {
    forall d, i | d in m.dirs && 0 <= i < UPD ensures PdeOk(m', d, i) { assert PdeOk(m, d, i); }
    forall t | t in m.owner ensures OwnerOk(m', t) { assert OwnerOk(m, t); }
    forall t, j | t in m.owner && 0 <= j < NENTRIES ensures PteOk(m', t, j) { assert PteOk(m, t, j); }
    forall q, l | q in m'.refs ensures l in m'.refs[q] <==> Points(m', l, q) {
      assert l in m.refs[q] <==> Points(m, l, q);
    }
  }

  /** pgdir_walk with create: an allocated page becomes a page table with one reference. */
  lemma NewTableKeeps(m: Mem, d: nat, i: nat, t: nat, limbo: set<nat>)
    requires Inv(m, limbo + {t}, None) && t !in limbo && t < |m.pages| && m.pages[t].ref == 0
    requires d in m.dirs && i < UPD && m.frames[d][i] == ZERO
    ensures Inv(WithRef(AddTable(m, d, i, t), t, 1), limbo, None)
  {
    AddTableShape(m, d, i, t);
    ShapeSame(AddTable(m, d, i, t), WithRef(AddTable(m, d, i, t), t, 1));
  }

  /** m' differs from m at most by new page tables made of free pages; no translation changed. */
  ghost predicate Extends(m: Mem, m': Mem) {
    && Shape(m) && Shape(m') && m'.dirs == m.dirs && |m'.pages| == |m.pages| && m'.refs.Keys == m.refs.Keys
    && (forall t :: t in m.owner ==> t in m'.owner && m'.owner[t] == m.owner[t])
    && (forall p :: p !in m.free ==> p !in m'.free && (p in m'.owner ==> p in m.owner))
    && (forall p :: 0 <= p < |m.pages| && p !in m.free ==> m'.pages[p].ref == m.pages[p].ref)
    && (forall p :: p in m.refs && p !in m.free ==> m'.refs[p] == m.refs[p])
    && (forall e, i, j :: e in m.dirs && 0 <= i < UPD && 0 <= j < NENTRIES ==> Walk(m', e, i, j) == Walk(m, e, i, j))
  }

  lemma NewTableExtends(m: Mem, d: nat, i: nat, limbo: set<nat>)
    requires Inv(m, limbo, None) && m.free != [] && m.free[0] < |m.pages| && m.free[0] !in m.free[1..]
    requires d in m.dirs && i < UPD && m.frames[d][i] == ZERO
    ensures Sized(Alloc(m)) && Extends(m, WithRef(AddTable(Alloc(m), d, i, m.free[0]), m.free[0], 1))
  {
    hide RefsRight, Counted, OwnerOk, FreeRight;
    var t := m.free[0];
    assert t in m.free && m.free == [t] + m.free[1..];
    AllocKeeps(m, limbo);
    var m1 := Alloc(m);
    UnreferencedIsNoTable(m, t);
    AddTableShape(m1, d, i, t);
    var m2 := WithRef(AddTable(m1, d, i, t), t, 1);
    ShapeSame(AddTable(m1, d, i, t), m2);
    forall e, k, j | e in m.dirs && 0 <= k < UPD && 0 <= j < NENTRIES ensures Walk(m2, e, k, j) == Walk(m, e, k, j) {
      AllocWalk(m, limbo, e, k, j);
      AddTableWalk(m1, d, i, t, e, k, j);
    }
  }

  /** page_decref: the count goes down, and at zero the page goes to the free list. */
  function Decref(m: Mem, p: nat): Mem
    requires p < |m.pages|
  {
    Mem(DecrefPages(m.pages, m.free, p), DecrefFree(m.pages, m.free, p), m.frames, m.dirs, m.owner, m.refs)
  }

  /** page_remove of a mapped managed page. */
  lemma RemoveKeeps(m: Mem, t: nat, j: nat, limbo: set<nat>, extra: Option<nat>)
    requires Sound(m, limbo, extra) && t in m.owner && j < NENTRIES && m.frames[t][j] != ZERO
    requires m.frames[t][j].ppn in m.refs
    ensures var m' := Decref(ClearPte(m, t, j), m.frames[t][j].ppn);
            Sound(m', limbo, extra) && (NoStray(m'.refs, m'.free) <==> NoStray(m.refs, m.free))
  {
    hide RefsRight, Counted, FreeRight, NoStray, PdeOk, OwnerOk, PteOk, DecrefFree;
    var p := m.frames[t][j].ppn;
    SlotReferred(m, t, j);
    ClearPteShape(m, t, j);
    ShapeSame(ClearPte(m, t, j), Decref(ClearPte(m, t, j), p));
    DecrefCounts(m.refs, Slot(t, j), m.pages, m.free, p, limbo, extra);
  }

  lemma SlotReferred(m: Mem, t: nat, j: nat)
    requires Shape(m) && t in m.owner && j < NENTRIES && m.frames[t][j] != ZERO && m.frames[t][j].ppn in m.refs
    ensures Slot(t, j) in m.refs[m.frames[t][j].ppn]
  {
    assert Points(m, Slot(t, j), m.frames[t][j].ppn);
  }

  /** page_remove where the entry holds no managed page (then it is page 0): the invariant survives
      as long as the count of that page, which nobody keeps, does not happen to be 1. */
  lemma RemoveStrayKeeps(m: Mem, t: nat, j: nat, limbo: set<nat>, extra: Option<nat>)
    requires Sound(m, limbo, extra) && t in m.owner && j < NENTRIES
    requires m.frames[t][j].ppn !in m.refs && m.frames[t][j].ppn < |m.pages|
    ensures var m' := Decref(ClearPte(m, t, j), m.frames[t][j].ppn);
            Sound(m', limbo, extra)
            && (Inv(m', limbo, extra) <==> Inv(m, limbo, extra) && m.pages[m.frames[t][j].ppn].ref != 1)
  {
    var p := m.frames[t][j].ppn;
    ClearPteShape(m, t, j);
    var m' := Decref(ClearPte(m, t, j), p);
    ShapeSame(ClearPte(m, t, j), m');
    assert m'.refs == m.refs;
    StrayCounts(m.refs, m.pages, m.free, p, limbo, extra);
  }

  lemma StrayCounts(rs: map<nat, set<Loc>>, pages: seq<PageInfo>, free: seq<nat>,
                    p: nat, limbo: set<nat>, extra: Option<nat>)
    requires Counted(rs, pages, extra) && FreeRight(rs, free, limbo, extra) && p !in rs && p < |pages|
    ensures Counted(rs, DecrefPages(pages, free, p), extra)
    ensures FreeRight(rs, DecrefFree(pages, free, p), limbo, extra)
    ensures NoStray(rs, DecrefFree(pages, free, p)) <==> NoStray(rs, free) && pages[p].ref != 1
  {
    if pages[p].ref == 1 {
      assert p in DecrefFree(pages, free, p);
    }
  }

  /** A mapped page is not on the free list. */
  lemma MappedNotFree(m: Mem, d: nat, pdx: nat, ptx: nat, limbo: set<nat>, extra: Option<nat>)
    requires Inv(m, limbo, extra) && d in m.dirs && pdx < UPD && ptx < NENTRIES
    ensures Walk(m, d, pdx, ptx).ppn < |m.pages| && Walk(m, d, pdx, ptx).ppn !in m.free
    ensures Mappable(m, Walk(m, d, pdx, ptx).ppn)
  {
    assert PdeOk(m, d, pdx);
    var e := Walk(m, d, pdx, ptx);
    if e != ZERO {
      var t := m.frames[d][pdx].ppn;
      assert PteOk(m, t, ptx) && Points(m, Slot(t, ptx), e.ppn);
    }
  }

  lemma InsertExtends(m: Mem, m': Mem, d: nat, pdx: nat, ptx: nat, pp: nat, limbo: set<nat>)
    requires Inv(m, limbo, None) && Extends(m, m') && d in m.dirs && pdx < UPD && ptx < NENTRIES
    requires Mappable(m, pp)
    ensures Mappable(m', pp)
    ensures var e := Walk(m, d, pdx, ptx);
            (Fits(m', pp, e) <==> Fits(m, pp, e)) && (SparesFor(m', pp, e) <==> SparesFor(m, pp, e))
  {
    MappedNotFree(m, d, pdx, ptx, limbo, None);
  }

  /** Whether there is room for one more reference to pp after the entry e at place l was removed. */
  lemma RoomForOne(rs: map<nat, set<Loc>>, pages: seq<PageInfo>, e: Entry, l: Loc, pp: nat)
    requires Counted(rs, pages, None) && (pp in rs && Maps(e, pp) ==> l in rs[pp])
    ensures var rs' := if e == ZERO then rs else DropRef(rs, e.ppn, l);
            (pp in rs' ==> |rs'[pp]| + 1 < REFS) <==> (pp in rs ==> pages[pp].ref < REFS - 1 || Maps(e, pp))
  {
    if pp in rs { assert pages[pp].ref == |rs[pp]|; }
  }

  /** Counting a page and removing one reference to it leaves its count and the free list alone. */
  lemma SamePage(pages: seq<PageInfo>, free: seq<nat>, p: nat)
    requires p < |pages| && pages[p].ref != 0
    ensures var up := pages[p := pages[p].(ref := (pages[p].ref + 1) % REFS)];
            DecrefPages(up, free, p) == pages && DecrefFree(up, free, p) == free
  {
    assert ((pages[p].ref + 1) % REFS + REFS - 1) % REFS == pages[p].ref;
  }

  function Vacated(m: Mem, t: nat, j: nat): Mem
    requires Sized(m) && t < |m.frames| && j < NENTRIES && m.frames[t][j].ppn < |m.pages|
  {
    if m.frames[t][j] == ZERO then m else Decref(ClearPte(m, t, j), m.frames[t][j].ppn)
  }

  /** page_insert up to the final store: pp is counted and entry (t, j) removed. */
  function Cleared(m: Mem, t: nat, j: nat, pp: nat): Mem
    requires Sized(m) && t < |m.frames| && j < NENTRIES && pp < |m.pages| && m.frames[t][j].ppn < |m.pages|
  {
    Vacated(WithRef(m, pp, (m.pages[pp].ref + 1) % REFS), t, j)
  }

  lemma RoomMade(m: Mem, t: nat, j: nat, pp: nat)
    requires Sized(m) && Counted(m.refs, m.pages, None) && t < |m.frames| && j < NENTRIES
    requires Mappable(m, pp) && m.frames[t][j].ppn < |m.pages|
    requires Maps(m.frames[t][j], pp) && pp in m.refs ==> Slot(t, j) in m.refs[pp]
    ensures var m2 := Cleared(m, t, j, pp);
      && m2.owner == m.owner && m2.dirs == m.dirs && |m2.pages| == |m.pages|
      && ((pp in m2.refs ==> |m2.refs[pp]| + 1 < REFS) <==> Fits(m, pp, m.frames[t][j]))
      && (Maps(m.frames[t][j], pp) && m.pages[pp].ref != 0 ==> m2.pages == m.pages && m2.free == m.free)
  {
    RoomForOne(m.refs, m.pages, m.frames[t][j], Slot(t, j), pp);
    if Maps(m.frames[t][j], pp) && m.pages[pp].ref != 0 {
      SamePage(m.pages, m.free, pp);
    }
  }

  /** No translation differs between m and m'. */
  ghost predicate Untouched(m: Mem, m': Mem) {
    && Shape(m) && Shape(m') && m'.dirs == m.dirs
    && forall x, i, k :: x in m.dirs && 0 <= i < UPD && 0 <= k < NENTRIES ==> Walk(m', x, i, k) == Walk(m, x, i, k)
  }

  lemma AllocUntouched(m: Mem)
    requires Inv(m, {}, None) && m.free != [] && m.free[0] < |m.pages| && Shape(Alloc(m))
    ensures Untouched(m, Alloc(m))
  {
    forall x, i, k | x in m.dirs && 0 <= i < UPD && 0 <= k < NENTRIES
      ensures Walk(Alloc(m), x, i, k) == Walk(m, x, i, k)
    {
      AllocWalk(m, {}, x, i, k);
    }
  }

  lemma UntouchedChanged(m0: Mem, m1: Mem, m2: Mem, d: nat, pdx: nat, ptx: nat, e: Entry)
    requires Untouched(m0, m1) && Changed(m1, m2, d, pdx, ptx, e)
    ensures Changed(m0, m2, d, pdx, ptx, e)
  {
  }

  /** sys_page_alloc gives an unused page back when page_insert fails. */
  lemma GiveBackKeeps(m: Mem, m': Mem, p: nat)
    requires Inv(m, {p}, None) && p < |m.pages| && m.pages[p].ref == 0
    requires m'.frames == m.frames && m'.dirs == m.dirs && m'.owner == m.owner && m'.refs == m.refs
    requires |m'.pages| == |m.pages| && m'.free == [p] + m.free
    requires forall q :: 0 <= q < |m.pages| ==> m'.pages[q].ref == m.pages[q].ref
    ensures Inv(m', {}, None) && Untouched(m, m')
  {
    ShapeSame(m, m');
    assert forall q :: q in m'.free <==> q == p || q in m.free;
    assert Untouched(m, m');
  }

  /** An allocated page becomes the page directory of a new environment. */
  function NewDir(m: Mem, d: nat, kern: seq<Entry>): Mem
    requires d < |m.pages| && d < |m.frames| && |kern| == NENTRIES
  {
    Mem(m.pages[d := m.pages[d].(ref := 1)], m.free, m.frames[d := kern[UVPTX := Entry(d, {P, U})]],
        m.dirs + {d}, m.owner, AddRef(m.refs, d, Root(d)))
  }

  lemma NewDirKeeps(m: Mem, d: nat, kern: seq<Entry>)
    requires Inv(m, {d}, None) && d < |m.pages| && m.pages[d].ref == 0
    requires |kern| == NENTRIES && forall i :: 0 <= i < UPD ==> kern[i] == ZERO
    ensures Inv(NewDir(m, d, kern), {}, None)
  {
    hide RefsRight;
    NewDirShape(m, d, kern);
  }

  lemma NewDirShape(m: Mem, d: nat, kern: seq<Entry>)
    requires Shape(m) && d in m.refs && m.refs[d] == {}
    requires |kern| == NENTRIES && forall i :: 0 <= i < UPD ==> kern[i] == ZERO
    ensures Shape(NewDir(m, d, kern))
  {
    UnreferencedIsNoTable(m, d);
    var m' := NewDir(m, d, kern);
    forall e, i | e in m'.dirs && 0 <= i < UPD ensures PdeOk(m', e, i) { if e != d { assert PdeOk(m, e, i); } }
    forall t | t in m.owner ensures OwnerOk(m', t) { assert OwnerOk(m, t); }
    forall t, j | t in m.owner && 0 <= j < NENTRIES ensures PteOk(m', t, j) {
      assert PteOk(m, t, j) && !Points(m, Slot(t, j), d);
    }
    forall q, l | q in m'.refs ensures l in m'.refs[q] <==> Points(m', l, q) {
      assert l in m.refs[q] <==> Points(m, l, q);
    }
  }

  /** The new address space is empty and the others are untouched. */
  lemma NewDirWalk(m: Mem, d: nat, kern: seq<Entry>, e: nat, i: nat, j: nat)
    requires Shape(m) && d in m.refs && m.refs[d] == {} && |kern| == NENTRIES && Shape(NewDir(m, d, kern))
    requires forall k :: 0 <= k < UPD ==> kern[k] == ZERO
    requires e in m.dirs + {d} && i < UPD && j < NENTRIES
    ensures e == d ==> Walk(NewDir(m, d, kern), e, i, j) == ZERO
    ensures e != d ==> Walk(NewDir(m, d, kern), e, i, j) == Walk(m, e, i, j)
  {
    UnreferencedIsNoTable(m, d);
    if e != d { assert PdeOk(m, e, i); }
  }

  // ---------------------------------------------------------------------------------------------
  // Teardown of an address space.

  /** Location l belongs to the address space with directory d. */
  predicate Within(m: Mem, l: Loc, d: nat) {
    match l
    case Root(e) => e == d
    case Slot(f, _) => f == d || (f in m.owner && m.owner[f].Slot? && m.owner[f].frame == d)
  }

  /** The user entries of d that name page p. */
  ghost function Uses(m: Mem, d: nat, p: nat): set<(nat, nat)>
    requires Shape(m) && d in m.dirs
  {
    set i: nat, j: nat | i < UPD && j < NENTRIES && Maps(Walk(m, d, i, j), p) :: (i, j)
  }

  /** How often a count can be decremented until it is zero. */
  function Countdown(r: u16): nat { if r == 0 then REFS else r }

  /** Unmanaged page p after n decrements: its count, and whether it has come on the free list.  If that
      was not empty at first, the page is followed by another one there, and its count has not passed
      zero twice, since page_free would have panicked. */
  ghost predicate Drained(m0: Mem, m: Mem, p: nat, n: nat) {
    && |m.pages| == |m0.pages| && (m0.free != [] ==> m.free != [])
    && (p < |m.pages| ==>
          && m.pages[p].ref == (m0.pages[p].ref - n) % REFS
          && (p in m.free <==> n >= Countdown(m0.pages[p].ref))
          && (m0.free != [] && p in m.free ==>
                m.pages[p].link != None && n < Countdown(m0.pages[p].ref) + REFS))
  }

  /** ... for every unmanaged page, as many decrements as entries of d that named it are gone. */
  ghost predicate AllDrained(m0: Mem, m: Mem, d: nat) {
    && Shape(m0) && d in m0.dirs && Shape(m) && d in m.dirs && m.refs.Keys == m0.refs.Keys
    && |m.pages| == |m0.pages|
    && forall p :: 0 <= p < |m.pages| && p !in m.refs ==>
         |Uses(m, d, p)| <= |Uses(m0, d, p)| && Drained(m0, m, p, |Uses(m0, d, p)| - |Uses(m, d, p)|)
  }

  /** No unmanaged page is named so often in d that its count, which nobody keeps, passes zero. */
  ghost predicate Survives(m: Mem, d: nat)
    requires Shape(m) && d in m.dirs
  {
    forall p :: 0 <= p < |m.pages| && p !in m.refs ==> |Uses(m, d, p)| < Countdown(m.pages[p].ref)
  }

  /** Some unmanaged page is named so often in d that its count passes zero twice. */
  ghost predicate Overdrawn(m: Mem, d: nat)
    requires Shape(m) && d in m.dirs
  {
    exists p :: 0 <= p < |m.pages| && p !in m.refs && |Uses(m, d, p)| >= Countdown(m.pages[p].ref) + REFS
  }

  lemma DrainArith(r: u16, n: nat)
    ensures (r - n) % REFS == 1 ==> ((r - n) % REFS + REFS - 1) % REFS == (r - (n + 1)) % REFS == 0
    ensures ((r - n) % REFS + REFS - 1) % REFS == (r - (n + 1)) % REFS
    ensures n + 1 >= Countdown(r) <==> n >= Countdown(r) || (r - n) % REFS == 1
    ensures n < Countdown(r) + REFS && (r - n) % REFS != 1 ==> n + 1 < Countdown(r) + REFS
    ensures n >= Countdown(r) && (r - n) % REFS == 1 ==> n + 1 >= Countdown(r) + REFS
  {
  }

  /** One more entry that names unmanaged page p goes. */
  lemma DrainOne(m0: Mem, m: Mem, m1: Mem, p: nat, n: nat)
    requires Drained(m0, m, p, n) && p < |m.pages| && |m1.pages| == |m.pages|
    requires m.pages[p].ref == 1 ==> m.pages[p].link == None
    requires m1.pages == DecrefPages(m.pages, m.free, p) && m1.free == DecrefFree(m.pages, m.free, p)
    ensures Drained(m0, m1, p, n + 1)
  {
    DrainArith(m0.pages[p].ref, n);
  }

  lemma UsesChanged(m: Mem, m': Mem, d: nat, i: nat, j: nat, p: nat)
    requires Changed(m, m', d, i, j, ZERO)
    ensures Uses(m', d, p) == Uses(m, d, p) - {(i, j)}
    ensures (i, j) in Uses(m, d, p) <==> Maps(Walk(m, d, i, j), p)
  {
  }

  /** Removing an entry drains the page it names, if that is unmanaged, and no other. */
  lemma RemovedDrains(m0: Mem, m: Mem, m': Mem, d: nat, i: nat, j: nat)
    requires AllDrained(m0, m, d) && Changed(m, m', d, i, j, ZERO) && m'.refs.Keys == m.refs.Keys
    requires Walk(m, d, i, j) != ZERO && Walk(m, d, i, j).ppn < |m.pages|
    requires m'.pages == DecrefPages(m.pages, m.free, Walk(m, d, i, j).ppn)
    requires m'.free == DecrefFree(m.pages, m.free, Walk(m, d, i, j).ppn)
    requires m.pages[Walk(m, d, i, j).ppn].ref == 1 ==> m.pages[Walk(m, d, i, j).ppn].link == None
    ensures AllDrained(m0, m', d)
  {
    hide Uses;
    var q := Walk(m, d, i, j).ppn;
    forall p | 0 <= p < |m'.pages| && p !in m'.refs
      ensures |Uses(m', d, p)| <= |Uses(m0, d, p)|
      ensures Drained(m0, m', p, |Uses(m0, d, p)| - |Uses(m', d, p)|)
    {
      UsesChanged(m, m', d, i, j, p);
      var n := |Uses(m0, d, p)| - |Uses(m, d, p)|;
      assert Drained(m0, m, p, n);
      if p == q {
        assert |Uses(m', d, p)| == |Uses(m, d, p)| - 1;
        DrainOne(m0, m, m', p, n);
      } else {
        assert Uses(m', d, p) == Uses(m, d, p);
        assert p in m'.free <==> p in m.free;
      }
    }
  }

  /** Nothing an entry names is unmanaged and on the free list with one reference left, unless its count
      is about to pass zero for the second time. */
  lemma SecondTime(m0: Mem, m: Mem, d: nat, i: nat, j: nat)
    requires AllDrained(m0, m, d) && i < UPD && j < NENTRIES && Walk(m, d, i, j) != ZERO
    requires Walk(m, d, i, j).ppn < |m.pages| && Walk(m, d, i, j).ppn !in m.refs
    requires Walk(m, d, i, j).ppn in m.free && m.pages[Walk(m, d, i, j).ppn].ref == 1
    ensures Overdrawn(m0, d)
  {
    var p := Walk(m, d, i, j).ppn;
    var n := |Uses(m0, d, p)| - |Uses(m, d, p)|;
    assert (i, j) in Uses(m, d, p) && |Uses(m, d, p)| >= 1;
    assert Drained(m0, m, p, n);
    DrainArith(m0.pages[p].ref, n);
  }

  /** One round of the loops of env_free. */
  lemma RemovedGoesOn(m0: Mem, m: Mem, m': Mem, d: nat, i: nat, j: nat)
    requires AllDrained(m0, m, d) && Shrinks(m0, m, d) && Sound(m, {}, None)
    requires i < UPD && j < NENTRIES && m.frames[d][i] != ZERO && Walk(m, d, i, j) != ZERO
    requires m.frames[d][i].ppn < |m.frames| && Walk(m, d, i, j).ppn < |m.pages|
    requires m' == Decref(ClearPte(m, m.frames[d][i].ppn, j), Walk(m, d, i, j).ppn)
    requires m.pages[Walk(m, d, i, j).ppn].ref == 1 ==> m.pages[Walk(m, d, i, j).ppn].link == None
    requires Changed(m, m', d, i, j, ZERO)
    ensures AllDrained(m0, m', d) && Shrinks(m0, m', d) && m'.frames[d] == m.frames[d]
  {
    hide RefsRight, Counted, FreeRight, AllDrained;
    RemovedShrinks(m, d, i, j);
    ShrinksTwice(m0, m, m', d);
    RemovedDrains(m0, m, m', d, i, j);
  }

  /** Changes that concern neither an unmanaged page nor a translation. */
  lemma StillDrained(m0: Mem, m: Mem, m': Mem, d: nat)
    requires AllDrained(m0, m, d) && Untouched(m, m') && m'.refs.Keys == m.refs.Keys && |m'.pages| == |m.pages|
    requires forall p :: 0 <= p < |m.pages| && p !in m.refs ==>
               m'.pages[p] == m.pages[p] && (p in m'.free <==> p in m.free)
    requires m.free != [] ==> m'.free != []
    ensures AllDrained(m0, m', d)
  {
    forall p | 0 <= p < |m'.pages| && p !in m'.refs
      ensures |Uses(m', d, p)| <= |Uses(m0, d, p)|
      ensures Drained(m0, m', p, |Uses(m0, d, p)| - |Uses(m', d, p)|)
    {
      assert Uses(m', d, p) == Uses(m, d, p);
    }
  }

  lemma FirstDrained(m: Mem, d: nat)
    requires Inv(m, {}, None) && d in m.dirs
    ensures AllDrained(m, m, d)
  {
    forall p | 0 <= p < |m.pages| && p !in m.refs ensures Drained(m, m, p, 0) {}
  }

  /** When all entries are gone every unmanaged page has been decremented as often as d named it. */
  lemma LastDrained(m0: Mem, m: Mem, d: nat)
    requires AllDrained(m0, m, d) && forall p :: p in m.free ==> p < |m.pages|
    requires forall i :: 0 <= i < UPD ==> m.frames[d][i] == ZERO
    ensures NoStray(m.refs, m.free) <==> Survives(m0, d)
    ensures m0.free != [] ==> !Overdrawn(m0, d)
  {
    forall p | 0 <= p < |m.pages| && p !in m.refs
      ensures p in m.free <==> |Uses(m0, d, p)| >= Countdown(m0.pages[p].ref)
      ensures m0.free != [] ==> |Uses(m0, d, p)| < Countdown(m0.pages[p].ref) + REFS
    {
      forall i, j | 0 <= i < UPD && 0 <= j < NENTRIES ensures !Maps(Walk(m, d, i, j), p) {}
      assert Uses(m, d, p) == {};
      assert Drained(m0, m, p, |Uses(m0, d, p)| - 0);
    }
  }

  /** From m to m' only references inside d went away. */
  ghost predicate Shrinks(m: Mem, m': Mem, d: nat) {
    && Shape(m) && Shape(m') && m'.dirs <= m.dirs && m.dirs <= m'.dirs + {d}
    && m'.refs.Keys == m.refs.Keys && |m'.pages| == |m.pages|
    && (forall t :: t in m'.owner ==> t in m.owner && m'.owner[t] == m.owner[t])
    && (forall t :: t in m.owner && t !in m'.owner ==> Within(m, Slot(t, 0), d))
    && (forall p, l :: p in m.refs && l in m'.refs[p] ==> l in m.refs[p])
    && (forall p, l :: p in m.refs && l in m.refs[p] && l !in m'.refs[p] ==> Within(m, l, d))
    && (forall e, i, j :: e in m'.dirs && e != d && 0 <= i < UPD && 0 <= j < NENTRIES ==>
          Walk(m', e, i, j) == Walk(m, e, i, j))
  }

  lemma ShrinksTwice(m0: Mem, m1: Mem, m2: Mem, d: nat)
    requires Shrinks(m0, m1, d) && Shrinks(m1, m2, d)
    ensures Shrinks(m0, m2, d)
  {
    hide Shape;
    forall p, l | p in m0.refs && l in m0.refs[p] && l !in m2.refs[p] ensures Within(m0, l, d) {
      if l in m1.refs[p] { assert Within(m1, l, d); }
    }
  }

  lemma RemovedShrinks(m: Mem, d: nat, i: nat, j: nat)
    requires Sound(m, {}, None) && d in m.dirs && i < UPD && j < NENTRIES && m.frames[d][i] != ZERO
    requires Walk(m, d, i, j) != ZERO
    ensures m.frames[d][i].ppn in m.owner && m.frames[d][i].ppn < |m.frames| && Walk(m, d, i, j).ppn < |m.pages|
    ensures Shrinks(m, Decref(ClearPte(m, m.frames[d][i].ppn, j), Walk(m, d, i, j).ppn), d)
  {
    hide RefsRight, Counted, FreeRight;
    assert PdeOk(m, d, i);
    var t := m.frames[d][i].ppn;
    assert PteOk(m, t, j);
    var p := Walk(m, d, i, j).ppn;
    var m' := Decref(ClearPte(m, t, j), p);
    ClearPteShape(m, t, j);
    ShapeSame(ClearPte(m, t, j), m');
    PteWalks(m, m', t, j, ZERO, d, i);
    assert m'.refs == DropRef(m.refs, p, Slot(t, j));
  }

  lemma DropTableKeeps(m: Mem, d: nat, i: nat)
    requires Sound(m, {}, None) && d in m.dirs && i < UPD && m.frames[d][i] != ZERO
    requires forall j :: 0 <= j < NENTRIES ==> Walk(m, d, i, j) == ZERO
    ensures m.frames[d][i].ppn in m.refs && m.frames[d][i].ppn < |m.pages| && m.frames[d][i].ppn !in m.free
    ensures var m' := Decref(DropTable(m, d, i), m.frames[d][i].ppn);
            && Sound(m', {}, None) && Shrinks(m, m', d) && Untouched(m, m')
            && (NoStray(m'.refs, m'.free) <==> NoStray(m.refs, m.free))
  {
    hide RefsRight, Counted, OwnerOk;
    var t := m.frames[d][i].ppn;
    assert PdeOk(m, d, i);
    DropTableShape(m, d, i);
    var m1 := DropTable(m, d, i);
    var m' := Decref(m1, t);
    ShapeSame(m1, m');
    DecrefCounts(m.refs, Slot(d, i), m.pages, m.free, t, {}, None);
    forall e, k, j | e in m.dirs && 0 <= k < UPD && 0 <= j < NENTRIES ensures Walk(m', e, k, j) == Walk(m, e, k, j) {
      assert PdeOk(m, e, k);
      if (e, k) == (d, i) { assert Walk(m, d, i, j) == ZERO; }
    }
  }

  /** The page directory goes. */
  function DropDir(m: Mem, d: nat): Mem {
    Mem(m.pages, m.free, m.frames, m.dirs - {d}, m.owner, DropRef(m.refs, d, Root(d)))
  }

  lemma DropDirKeeps(m: Mem, d: nat)
    requires Sound(m, {}, None) && d in m.dirs && forall i :: 0 <= i < UPD ==> m.frames[d][i] == ZERO
    ensures d < |m.pages| && d !in m.free
    ensures var m' := Decref(DropDir(m, d), d);
            && Sound(m', {}, None) && Shrinks(m, m', d)
            && (NoStray(m'.refs, m'.free) <==> NoStray(m.refs, m.free))
    ensures forall t :: t in m.owner ==> !Within(m, Slot(t, 0), d)
  {
    hide Counted;
    assert Points(m, Root(d), d);
    DropDirShape(m, d);
    ShapeSame(DropDir(m, d), Decref(DropDir(m, d), d));
    DecrefCounts(m.refs, Root(d), m.pages, m.free, d, {}, None);
  }

  lemma DropDirShape(m: Mem, d: nat)
    requires Shape(m) && d in m.dirs && forall i :: 0 <= i < UPD ==> m.frames[d][i] == ZERO
    ensures Shape(DropDir(m, d))
    ensures forall e, i, j :: e in m.dirs - {d} && 0 <= i < UPD && 0 <= j < NENTRIES ==>
              Walk(DropDir(m, d), e, i, j) == Walk(m, e, i, j)
    ensures forall t :: t in m.owner ==> !Within(m, Slot(t, 0), d)
  {
    var m' := DropDir(m, d);
    forall e, i | e in m'.dirs && 0 <= i < UPD ensures PdeOk(m', e, i) { assert PdeOk(m, e, i); }
    forall t | t in m.owner ensures OwnerOk(m', t) && m.owner[t].frame != d { assert OwnerOk(m, t); }
    forall t, j | t in m.owner && 0 <= j < NENTRIES ensures PteOk(m', t, j) { assert PteOk(m, t, j); }
    forall q, l | q in m'.refs ensures l in m'.refs[q] <==> Points(m', l, q) {
      assert l in m.refs[q] <==> Points(m, l, q);
    }
    forall e, i, j | e in m'.dirs && 0 <= i < UPD && 0 <= j < NENTRIES ensures Walk(m', e, i, j) == Walk(m, e, i, j) {
      assert PdeOk(m, e, i);
    }
  }

  /** At the end nothing inside d refers to anything, and nothing else has gone. */
  lemma NothingLeft(m0: Mem, m2: Mem, m3: Mem, d: nat)
    requires Shrinks(m0, m2, d) && Shrinks(m2, m3, d) && Sound(m3, {}, None) && d !in m3.dirs && m3.owner == m2.owner
    requires forall t :: t in m2.owner ==> !Within(m2, Slot(t, 0), d)
    ensures forall p, l :: p in m3.refs ==> (l in m3.refs[p] <==> l in m0.refs[p] && !Within(m0, l, d))
    ensures forall p :: p in m3.refs ==> (p in m3.free <==> forall l :: l in m0.refs[p] ==> Within(m0, l, d))
  {
    ShrinksTwice(m0, m2, m3, d);
    forall p, l | p in m3.refs ensures l in m3.refs[p] <==> l in m0.refs[p] && !Within(m0, l, d) {
      if l in m3.refs[p] {
        assert Points(m3, l, p);
        assert l.Slot? && l.frame in m3.owner ==> !Within(m2, Slot(l.frame, 0), d);
      }
    }
    forall p | p in m3.refs ensures p in m3.free <==> forall l :: l in m0.refs[p] ==> Within(m0, l, d) {
      assert p in m3.free <==> m3.refs[p] == {};
      assert m3.refs[p] == {} <==> forall l :: l !in m3.refs[p];
    }
  }

  lemma BumpSpares(m: Mem, e: Entry, pp: nat)
    requires Mappable(m, pp) && e.ppn < |m.pages|
    ensures SparesFor(m, pp, e) <==> e == ZERO || Spares(WithRef(m, pp, (m.pages[pp].ref + 1) % REFS), e)
  {
  }

  lemma CountedChanged(m0: Mem, m1: Mem, m3: Mem, d: nat, pdx: nat, ptx: nat, e: Entry)
    requires Shape(m0) && Changed(m1, m3, d, pdx, ptx, e) && m1.frames == m0.frames && m1.dirs == m0.dirs
    ensures Changed(m0, m3, d, pdx, ptx, e)
  {
  }

  /** n times sys_page_unmap of an address whose page table exists but whose entry is empty. */
  function UnmapEmpty(m: Mem, n: nat): Mem
    requires |m.pages| > 0
    ensures |UnmapEmpty(m, n).pages| == |m.pages| && UnmapEmpty(m, n).refs == m.refs
    ensures UnmapEmpty(m, n).frames == m.frames && UnmapEmpty(m, n).dirs == m.dirs && UnmapEmpty(m, n).owner == m.owner
  {
    if n == 0 then m else Decref(UnmapEmpty(m, n - 1), 0)
  }

  /** One such unmap: the entry is cleared again and the count of page 0 drops. */
  lemma UnmapEmptyOnce(m: Mem, t: nat, j: nat)
    requires Sized(m) && t < |m.frames| && j < NENTRIES && m.frames[t][j] == ZERO && |m.pages| > 0
    ensures Decref(ClearPte(m, t, j), m.frames[t][j].ppn) == UnmapEmpty(m, 1)
  {
    assert m.frames[t][j := ZERO] == m.frames[t];
    assert ClearPte(m, t, j) == m;
    assert UnmapEmpty(m, 0) == m;
  }

  /** Such unmaps are not no-ops.  They do no harm 65535 times ... */
  lemma {:induction false} UnmapEmptyHarmless(m: Mem, n: nat)
    requires Inv(m, {}, None) && |m.pages| > 0 && m.pages[0].ref == 0 && n < REFS
    ensures Inv(UnmapEmpty(m, n), {}, None) && UnmapEmpty(m, n).pages[0].ref == (REFS - n) % REFS
  {
    hide Shape, Counted, DecrefFree;
    if n == 0 {
    } else {
      UnmapEmptyHarmless(m, n - 1);
      var k := UnmapEmpty(m, n - 1);
      ShapeSame(m, UnmapEmpty(m, n));
      StrayCounts(k.refs, k.pages, k.free, 0, {}, None);
    }
  }

  /** ... and the next one puts page 0, which page_init keeps out of circulation, on the free list. */
  lemma UnmapEmptyLeaks(m: Mem)
    requires Inv(m, {}, None) && |m.pages| > 0 && m.pages[0].ref == 0
    ensures 0 in UnmapEmpty(m, REFS).free && !Inv(UnmapEmpty(m, REFS), {}, None)
  {
    UnmapEmptyHarmless(m, REFS - 1);
    var k := UnmapEmpty(m, REFS - 1);
    assert UnmapEmpty(m, REFS) == Decref(k, 0);
    StrayCounts(k.refs, k.pages, k.free, 0, {}, None);
  }

  /** page_insert of page p where entry (t, j) is empty. */
  function MapOne(m: Mem, p: nat, t: nat, j: nat, perm: set<Bit>): Mem
    requires Sized(m) && t < |m.frames| && j < NENTRIES && p < |m.pages|
  {
    SetPte(WithRef(m, p, (m.pages[p].ref + 1) % REFS), t, j, Entry(p, perm))
  }

  /** After one sys_page_map from an empty entry a single unmap is enough: the map counts page 0 once ... */
  lemma EmptyMapKeeps(m: Mem, d: nat, pdx: nat, t: nat, ptx: nat, perm: set<Bit>)
    requires Inv(m, {}, None) && t in m.owner && m.owner[t] == Slot(d, pdx) && ptx < NENTRIES
    requires m.frames[t][ptx] == ZERO && P in perm && m.pages[0].ref == 0
    ensures var m1 := MapOne(m, 0, t, ptx, perm);
      && Inv(m1, {}, None) && Changed(m, m1, d, pdx, ptx, Entry(0, perm)) && m1.pages[0].ref == 1
      && !Spares(m1, Entry(0, perm))
  {
    hide RefsRight, Counted;
    assert OwnerOk(m, t);
    var e := Entry(0, perm);
    var none: set<nat> := {};
    BumpKeeps(m, 0, none);
    assert none - {0} == none;
    WriteKeeps(WithRef(m, 0, 1), t, ptx, e, none);
    PteWalks(m, SetPte(WithRef(m, 0, 1), t, ptx, e), t, ptx, e, d, pdx);
  }

  /** ... and the unmap frees it, */
  lemma EmptyMapThenUnmap(m: Mem, d: nat, pdx: nat, t: nat, ptx: nat, perm: set<Bit>)
    requires Inv(m, {}, None) && t in m.owner && m.owner[t] == Slot(d, pdx) && ptx < NENTRIES
    requires m.frames[t][ptx] == ZERO && P in perm && m.pages[0].ref == 0
    ensures var m2 := Decref(ClearPte(MapOne(m, 0, t, ptx, perm), t, ptx), 0); 0 in m2.free && !Inv(m2, {}, None)
  {
    hide RefsRight;
    EmptyMapKeeps(m, d, pdx, t, ptx, perm);
    RemoveStrayKeeps(MapOne(m, 0, t, ptx, perm), t, ptx, {}, None);
  }

  lemma UsesOne(m: Mem, m': Mem, d: nat, i: nat, j: nat, e: Entry, p: nat)
    requires Changed(m, m', d, i, j, e) && Maps(e, p) && Uses(m, d, p) == {}
    ensures Uses(m', d, p) == {(i, j)}
  {
    hide Shape, Walk;
    forall x, y | 0 <= x < UPD && 0 <= y < NENTRIES ensures !Maps(Walk(m, d, x, y), p) {
      assert (x, y) !in Uses(m, d, p);
    }
  }

  /** ... as does an exit of the environment, if it names page 0 nowhere else. */
  lemma EmptyMapThenExit(m: Mem, d: nat, pdx: nat, t: nat, ptx: nat, perm: set<Bit>)
    requires Inv(m, {}, None) && t in m.owner && m.owner[t] == Slot(d, pdx) && ptx < NENTRIES
    requires m.frames[t][ptx] == ZERO && P in perm && m.pages[0].ref == 0 && d in m.dirs && Uses(m, d, 0) == {}
    ensures var m1 := MapOne(m, 0, t, ptx, perm);
      Inv(m1, {}, None) && Uses(m1, d, 0) == {(pdx, ptx)} && !Survives(m1, d)
  {
    hide RefsRight, Counted, FreeRight, MapOne, Uses, Walk;
    EmptyMapKeeps(m, d, pdx, t, ptx, perm);
    var m1 := MapOne(m, 0, t, ptx, perm);
    UsesOne(m, m1, d, pdx, ptx, Entry(0, perm), 0);
    assert |Uses(m1, d, 0)| == 1;
  }

  lemma RemoveStep(m: Mem, t: nat, j: nat, limbo: set<nat>, extra: Option<nat>)
    requires Sound(m, limbo, extra) && t in m.owner && j < NENTRIES && m.frames[t][j].ppn < |m.pages|
    ensures var m' := Decref(ClearPte(m, t, j), m.frames[t][j].ppn);
            && Sound(m', limbo, extra)
            && (NoStray(m'.refs, m'.free) <==> NoStray(m.refs, m.free) && Spares(m, m.frames[t][j]))
    ensures m.frames[t][j].ppn in m.refs ==> m.frames[t][j].ppn !in m.free
  {
    var p := m.frames[t][j].ppn;
    if p in m.refs {
      assert Points(m, Slot(t, j), p);
      RemoveKeeps(m, t, j, limbo, extra);
    } else {
      RemoveStrayKeeps(m, t, j, limbo, extra);
    }
  }

  /** page_insert counts the new reference before the entry is written. */
  lemma BumpKeeps(m: Mem, p: nat, limbo: set<nat>)
    requires Inv(m, limbo, None) && p < |m.pages| && p !in m.free
    ensures Inv(WithRef(m, p, (m.pages[p].ref + 1) % REFS), limbo - {p}, Some(p))
  {
    ShapeSame(m, WithRef(m, p, (m.pages[p].ref + 1) % REFS));
  }

  /** ... and then writes the cleared entry.  The count is right exactly when it has not wrapped. */
  lemma WriteKeeps(m: Mem, t: nat, j: nat, e: Entry, limbo: set<nat>)
    requires Sound(m, limbo, Some(e.ppn)) && t in m.owner && j < NENTRIES && m.frames[t][j] == ZERO
    requires P in e.bits && e.ppn < |m.pages| && e.ppn !in m.dirs && e.ppn !in m.owner && e.ppn !in limbo
    ensures Shape(SetPte(m, t, j, e))
    ensures Sound(SetPte(m, t, j, e), limbo, None) <==> (e.ppn in m.refs ==> |m.refs[e.ppn]| + 1 < REFS)
    ensures NoStray(SetPte(m, t, j, e).refs, m.free) <==> NoStray(m.refs, m.free)
  {
    hide RefsRight;
    SetPteShape(m, t, j, e);
    if e.ppn in m.refs {
      AddCounts(m.refs, Slot(t, j), m.pages, m.free, e.ppn, limbo);
    }
  }

  lemma AddCounts(rs: map<nat, set<Loc>>, l: Loc, pages: seq<PageInfo>, free: seq<nat>, p: nat, limbo: set<nat>)
    requires Counted(rs, pages, Some(p)) && FreeRight(rs, free, limbo, Some(p))
    requires p in rs && l !in rs[p] && p !in limbo
    ensures Counted(rs[p := rs[p] + {l}], pages, None) <==> |rs[p]| + 1 < REFS
    ensures FreeRight(rs[p := rs[p] + {l}], free, limbo, None)
  {
    var rs' := rs[p := rs[p] + {l}];
    assert |rs'[p]| == |rs[p]| + 1 && l in rs'[p];
  }

  /** page_insert of page p at all the empty entries ls, one after the other. */
  function MapAll(m: Mem, p: nat, ls: seq<(nat, nat)>, perm: set<Bit>): Mem
    requires Sized(m) && p < |m.pages| && forall l :: l in ls ==> l.0 < |m.frames| && l.1 < NENTRIES
    ensures var m' := MapAll(m, p, ls, perm); Sized(m') && |m'.pages| == |m.pages|
    ensures var m' := MapAll(m, p, ls, perm); m'.owner == m.owner && m'.dirs == m.dirs && m'.free == m.free
  {
    if ls == [] then m
    else
      var k := |ls| - 1;
      MapOne(MapAll(m, p, ls[..k], perm), p, ls[k].0, ls[k].1, perm)
  }

  /** Entries of live page tables, all empty and none of them twice. */
  predicate EmptyEntries(m: Mem, ls: seq<(nat, nat)>)
    requires Sized(m)
  {
    && (forall l :: l in ls ==> l.0 in m.owner && l.0 < |m.frames| && l.1 < NENTRIES && m.frames[l.0][l.1] == ZERO)
    && forall a, b :: 0 <= a < b < |ls| ==> ls[a] != ls[b]
  }

  /** m' is m with page p mapped at the entries ls as well, and counted modulo 2^16. */
  ghost predicate AlsoMapped(m: Mem, m': Mem, p: nat, ls: seq<(nat, nat)>, perm: set<Bit>) {
    && Shape(m') && m'.owner == m.owner && m'.dirs == m.dirs && m'.free == m.free
    && |m'.pages| == |m.pages| && p < |m.pages|
    && p in m.refs && p in m'.refs && |m'.refs[p]| == |m.refs[p]| + |ls| && m'.pages[p].ref == |m'.refs[p]| % REFS
    && (forall l :: l in ls ==> l.0 in m.owner && l.0 < |m'.frames| && l.1 < NENTRIES)
    && (forall l :: l in ls ==> m'.frames[l.0][l.1] == Entry(p, perm))
  }

  /** The entries after ls are still empty. */
  predicate StillEmpty(m: Mem, ls: seq<(nat, nat)>, k: nat)
    requires Sized(m) && k <= |ls|
  {
    forall a :: k <= a < |ls| ==>
      ls[a].0 in m.owner && ls[a].0 < |m.frames| && ls[a].1 < NENTRIES && m.frames[ls[a].0][ls[a].1] == ZERO
  }

  /** However many there are, the count is the number of references modulo 2^16. */
  lemma {:induction false} MapAllCounts(m: Mem, p: nat, ls: seq<(nat, nat)>, perm: set<Bit>, k: nat)
    requires Inv(m, {}, None) && p in m.refs && m.refs[p] != {} && p !in m.dirs && p !in m.owner
    requires EmptyEntries(m, ls) && P in perm && k <= |ls|
    ensures AlsoMapped(m, MapAll(m, p, ls[..k], perm), p, ls[..k], perm)
    ensures StillEmpty(MapAll(m, p, ls[..k], perm), ls, k)
  {
    hide Counted, FreeRight, RefsRight, MapOne, AlsoMapped;
    if k == 0 {
      FewMapped(m, p, ls, perm);
      assert forall a :: 0 <= a < |ls| ==> ls[a] in ls;
    } else {
      MapAllCounts(m, p, ls, perm, k - 1);
      assert ls[..k][..k - 1] == ls[..k - 1];
      AlsoMappedOne(m, MapAll(m, p, ls[..k - 1], perm), p, ls, perm, k - 1);
    }
  }

  lemma FewMapped(m: Mem, p: nat, ls: seq<(nat, nat)>, perm: set<Bit>)
    requires Inv(m, {}, None) && p in m.refs
    ensures AlsoMapped(m, m, p, ls[..0], perm)
  {
    hide RefsRight;
  }

  lemma AlsoMappedOne(m: Mem, m1: Mem, p: nat, ls: seq<(nat, nat)>, perm: set<Bit>, k: nat)
    requires k < |ls| && AlsoMapped(m, m1, p, ls[..k], perm) && StillEmpty(m1, ls, k)
    requires P in perm && p !in m.dirs && p !in m.owner && forall a, b :: 0 <= a < b < |ls| ==> ls[a] != ls[b]
    ensures var m' := MapOne(m1, p, ls[k].0, ls[k].1, perm);
            AlsoMapped(m, m', p, ls[..k + 1], perm) && StillEmpty(m', ls, k + 1)
  {
    hide RefsRight, MapOne;
    var (t, j) := ls[k];
    MapOneCounts(m1, p, t, j, perm);
    assert forall l :: l in ls[..k + 1] <==> l in ls[..k] || l == ls[k];
  }

  lemma MapOneCounts(m: Mem, p: nat, t: nat, j: nat, perm: set<Bit>)
    requires Shape(m) && p in m.refs && p < |m.pages| && p !in m.dirs && p !in m.owner && P in perm
    requires t in m.owner && t < |m.frames| && j < NENTRIES && m.frames[t][j] == ZERO
    requires m.pages[p].ref == |m.refs[p]| % REFS
    ensures var m' := MapOne(m, p, t, j, perm);
      && Shape(m') && m'.refs.Keys == m.refs.Keys && |m'.refs[p]| == |m.refs[p]| + 1
      && m'.pages[p].ref == |m'.refs[p]| % REFS && m'.frames == m.frames[t := m.frames[t][j := Entry(p, perm)]]
      && m'.owner == m.owner && m'.dirs == m.dirs && m'.free == m.free && |m'.pages| == |m.pages|
  {
    hide RefsRight;
    var m0 := WithRef(m, p, (m.pages[p].ref + 1) % REFS);
    ShapeSame(m, m0);
    SetPteShape(m0, t, j, Entry(p, perm));
  }

  /** Page p is on the free list although 65536 entries and pointers refer to it. */
  ghost predicate FreeThoughMapped(m: Mem, p: nat) {
    && Shape(m) && p in m.free && p in m.refs
    && |m.refs[p]| == REFS && forall l :: l in m.refs[p] ==> Points(m, l, p)
  }

  /** With 65537 references the count is 1, and removing one of them frees the page. */
  lemma FreedTooEarly(m: Mem, p: nat, t: nat, j: nat)
    requires Shape(m) && p in m.refs && |m.refs[p]| == REFS + 1 && m.pages[p].ref == |m.refs[p]| % REFS
    requires t in m.owner && j < NENTRIES && Maps(m.frames[t][j], p)
    ensures FreeThoughMapped(Decref(ClearPte(m, t, j), p), p)
  {
    ClearPteShape(m, t, j);
    ShapeSame(ClearPte(m, t, j), Decref(ClearPte(m, t, j), p));
    assert Points(m, Slot(t, j), p);
  }

  /** So from any state in order: map a page at so many empty entries that it has 65537 references, and
      unmap one of them.  The page is on the free list while 65536 entries still refer to it. */
  lemma OverflowFreesMapped(m: Mem, p: nat, ls: seq<(nat, nat)>, perm: set<Bit>, t: nat, j: nat)
    requires Inv(m, {}, None) && p in m.refs && m.refs[p] != {} && p !in m.dirs && p !in m.owner
    requires EmptyEntries(m, ls) && P in perm && |m.refs[p]| + |ls| == REFS + 1 && (t, j) in ls
    ensures t < |m.frames| && j < NENTRIES
    ensures var m1 := MapAll(m, p, ls, perm);
            m1.pages[p].ref == 1 && p !in m1.free && FreeThoughMapped(Decref(ClearPte(m1, t, j), p), p)
  {
    hide RefsRight, ClearPte, Decref, FreeThoughMapped, MapAll, PteOk, PdeOk, OwnerOk;
    MapAllCounts(m, p, ls, perm, |ls|);
    assert ls[..|ls|] == ls;
    FreedTooEarly(MapAll(m, p, ls, perm), p, t, j);
  }

  // ---------------------------------------------------------------------------------------------
  // The kernel's own routines.

  /** check_perm (tps/kern/syscall.c): present and for the user, and none of the bits that are the
      hardware's or the kernel's. */
  predicate PermOk(perm: set<Bit>): (ok: bool)
    ensures ok <==>
      {P, U} <= perm && forall b :: b in perm ==> !b.PWT? && !b.PCD? && !b.A? && !b.D? && !b.PS? && !b.G?
  {
    perm <= {P, W, U, AV0, AV1, AV2} && P in perm && U in perm
  }

  /** check_mem (tps/kern/syscall.c). */
  predicate VaOk(va: nat) { va < UTOP && va % PGSIZE == 0 }

  function Pdx(va: nat): nat { va / 0x40_0000 }
  function Ptx(va: nat): nat { va / PGSIZE % NENTRIES }

  /** PGADDR(i, j, 0): the address that entry j of table i is for. */
  function PageAddr(i: nat, j: nat): nat { (i * NENTRIES + j) * PGSIZE }

  /** Every page address below UTOP is that of exactly one entry, the one that PDX and PTX select. */
  lemma AddressDecodes(va: nat)
    requires VaOk(va)
    ensures Pdx(va) < UPD && Ptx(va) < NENTRIES && PageAddr(Pdx(va), Ptx(va)) == va
    ensures forall i, j :: 0 <= i < UPD && 0 <= j < NENTRIES && PageAddr(i, j) == va ==> i == Pdx(va) && j == Ptx(va)
  {
    assert va / 0x40_0000 == va / PGSIZE / NENTRIES;
    forall i, j | 0 <= i < UPD && 0 <= j < NENTRIES && PageAddr(i, j) == va
      ensures i == Pdx(va) && j == Ptx(va)
    {
      EntryDecodes(i, j);
    }
  }

  lemma EntryDecodes(i: nat, j: nat)
    requires i < UPD && j < NENTRIES
    ensures VaOk(PageAddr(i, j)) && Pdx(PageAddr(i, j)) == i && Ptx(PageAddr(i, j)) == j
  {
    var n := i * NENTRIES + j;
    assert n * PGSIZE / PGSIZE == n && n / NENTRIES == i && n % NENTRIES == j;
    assert PageAddr(i, j) / 0x40_0000 == PageAddr(i, j) / PGSIZE / NENTRIES;
  }

  /** The entry that is for page address va in directory d. */
  ghost function Translation(m: Mem, d: nat, va: nat): Entry
    requires Shape(m) && d in m.dirs && VaOk(va)
  {
    AddressDecodes(va);
    var i: nat, j: nat :| i < UPD && j < NENTRIES && PageAddr(i, j) == va;
    Walk(m, d, i, j)
  }

  lemma TranslationIs(m: Mem, d: nat, va: nat)
    requires Shape(m) && d in m.dirs && VaOk(va)
    ensures Pdx(va) < UPD && Ptx(va) < NENTRIES && Translation(m, d, va) == Walk(m, d, Pdx(va), Ptx(va))
  {
    AddressDecodes(va);
  }

  /** Of all translations of all page addresses in all address spaces that of va in d alone has changed. */
  ghost predicate ChangedAt(m: Mem, m': Mem, d: nat, va: nat, e: Entry) {
    && Shape(m) && Shape(m') && m'.dirs == m.dirs && d in m.dirs && VaOk(va)
    && forall x, a :: x in m.dirs && VaOk(a) ==>
         Translation(m', x, a) == if x == d && a == va then e else Translation(m, x, a)
  }

  lemma ChangedAddress(m: Mem, m': Mem, d: nat, va: nat, e: Entry)
    requires VaOk(va) && Changed(m, m', d, Pdx(va), Ptx(va), e)
    ensures ChangedAt(m, m', d, va, e)
  {
    hide RefsRight;
    AddressDecodes(va);
    forall x, a | x in m.dirs && VaOk(a)
      ensures Translation(m', x, a) == if x == d && a == va then e else Translation(m, x, a)
    {
      TranslationIs(m, x, a);
      TranslationIs(m', x, a);
      AddressDecodes(a);
    }
  }

  /** What an access by user code to page va finds: the physical page, and whether it may write and be
      there at all.  Both levels must allow it. */
  datatype View = View(ppn: nat, write: bool, user: bool)

  ghost function UserView(m: Mem, d: nat, va: nat): Option<View>
    requires Shape(m) && d in m.dirs && VaOk(va)
  {
    AddressDecodes(va);
    var i: nat, j: nat :| i < UPD && j < NENTRIES && PageAddr(i, j) == va;
    var pde, pte := m.frames[d][i], Walk(m, d, i, j);
    if P in pde.bits && P in pte.bits then
      Some(View(pte.ppn, W in pde.bits && W in pte.bits, U in pde.bits && U in pte.bits))
    else None
  }

  /** A translation set by a system call lets the user do what its permissions say. */
  lemma ViewIs(m: Mem, d: nat, va: nat)
    requires Shape(m) && d in m.dirs && VaOk(va)
    ensures var e := Translation(m, d, va);
            UserView(m, d, va) == if e == ZERO then None else Some(View(e.ppn, W in e.bits, U in e.bits))
  {
    hide RefsRight;
    AddressDecodes(va);
    var i, j := Pdx(va), Ptx(va);
    assert PdeOk(m, d, i);
    if m.frames[d][i] != ZERO {
      assert PteOk(m, m.frames[d][i].ppn, j);
    }
  }

  datatype Status = Success | NoMem | Inval

  /** PGNUM(IOPHYSMEM). */
  const IOPAGE := 160

  /** The pages page_init puts on the free list: all but page 0, the I/O hole with the kernel, and the
      page at MPENTRY_PADDR. */
  predicate InitiallyFree(p: nat, npages: nat, end: nat) {
    1 <= p < npages && !(IOPAGE <= p < end) && p != 7
  }

  class Kernel {
    var pages: seq<PageInfo>
    var freeHead: Option<nat>
    var frames: Frames
    ghost var free: seq<nat>
    ghost var dirs: set<nat>
    ghost var owner: map<nat, Loc>
    ghost var refs: map<nat, set<Loc>>

    ghost function M(): Mem
      reads this
    {
      Mem(pages, free, frames, dirs, owner, refs)
    }

    /** The kernel's memory is in order: every count is right, and the free list is a list of exactly the
        managed pages nobody refers to. */
    ghost predicate Good(limbo: set<nat>, extra: Option<nat>)
      reads this
    {
      Inv(M(), limbo, extra) && Linked(pages, freeHead, free)
    }

    /** In order, but pages outside management may have come on the list, and made a ring of it. */
    ghost predicate Fair(limbo: set<nat>, extra: Option<nat>)
      reads this
    {
      && Sound(M(), limbo, extra) && Threaded(pages, freeHead, free)
      && (NoStray(refs, free) ==> Linked(pages, freeHead, free))
    }

    lemma GoodIsFair(limbo: set<nat>, extra: Option<nat>)
      ensures Good(limbo, extra) <==> Fair(limbo, extra) && NoStray(refs, free)
    {
      if Good(limbo, extra) { LinkedThreaded(pages, freeHead, free); }
    }

    /** Memory after boot: the free list is made, no environment exists. */
    constructor (npages: nat, end: nat)
      ensures Good({}, None) && |pages| == npages && dirs == {} && owner == map[]
      ensures forall p: nat :: p in free <==> InitiallyFree(p, npages, end)
    {
      pages := seq(npages, _ => PageInfo(None, 0));
      frames := seq(npages, _ => Zeros());
      freeHead, free, dirs, owner := None, [], {}, map[];
      refs := map p | 1 <= p < npages && InitiallyFree(p, npages, end) :: {};
      new;
      PageInit(end);
      assert Sized(M());
    }

    /** page_init (pmap.c:329-376) on the zeroed pages array; `end` is the first page after the kernel. */
    method PageInit(end: nat)
      requires forall p :: 0 <= p < |pages| ==> pages[p] == PageInfo(None, 0)
      modifies this`pages, this`freeHead, this`free
      ensures Linked(pages, freeHead, free) && |pages| == |old(pages)|
      ensures forall p :: 0 <= p < |pages| ==> pages[p].ref == 0
      ensures forall p: nat :: p in free <==> InitiallyFree(p, |pages|, end)
      ensures forall p: nat :: p in free <==>
                p < |pages| && p * PGSIZE !in {0, 0x7000} && !(0xA_0000 <= p * PGSIZE < end * PGSIZE)
    {
      freeHead, free := None, [];
      var current: Option<nat> := None;
      var i := 1;
      while i < |pages|
        invariant 1 <= i && |pages| == |old(pages)| && forall p :: 0 <= p < |pages| ==> pages[p].ref == 0
        invariant Linked(pages, freeHead, free)
        invariant forall p: nat :: p in free <==> p < i && InitiallyFree(p, |pages|, end)
        invariant current == if free == [] then None else Some(free[|free| - 1])
      {
        if (IOPAGE <= i < end) || i == 7 {
        } else if current == None {
          freeHead := Some(i);
          current := Some(i);
          free := [i];
          assert free[1..] == [];
        } else {
          AppendLinks(pages, freeHead, free, i);
          pages := pages[current.value := pages[current.value].(link := Some(i))];
          current := Some(i);
          assert pages[i := pages[i].(link := None)] == pages;
          pages := pages[i := pages[i].(link := None)];
          free := free + [i];
        }
        i := i + 1;
      }
    }

    /** The entry that would be used for (d, pdx, ptx); an empty one names physical page 0. */
    ghost function At(d: nat, pdx: nat, ptx: nat): Entry
      reads this
      requires Shape(M()) && d in dirs && pdx < UPD && ptx < NENTRIES
    {
      Walk(M(), d, pdx, ptx)
    }

    /** page_alloc(ALLOC_ZERO) (pmap.c:390-406). */
    method PageAlloc(ghost limbo: set<nat>) returns (r: Option<nat>)
      requires Good(limbo, None)
      modifies this
      ensures r.None? ==> free == [] && M() == old(M()) && freeHead == old(freeHead)
      ensures r.Some? ==>
        && old(free) != [] && old(free)[0] < |old(pages)| && r.value == old(free)[0]
        && M() == Alloc(old(M()))
        && r.value in refs && refs[r.value] == {} && r.value !in limbo && pages[r.value].ref == 0
        && r.value < |frames| && |frames[r.value]| == NENTRIES
        && forall i :: 0 <= i < NENTRIES ==> frames[r.value][i] == ZERO
      ensures Good(if r.None? then limbo else limbo + {r.value}, None)
    {
      if freeHead == None {
        return None;
      }
      PopLinks(pages, freeHead, free);
      AllocKeeps(M(), limbo);
      var p := freeHead.value;
      freeHead := pages[p].link;
      pages := pages[p := pages[p].(link := None)];
      frames := frames[p := Zeros()];
      free := free[1..];
      r := Some(p);
    }

    /** page_free (pmap.c:412-420) and its two panics. */
    method PageFree(p: nat) returns (panicked: bool)
      requires p < |pages| && Threaded(pages, freeHead, free)
      modifies this`pages, this`freeHead, this`free
      ensures panicked <==> old(pages)[p].ref != 0 || old(pages)[p].link != None
      ensures panicked ==> M() == old(M()) && freeHead == old(freeHead)
      ensures !panicked ==> pages == old(pages)[p := PageInfo(old(freeHead), 0)] && free == [p] + old(free)
      ensures !panicked ==> Threaded(pages, freeHead, free)
      ensures !panicked && old(Linked(pages, freeHead, free)) ==> (Linked(pages, freeHead, free) <==> p !in old(free))
    {
      if pages[p].ref != 0 {
        return true;
      }
      if pages[p].link != None {
        return true;
      }
      PushThreads(pages, freeHead, free, p);
      if Linked(pages, freeHead, free) && p !in free {
        PushLinks(pages, freeHead, free, p);
      }
      pages := pages[p := pages[p].(link := freeHead)];
      freeHead := Some(p);
      free := [p] + free;
      panicked := false;
    }

    /** page_decref (pmap.c:426-431). */
    method PageDecref(p: nat) returns (panicked: bool)
      requires p < |pages| && Threaded(pages, freeHead, free)
      modifies this`pages, this`freeHead, this`free
      ensures panicked <==> old(pages)[p].ref == 1 && old(pages)[p].link != None
      ensures !panicked ==> M() == Decref(old(M()), p) && Threaded(pages, freeHead, free)
      ensures !panicked && old(Linked(pages, freeHead, free)) && p !in old(free) ==> Linked(pages, freeHead, free)
    {
      hide Threaded, Linked;
      DecrefBySteps(pages, freeHead, free, p);
      if Linked(pages, freeHead, free) {
        CountedLinked(pages, freeHead, free, p, (pages[p].ref + REFS - 1) % REFS);
      }
      pages := pages[p := pages[p].(ref := (pages[p].ref + REFS - 1) % REFS)];
      panicked := false;
      if pages[p].ref == 0 {
        panicked := PageFree(p);
      }
    }

    /** pgdir_walk (pmap.c:455-477). */
    method PgdirWalk(d: nat, pdx: nat, ptx: nat, create: bool, ghost limbo: set<nat>) returns (slot: Option<nat>)
      requires Good(limbo, None) && d in dirs && pdx < UPD && ptx < NENTRIES
      modifies this
      ensures Good(limbo, None) && Extends(old(M()), M())
      ensures slot.None? ==> M() == old(M()) && frames[d][pdx] == ZERO && (create ==> free == [])
      ensures slot.None? <==> old(frames)[d][pdx] == ZERO && (!create || old(free) == [])
      ensures slot.Some? ==> slot.value in owner && owner[slot.value] == Slot(d, pdx)
      ensures !create || old(frames)[d][pdx] != ZERO ==> M() == old(M())
    {
      if frames[d][pdx] == ZERO {
        if !create {
          return None;
        }
        var page := PageAlloc(limbo);
        if page.None? {
          return None;
        }
        NewTable(d, pdx, page.value, limbo);
        NewTableExtends(old(M()), d, pdx, limbo);
      }
      assert PdeOk(M(), d, pdx);
      slot := Some(frames[d][pdx].ppn);
    }

    /** The end of pgdir_walk: the fresh page t is counted and entered in the directory (pmap.c:470-471). */
    method NewTable(d: nat, pdx: nat, t: nat, ghost limbo: set<nat>)
      requires Good(limbo + {t}, None) && t !in limbo && t < |pages| && pages[t].ref == 0 && t !in free
      requires d in dirs && pdx < UPD && frames[d][pdx] == ZERO && frames[t] == Zeros()
      modifies this
      ensures M() == WithRef(AddTable(old(M()), d, pdx, t), t, 1) && Good(limbo, None)
    {
      hide RefsRight, Counted, FreeRight;
      NewTableKeeps(M(), d, pdx, t, limbo);
      UnreferencedIsNoTable(M(), t);
      ChainFrame(pages, pages[t := pages[t].(ref := 1)], freeHead, free);
      pages := pages[t := pages[t].(ref := pages[t].ref + 1)];
      frames := frames[d := frames[d][pdx := Entry(t, {P, W, U})]];
      owner := owner[t := Slot(d, pdx)];
      refs := refs[t := refs[t] + {Slot(d, pdx)}];
    }

    /** page_lookup (pmap.c:572-586): it does not ask whether the entry it finds is in use, so an empty
        entry of an existing table yields physical page 0. */
    method PageLookup(d: nat, pdx: nat, ptx: nat) returns (r: Option<(nat, nat)>)
      requires Shape(M()) && d in dirs && pdx < UPD && ptx < NENTRIES
      ensures r.None? <==> frames[d][pdx] == ZERO
      ensures r.Some? ==> r.value.1 in owner && owner[r.value.1] == Slot(d, pdx)
                          && r.value.0 == frames[r.value.1][ptx].ppn == At(d, pdx, ptx).ppn < |pages|
    {
      assert PdeOk(M(), d, pdx);
      if frames[d][pdx] == ZERO {
        return None;
      }
      var t := frames[d][pdx].ppn;
      assert PteOk(M(), t, ptx);
      r := Some((frames[t][ptx].ppn, t));
    }

    /** What page_remove does: nothing without a table, otherwise it drops the count of whatever page
        the entry names and clears the entry. */
    ghost function Removed(d: nat, pdx: nat, ptx: nat): Mem
      reads this
      requires Shape(M()) && d in dirs && pdx < UPD && ptx < NENTRIES && At(d, pdx, ptx).ppn < |pages|
    {
      assert PdeOk(M(), d, pdx);
      if frames[d][pdx] == ZERO then M()
      else Decref(ClearPte(M(), frames[d][pdx].ppn, ptx), At(d, pdx, ptx).ppn)
    }

    /** page_remove (pmap.c:602-616).  It panics when it drops the last count of a page that is on the
        free list already, which no managed page can be. */
    method PageRemove(d: nat, pdx: nat, ptx: nat, ghost limbo: set<nat>, ghost extra: Option<nat>)
      returns (panicked: bool)
      requires Fair(limbo, extra) && d in dirs && pdx < UPD && ptx < NENTRIES
      modifies this
      ensures old(At(d, pdx, ptx)).ppn < |old(pages)|
      ensures var p := old(At(d, pdx, ptx)).ppn;
        && (panicked <==> old(frames)[d][pdx] != ZERO && old(pages)[p].ref == 1 && old(pages)[p].link != None)
        && (panicked ==> p in old(free) && p !in old(refs))
      ensures !panicked ==> Fair(limbo, extra) && M() == old(Removed(d, pdx, ptx))
      ensures !panicked ==> Changed(old(M()), M(), d, pdx, ptx, ZERO)
      ensures !panicked ==> (NoStray(refs, free) <==>
                old(NoStray(refs, free)) && (old(frames)[d][pdx] == ZERO || Spares(old(M()), old(At(d, pdx, ptx)))))
    {
      var found := PageLookup(d, pdx, ptx);
      if found.None? {
        NothingThere(M(), d, pdx, ptx);
        return false;
      }
      var (p, t) := found.value;
      panicked := Unmap(t, ptx, p, limbo, extra);
      if !panicked {
        PteWalks(old(M()), M(), t, ptx, ZERO, d, pdx);
      }
    }

    /** The end of page_remove: page_decref(page); *pte_store = 0 (pmap.c:613-614). */
    method Unmap(t: nat, ptx: nat, p: nat, ghost limbo: set<nat>, ghost extra: Option<nat>) returns (panicked: bool)
      requires Fair(limbo, extra) && t in owner && t < |frames| && ptx < NENTRIES
      requires frames[t][ptx].ppn == p < |pages|
      modifies this
      ensures panicked <==> old(pages)[p].ref == 1 && old(pages)[p].link != None
      ensures panicked ==> p in old(free) && p !in old(refs)
      ensures !panicked ==> Fair(limbo, extra) && M() == Decref(ClearPte(old(M()), t, ptx), p)
      ensures !panicked ==> (NoStray(refs, free) <==> old(NoStray(refs, free)) && Spares(old(M()), old(frames)[t][ptx]))
    {
      hide RefsRight, Counted, FreeRight, Linked, OwnerOk;
      RemoveStep(M(), t, ptx, limbo, extra);
      ghost var m0 := M();
      panicked := PageDecref(p);
      if panicked {
        return;
      }
      ghost var m1 := ClearPte(m0, t, ptx);
      refs := if frames[t][ptx] == ZERO then refs else DropRef(refs, p, Slot(t, ptx));
      frames := frames[t := frames[t][ptx := ZERO]];
      assert refs == m1.refs && frames == m1.frames;
    }

    /** page_insert (pmap.c:541-559).  Memory stays in order exactly if the 16-bit count of the page has
        room, which it has when the page is already mapped at this very address, and the entry it
        replaces does not name an unmanaged page whose count says it is the last. */
    method PageInsert(d: nat, pp: nat, pdx: nat, ptx: nat, perm: set<Bit>, ghost limbo: set<nat>) returns (ok: bool)
      requires Good(limbo, None) && d in dirs && pdx < UPD && ptx < NENTRIES && Mappable(M(), pp)
      modifies this
      ensures !ok ==> M() == old(M()) && Good(limbo, None) && free == []
      ensures !ok <==> old(frames)[d][pdx] == ZERO && old(free) == []
      ensures ok ==> Changed(old(M()), M(), d, pdx, ptx, Entry(pp, perm + {P}))
      ensures ok ==> (Good(limbo - {pp}, None) <==>
                Fits(old(M()), pp, old(At(d, pdx, ptx))) && SparesFor(old(M()), pp, old(At(d, pdx, ptx))))
      ensures ok && Maps(old(At(d, pdx, ptx)), pp) && old(pages)[pp].ref != 0 ==>
                pages == old(pages) && free == old(free)
    {
      ghost var m0 := M();
      var entry := PgdirWalk(d, pdx, ptx, true, limbo);
      if entry.None? {
        return false;
      }
      ghost var m1 := M();
      InsertExtends(m0, m1, d, pdx, ptx, pp, limbo);
      Replace(d, pp, pdx, ptx, entry.value, perm, limbo);
      ExtendsChanged(m0, m1, M(), d, pdx, ptx, Entry(pp, perm + {P}));
      ok := true;
    }

    /** page_insert once the table t is there (pmap.c:550-556). */
    method Replace(d: nat, pp: nat, pdx: nat, ptx: nat, t: nat, perm: set<Bit>, ghost limbo: set<nat>)
      requires Good(limbo, None) && d in dirs && pdx < UPD && ptx < NENTRIES
      requires t in owner && owner[t] == Slot(d, pdx) && Mappable(M(), pp)
      modifies this
      ensures Changed(old(M()), M(), d, pdx, ptx, Entry(pp, perm + {P}))
      ensures Good(limbo - {pp}, None) <==>
                Fits(old(M()), pp, old(At(d, pdx, ptx))) && SparesFor(old(M()), pp, old(At(d, pdx, ptx)))
      ensures Maps(old(At(d, pdx, ptx)), pp) && old(pages)[pp].ref != 0 ==> pages == old(pages) && free == old(free)
    {
      TableWalk(M(), d, pdx, t, ptx);
      MappedNotFree(M(), d, pdx, ptx, limbo, None);
      RoomMade(M(), t, ptx, pp);
      CountAndClear(d, pp, pdx, ptx, t, limbo);
      ghost var m2 := M();
      WriteEntry(d, pdx, t, ptx, Entry(pp, perm + {P}), limbo - {pp});
      ChangedTwice(old(M()), m2, M(), d, pdx, ptx, ZERO, Entry(pp, perm + {P}));
    }

    /** page_insert up to the final store (pmap.c:550-554). */
    method CountAndClear(d: nat, pp: nat, pdx: nat, ptx: nat, t: nat, ghost limbo: set<nat>)
      requires Good(limbo, None) && t in owner && owner[t] == Slot(d, pdx) && ptx < NENTRIES
      requires d in dirs && pdx < UPD && t < |frames| && Mappable(M(), pp) && frames[t][ptx].ppn < |pages|
      modifies this
      ensures Fair(limbo - {pp}, Some(pp)) && M() == Cleared(old(M()), t, ptx, pp)
      ensures NoStray(refs, free) <==> SparesFor(old(M()), pp, old(frames)[t][ptx])
      ensures t < |frames| && frames[t][ptx] == ZERO && Changed(old(M()), M(), d, pdx, ptx, ZERO)
    {
      hide RefsRight, FreeRight, Linked, Counted, DecrefPages, Fair, Vacated, Threaded;
      ghost var m0 := M();
      CountPage(pp, limbo);
      ghost var m1 := M();
      BumpSpares(m0, frames[t][ptx], pp);
      assert m1 == WithRef(m0, pp, (m0.pages[pp].ref + 1) % REFS);
      ClearEntry(d, pdx, ptx, t, limbo - {pp}, pp);
      assert Cleared(m0, t, ptx, pp) == Vacated(m1, t, ptx);
      CountedChanged(m0, m1, M(), d, pdx, ptx, ZERO);
    }

    /** pp->pp_ref++ */
    method CountPage(pp: nat, ghost limbo: set<nat>)
      requires Good(limbo, None) && pp < |pages| && pp !in free
      modifies this`pages
      ensures Good(limbo - {pp}, Some(pp)) && M() == WithRef(old(M()), pp, (old(pages)[pp].ref + 1) % REFS)
    {
      BumpKeeps(M(), pp, limbo);
      ChainFrame(pages, pages[pp := pages[pp].(ref := (pages[pp].ref + 1) % REFS)], freeHead, free);
      pages := pages[pp := pages[pp].(ref := (pages[pp].ref + 1) % REFS)];
    }

    /** if (*entry && PTE_P) page_remove(pgdir, va); */
    method ClearEntry(d: nat, pdx: nat, ptx: nat, t: nat, ghost limbo: set<nat>, ghost pp: nat)
      requires Good(limbo, Some(pp)) && d in dirs && pdx < UPD && ptx < NENTRIES
      requires t in owner && owner[t] == Slot(d, pdx) && t < |frames| && frames[t][ptx].ppn < |pages|
      modifies this
      ensures Fair(limbo, Some(pp)) && M() == Vacated(old(M()), t, ptx)
      ensures NoStray(refs, free) <==> old(frames)[t][ptx] == ZERO || Spares(old(M()), old(frames)[t][ptx])
      ensures t < |frames| && frames[t][ptx] == ZERO && Changed(old(M()), M(), d, pdx, ptx, ZERO)
    {
      TableWalk(M(), d, pdx, t, ptx);
      GoodIsFair(limbo, Some(pp));
      if frames[t][ptx] != ZERO {
        MappedNotFree(M(), d, pdx, ptx, limbo, Some(pp));
        var panicked := PageRemove(d, pdx, ptx, limbo, Some(pp));
        assert !panicked;
      } else {
        NothingThere(M(), d, pdx, ptx);
      }
    }

    /** *entry = page2pa(pp) | perm | PTE_P; */
    method WriteEntry(d: nat, pdx: nat, t: nat, ptx: nat, e: Entry, ghost limbo: set<nat>)
      requires Fair(limbo, Some(e.ppn)) && t in owner && owner[t] == Slot(d, pdx) && ptx < NENTRIES
      requires t < |frames| && frames[t][ptx] == ZERO
      requires P in e.bits && e.ppn < |pages| && e.ppn !in dirs && e.ppn !in owner && e.ppn !in limbo
      modifies this`frames, this`refs
      ensures M() == SetPte(old(M()), t, ptx, e) && Changed(old(M()), M(), d, pdx, ptx, e)
      ensures Good(limbo, None) <==>
                old(NoStray(refs, free)) && (e.ppn in old(refs) ==> |old(refs)[e.ppn]| + 1 < REFS)
    {
      WriteKeeps(M(), t, ptx, e, limbo);
      frames := frames[t := frames[t][ptx := e]];
      refs := AddRef(refs, e.ppn, Slot(t, ptx));
      PteWalks(old(M()), M(), t, ptx, e, d, pdx);
    }

    /** The entry for page address va. */
    ghost function Sees(d: nat, va: nat): Entry
      reads this
      requires Shape(M()) && d in dirs && VaOk(va)
    {
      Translation(M(), d, va)
    }

    /** No page table is there for page address va. */
    ghost predicate NoTable(d: nat, va: nat)
      reads this
      requires Shape(M()) && d in dirs && VaOk(va)
    {
      AddressDecodes(va);
      frames[d][Pdx(va)] == ZERO
    }

    /** sys_page_alloc (tps/kern/syscall.c:195-220) for the environment with page directory d. */
    method SysPageAlloc(d: nat, va: nat, perm: set<Bit>) returns (r: Status, ghost page: nat)
      requires Good({}, None) && d in dirs
      modifies this
      ensures dirs == old(dirs)
      ensures r == Inval <==> !PermOk(perm) || !VaOk(va)
      ensures r == NoMem <==> r != Inval && (old(free) == [] || (|old(free)| == 1 && old(NoTable(d, va))))
      ensures r == Success ==>
        && page in old(free) && ChangedAt(old(M()), M(), d, va, Entry(page, perm))
        && UserView(M(), d, va) == Some(View(page, W in perm, true))
      ensures r == Success ==> (Good({}, None) <==> old(Sees(d, va)) == ZERO || Spares(old(M()), old(Sees(d, va))))
      ensures r != Success ==> Good({}, None) && Untouched(old(M()), M())
    {
      hide RefsRight, Counted, Linked, Shape, UserView, Translation;
      page := 0;
      if !PermOk(perm) || !VaOk(va) {
        return Inval, 0;
      }
      ghost var m0 := M();
      TranslationIs(m0, d, va);
      var p := PageAlloc({});
      if p.None? {
        return NoMem, 0;
      }
      page := p.value;
      ghost var m1 := M();
      AllocUntouched(m0);
      UnreferencedIsNoTable(m1, page);
      AllocElsewhere(m0, d);
      var ok := PageInsert(d, p.value, Pdx(va), Ptx(va), perm, {p.value});
      if ok {
        assert perm + {P} == perm && {page} - {page} == {};
        UntouchedChanged(m0, m1, M(), d, Pdx(va), Ptx(va), Entry(page, perm));
        ChangedAddress(m0, M(), d, va, Entry(page, perm));
        ViewIs(M(), d, va);
        r := Success;
      } else {
        LinkedThreaded(pages, freeHead, free);
        var panicked := PageFree(p.value);
        assert !panicked;
        GiveBackKeeps(m1, M(), page);
        r := NoMem;
      }
    }

    /** sys_page_map (tps/kern/syscall.c:239-269) from directory sd to directory dd. */
    method SysPageMap(sd: nat, sva: nat, dd: nat, dva: nat, perm: set<Bit>) returns (r: Status)
      requires Good({}, None) && sd in dirs && dd in dirs
      modifies this
      ensures dirs == old(dirs)
      ensures r == Inval <==>
        || !PermOk(perm) || !VaOk(sva) || !VaOk(dva)
        || old(NoTable(sd, sva)) || (W in perm && W !in old(Sees(sd, sva)).bits)
      ensures r == NoMem <==> r != Inval && old(free) == [] && old(NoTable(dd, dva))
      ensures r == Success ==>
        && ChangedAt(old(M()), M(), dd, dva, Entry(old(Sees(sd, sva)).ppn, perm))
        && UserView(M(), dd, dva) == Some(View(old(Sees(sd, sva)).ppn, W in perm, true))
      ensures r == Success ==>
        var p, e := old(Sees(sd, sva)).ppn, old(Sees(dd, dva));
        p < |old(pages)| && (Good({}, None) <==> Fits(old(M()), p, e) && SparesFor(old(M()), p, e))
      ensures r != Success ==> Good({}, None) && M() == old(M())
      ensures r == Success ==>
        var p, e := old(Sees(sd, sva)).ppn, old(Sees(dd, dva));
        Maps(e, p) && old(pages)[p].ref != 0 ==> pages == old(pages) && free == old(free)
    {
      hide RefsRight, Counted, FreeRight, Linked, UserView, Translation;
      if !PermOk(perm) {
        return Inval;
      }
      if !VaOk(sva) || !VaOk(dva) {
        return Inval;
      }
      ghost var m0 := M();
      TranslationIs(m0, sd, sva);
      TranslationIs(m0, dd, dva);
      var found := PageLookup(sd, Pdx(sva), Ptx(sva));
      if found.None? {
        return Inval;
      }
      var (p, t) := found.value;
      MappedNotFree(M(), sd, Pdx(sva), Ptx(sva), {}, None);
      TableWalk(M(), sd, Pdx(sva), t, Ptx(sva));
      if W in perm && W !in frames[t][Ptx(sva)].bits {
        return Inval;
      }
      var ok := PageInsert(dd, p, Pdx(dva), Ptx(dva), perm, {});
      assert perm + {P} == perm && {} - {p} == {};
      if ok {
        ChangedAddress(m0, M(), dd, dva, Entry(p, perm));
        ViewIs(M(), dd, dva);
      }
      r := if ok then Success else NoMem;
    }

    /** sys_page_unmap (tps/kern/syscall.c:279-293). */
    method SysPageUnmap(d: nat, va: nat) returns (r: Status)
      requires Good({}, None) && d in dirs
      modifies this
      ensures dirs == old(dirs)
      ensures r == if VaOk(va) then Success else Inval
      ensures r == Success ==> ChangedAt(old(M()), M(), d, va, ZERO) && UserView(M(), d, va) == None
      ensures r == Success ==> (Good({}, None) <==> old(NoTable(d, va)) || Spares(old(M()), old(Sees(d, va))))
      ensures r == Success && !old(NoTable(d, va)) && old(Sees(d, va)) == ZERO ==>
                |pages| > 0 && M() == UnmapEmpty(old(M()), 1)
      ensures r != Success ==> Good({}, None) && M() == old(M())
    {
      hide UserView, Translation;
      if !VaOk(va) {
        return Inval;
      }
      GoodIsFair({}, None);
      TranslationIs(M(), d, va);
      MappedNotFree(M(), d, Pdx(va), Ptx(va), {}, None);
      ghost var m0 := M();
      ghost var e := At(d, Pdx(va), Ptx(va));
      var panicked := PageRemove(d, Pdx(va), Ptx(va), {}, None);
      assert !panicked;
      GoodIsFair({}, None);
      if m0.frames[d][Pdx(va)] != ZERO && e == ZERO {
        assert PdeOk(m0, d, Pdx(va));
        UnmapEmptyOnce(m0, m0.frames[d][Pdx(va)].ppn, Ptx(va));
      }
      ChangedAddress(m0, M(), d, va, ZERO);
      ViewIs(M(), d, va);
      r := Success;
    }

    /** env_setup_vm (tps/kern/env.c:159-195): `kern` is kern_pgdir, which maps nothing below UTOP. */
    method EnvSetupVm(kern: seq<Entry>) returns (d: Option<nat>)
      requires Good({}, None) && |kern| == NENTRIES && forall i :: 0 <= i < UPD ==> kern[i] == ZERO
      modifies this
      ensures Good({}, None)
      ensures d.None? ==> M() == old(M()) && free == []
      ensures d.Some? ==> d.value in old(free) && dirs == old(dirs) + {d.value} && owner == old(owner)
      ensures d.Some? ==> forall e, i, j :: e in dirs && 0 <= i < UPD && 0 <= j < NENTRIES ==>
                At(e, i, j) == if e == d.value then ZERO else old(At(e, i, j))
      ensures d.Some? ==> d.value < |frames| && |frames[d.value]| == NENTRIES
                          && frames[d.value][957] == Entry(d.value, {P, U})
                          && forall i :: UPD <= i < NENTRIES && i != 957 ==> frames[d.value][i] == kern[i]
    {
      ghost var m0 := M();
      var p := PageAlloc({});
      if p.None? {
        return None;
      }
      AllocUntouched(m0);
      InstallDir(p.value, kern);
      d := p;
    }

    /** The page becomes a counted page directory that maps itself at UVPT (tps/kern/env.c:185-191). */
    method InstallDir(p: nat, kern: seq<Entry>)
      requires Good({p}, None) && p < |pages| && pages[p].ref == 0 && p !in free
      requires |kern| == NENTRIES && forall i :: 0 <= i < UPD ==> kern[i] == ZERO
      modifies this
      ensures Good({}, None) && dirs == old(dirs) + {p} && owner == old(owner)
      ensures p < |frames| && frames[p] == kern[UVPTX := Entry(p, {P, U})]
      ensures forall e, i, j :: e in dirs && 0 <= i < UPD && 0 <= j < NENTRIES ==>
                Walk(M(), e, i, j) == if e == p then ZERO else Walk(old(M()), e, i, j)
    {
      hide RefsRight, Counted;
      ghost var m0 := M();
      NewDirKeeps(m0, p, kern);
      ChainFrame(pages, pages[p := pages[p].(ref := 1)], freeHead, free);
      pages := pages[p := pages[p].(ref := pages[p].ref + 1)];
      frames := frames[p := kern[UVPTX := Entry(p, {P, U})]];
      dirs := dirs + {p};
      refs := AddRef(refs, p, Root(p));
      assert M() == NewDir(m0, p, kern);
      forall e, i, j | e in dirs && 0 <= i < UPD && 0 <= j < NENTRIES
        ensures Walk(M(), e, i, j) == if e == p then ZERO else Walk(m0, e, i, j)
      {
        NewDirWalk(m0, p, kern, e, i, j);
      }
    }

    /** What the loops of env_free keep, since memory was m0. */
    ghost predicate Emptying(m0: Mem, d: nat)
      reads this
    {
      && Shape(M()) && d in dirs && dirs == m0.dirs
      && Fair({}, None) && AllDrained(m0, M(), d) && Shrinks(m0, M(), d)
    }

    /** The outer loop of env_free (tps/kern/env.c:432-450). */
    method FreeTables(d: nat, ghost m0: Mem) returns (panicked: bool)
      requires Emptying(m0, d)
      modifies this
      ensures panicked ==> Overdrawn(m0, d)
      ensures !panicked ==> Emptying(m0, d) && forall k :: 0 <= k < UPD ==> frames[d][k] == ZERO
    {
      hide Fair, AllDrained, Shrinks, RefsRight;
      var i := 0;
      while i < UPD
        invariant 0 <= i <= UPD && Emptying(m0, d)
        invariant forall k :: 0 <= k < i ==> frames[d][k] == ZERO
      {
        if frames[d][i] != ZERO {
          panicked := FreeTable(d, i, m0);
          if panicked {
            return;
          }
        }
        i := i + 1;
      }
      panicked := false;
    }

    /** One round of the outer loop, for a table that is there (tps/kern/env.c:436-449). */
    method FreeTable(d: nat, i: nat, ghost m0: Mem) returns (panicked: bool)
      requires Emptying(m0, d) && i < UPD && frames[d][i] != ZERO
      modifies this
      ensures panicked ==> Overdrawn(m0, d)
      ensures !panicked ==> Emptying(m0, d) && frames[d] == old(frames)[d][i := ZERO]
    {
      panicked := FreeEntries(d, i, m0);
      if !panicked {
        ForgetTable(d, i, m0);
      }
    }

    /** The inner loop (tps/kern/env.c:442-445). */
    method FreeEntries(d: nat, i: nat, ghost m0: Mem) returns (panicked: bool)
      requires Emptying(m0, d) && i < UPD && frames[d][i] != ZERO
      modifies this
      ensures panicked ==> Overdrawn(m0, d)
      ensures !panicked ==> Emptying(m0, d) && frames[d] == old(frames)[d]
      ensures !panicked ==> forall k :: 0 <= k < NENTRIES ==> Walk(M(), d, i, k) == ZERO
    {
      hide Fair, AllDrained, Shrinks, RefsRight;
      var j := 0;
      while j < NENTRIES
        invariant 0 <= j <= NENTRIES && Emptying(m0, d) && frames[d] == old(frames)[d]
        invariant forall k :: 0 <= k < j ==> Walk(M(), d, i, k) == ZERO
      {
        panicked := FreeEntry(d, i, j, m0);
        if panicked {
          return;
        }
        j := j + 1;
      }
      panicked := false;
    }

    /** One round of the inner loop (tps/kern/env.c:443-444). */
    method FreeEntry(d: nat, i: nat, j: nat, ghost m0: Mem) returns (panicked: bool)
      requires Emptying(m0, d) && i < UPD && j < NENTRIES && frames[d][i] != ZERO
      modifies this
      ensures panicked ==> Overdrawn(m0, d)
      ensures !panicked ==> Emptying(m0, d) && frames[d] == old(frames)[d] && Changed(old(M()), M(), d, i, j, ZERO)
    {
      hide RefsRight, Counted, FreeRight, Linked, Threaded, AllDrained, Shrinks, NoStray;
      ghost var m1 := M();
      assert PdeOk(m1, d, i) && PteOk(m1, frames[d][i].ppn, j);
      if P in frames[frames[d][i].ppn][j].bits {
        panicked := PageRemove(d, i, j, {}, None);
        if panicked {
          SecondTime(m0, m1, d, i, j);
        } else {
          RemovedGoesOn(m0, m1, M(), d, i, j);
        }
      } else {
        assert Walk(m1, d, i, j) == ZERO;
        NothingThere(m1, d, i, j);
        panicked := false;
      }
    }

    /** The page table itself goes (tps/kern/env.c:448-449). */
    method ForgetTable(d: nat, i: nat, ghost m0: Mem)
      requires Emptying(m0, d) && i < UPD && frames[d][i] != ZERO
      requires forall k :: 0 <= k < NENTRIES ==> Walk(M(), d, i, k) == ZERO
      modifies this
      ensures Emptying(m0, d) && frames[d] == old(frames)[d][i := ZERO]
    {
      hide RefsRight, Counted, FreeRight, NoStray, Shrinks;
      ghost var m1 := M();
      var t := frames[d][i].ppn;
      DropTableKeeps(m1, d, i);
      frames := frames[d := frames[d][i := ZERO]];
      owner := owner - {t};
      refs := DropRef(refs, t, Slot(d, i));
      var panicked := PageDecref(t);
      assert !panicked;
      assert M() == Decref(DropTable(m1, d, i), t);
      ShrinksTwice(m0, m1, M(), d);
      StillDrained(m0, m1, M(), d);
    }

    /** The page directory goes (tps/kern/env.c:453-455). */
    method ForgetDir(d: nat)
      requires Fair({}, None) && d in dirs && forall i :: 0 <= i < UPD ==> frames[d][i] == ZERO
      modifies this
      ensures d < |old(pages)| && M() == Decref(DropDir(old(M()), d), d) && Fair({}, None)
      ensures NoStray(refs, free) <==> old(NoStray(refs, free))
    {
      hide RefsRight, Counted, FreeRight, Linked, Shape, NoStray, Shrinks;
      ghost var m := M();
      DropDirKeeps(m, d);
      dirs := dirs - {d};
      refs := DropRef(refs, d, Root(d));
      var panicked := PageDecref(d);
      assert !panicked;
      assert M() == Decref(DropDir(m, d), d);
    }

    /** env_free (tps/kern/env.c:414-461): every managed page that only this environment referred to is
        free afterwards, no other managed page is, and no other address space changes.  Memory stays in
        order exactly if no unmanaged page was mapped so often that its count passed zero; the kernel
        panics only if one passed it twice, and then it does, unless there was no free page at first. */
    method EnvFree(d: nat) returns (panicked: bool)
      requires Good({}, None) && d in dirs
      modifies this
      ensures panicked ==> Overdrawn(old(M()), d) && !Survives(old(M()), d)
      ensures old(free) != [] ==> (panicked <==> Overdrawn(old(M()), d))
      ensures !panicked ==> dirs == old(dirs) - {d} && refs.Keys == old(refs).Keys && Fair({}, None)
      ensures !panicked ==> (Good({}, None) <==> Survives(old(M()), d))
      ensures !panicked ==>
        forall p :: p in refs ==> (p in free <==> forall l :: l in old(refs)[p] ==> Within(old(M()), l, d))
      ensures !panicked ==>
        forall p, l :: p in refs ==> (l in refs[p] <==> l in old(refs)[p] && !Within(old(M()), l, d))
      ensures !panicked ==>
        forall e, i, j :: e in dirs && 0 <= i < UPD && 0 <= j < NENTRIES ==> At(e, i, j) == old(At(e, i, j))
    {
      hide RefsRight, Counted, FreeRight, Linked, NoStray, Uses, Shape, Drained;
      ghost var m0 := M();
      GoodIsFair({}, None);
      FirstDrained(m0, d);
      panicked := FreeTables(d, m0);
      if panicked {
        return;
      }
      ghost var m2 := M();
      LastDrained(m0, m2, d);
      DropDirKeeps(m2, d);
      ForgetDir(d);
      NothingLeft(m0, m2, M(), d);
      GoodIsFair({}, None);
    }
  }
}
