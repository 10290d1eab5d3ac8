/** The static mappings of the kernel: boot_map_region (tps/kern/pmap.c), built with 4 KB pages only or
    with 4 MB pages where they fit.  Addresses are counted in pages.  */
module BootMap {

  import opened Options

  const ENTRIES: nat := 1024
  const PAGES: nat := 0x10_0000    // page numbers are below 2^20

  /** A present page-table entry: a page number, PTE_W and PTE_U. */
  datatype Pte = Pte(ppn: nat, w: bool, u: bool)

  /** A directory entry: 0, a page table, or a large page (PTE_PS). */
  datatype Pde =
    | Empty
    | Table(w: bool, u: bool, ptes: seq<Option<Pte>>)
    | Large(pdx: nat, w: bool, u: bool)

  function Pdx(page: nat): nat { page / ENTRIES }

  function Ptx(page: nat): nat { page % ENTRIES }

  /** The two indices give the page number back, so different pages have different entries. */
  lemma PageDecodes(page: nat)
    requires page < PAGES
    ensures Pdx(page) < ENTRIES && Ptx(page) < ENTRIES && Pdx(page) * ENTRIES + Ptx(page) == page
  {
  }

  predicate Dir(dir: seq<Pde>) {
    |dir| == ENTRIES && forall d :: 0 <= d < ENTRIES && dir[d].Table? ==> |dir[d].ptes| == ENTRIES
  }

  /** check_va2pa, and the permissions the MMU grants: those of both levels. */
  function Translate(dir: seq<Pde>, page: nat): Option<Pte>
    requires Dir(dir) && page < PAGES
  {
    match dir[Pdx(page)]
    case Empty => None
    case Large(pdx, w, u) => Some(Pte(pdx * ENTRIES + Ptx(page), w, u))
    case Table(w, u, ptes) =>
      var pte := ptes[Ptx(page)];
      if pte.None? then None else Some(Pte(pte.value.ppn, w && pte.value.w, u && pte.value.u))
  }

  /** How many of the entries from a up to b need a page table. */
  function Empties(dir: seq<Pde>, a: nat, b: nat): nat
    requires b <= |dir|
    decreases b - a
  {
    if a >= b then 0 else (if dir[a].Empty? then 1 else 0) + Empties(dir, a + 1, b)
  }

  lemma {:induction false} EmptiesLater(dir: seq<Pde>, d: nat, e: Pde, a: nat, b: nat)
    requires d < a && b <= |dir| && d < |dir|
    ensures Empties(dir[d := e], a, b) == Empties(dir, a, b)
    decreases b - a
  {
    if a < b {
      EmptiesLater(dir, d, e, a + 1, b);
    }
  }

  /** Walks may go through this entry: it is empty or a table that pgdir_walk made. */
  predicate Walkable(e: Pde) { e.Empty? || (e.Table? && e.w && e.u) }

  function Fresh(): seq<Option<Pte>> { seq(ENTRIES, _ => None) }

  /** Changing the entry of `page` to one that maps this page and agrees on the others. */
  predicate SameBut(dir: seq<Pde>, dir': seq<Pde>, lo: nat, hi: nat)
    requires Dir(dir) && Dir(dir')
  {
    forall x :: 0 <= x < PAGES && !(lo <= x < hi) ==> Translate(dir', x) == Translate(dir, x)
  }

  /** Pages lo up to hi translate to pp and up, except where no page table could be had. */
  predicate Mapped(dir: seq<Pde>, lo: nat, hi: nat, vp: nat, pp: nat, w: bool, u: bool)
    requires Dir(dir) && vp <= lo && hi <= PAGES
  {
    forall x :: lo <= x < hi ==>
      dir[Pdx(x)].Empty? || Translate(dir, x) == Some(Pte(pp + (x - vp), w, u))
  }

  predicate AllMapped(dir: seq<Pde>, lo: nat, hi: nat, vp: nat, pp: nat, w: bool, u: bool)
    requires Dir(dir) && vp <= lo && hi <= PAGES
  {
    forall x :: lo <= x < hi ==> Translate(dir, x) == Some(Pte(pp + (x - vp), w, u))
  }

  lemma Nothing(dir: seq<Pde>, vp: nat, pp: nat, w: bool, u: bool)
    requires Dir(dir) && vp <= PAGES
    ensures SameBut(dir, dir, vp, vp) && Mapped(dir, vp, vp, vp, pp, w, u) && AllMapped(dir, vp, vp, vp, pp, w, u)
  {
  }

  /** A page for which there is no table is left out. */
  lemma Skipped(dir0: seq<Pde>, dir: seq<Pde>, vp: nat, mid: nat, pp: nat, w: bool, u: bool)
    requires Dir(dir0) && Dir(dir) && vp <= mid < PAGES && dir[Pdx(mid)].Empty?
    requires SameBut(dir0, dir, vp, mid) && Mapped(dir, vp, mid, vp, pp, w, u)
    ensures SameBut(dir0, dir, vp, mid + 1) && Mapped(dir, vp, mid + 1, vp, pp, w, u)
  {
  }

  /** One chunk more is mapped, by a change of one directory entry. */
  lemma Chunk(dir0: seq<Pde>, dir: seq<Pde>, dir': seq<Pde>, vp: nat, mid: nat, hi: nat, pp: nat, w: bool, u: bool,
              e: Pde, all: bool)
    requires Dir(dir0) && Dir(dir) && Dir(dir') && vp <= mid < hi <= PAGES
    requires SameBut(dir0, dir, vp, mid) && SameBut(dir, dir', mid, hi) && dir' == dir[Pdx(mid) := e]
    requires Mapped(dir, vp, mid, vp, pp, w, u) && AllMapped(dir', mid, hi, mid, pp + (mid - vp), w, u)
    requires if all then AllMapped(dir, vp, mid, vp, pp, w, u) else !dir[Pdx(mid)].Empty? || Ptx(mid) == 0
    ensures SameBut(dir0, dir', vp, hi) && Mapped(dir', vp, hi, vp, pp, w, u)
    ensures all ==> AllMapped(dir', vp, hi, vp, pp, w, u)
  {
    forall x | vp <= x < hi
      ensures dir'[Pdx(x)].Empty? || Translate(dir', x) == Some(Pte(pp + (x - vp), w, u))
    {
    }
  }

  /** pgdir_walk with create, and the store through its result. */
  function SetPage(e: Pde, k: nat, pte: Pte): Pde
    requires Walkable(e) && (e.Table? ==> |e.ptes| == ENTRIES) && k < ENTRIES
  {
    if e.Empty? then Table(true, true, Fresh()[k := Some(pte)]) else Table(e.w, e.u, e.ptes[k := Some(pte)])
  }

  lemma SmallStep(dir: seq<Pde>, page: nat, ppn: nat, w: bool, u: bool)
    requires Dir(dir) && page < PAGES && Walkable(dir[Pdx(page)])
    ensures var dir' := dir[Pdx(page) := SetPage(dir[Pdx(page)], Ptx(page), Pte(ppn, w, u))];
      && Dir(dir') && SameBut(dir, dir', page, page + 1)
      && AllMapped(dir', page, page + 1, page, ppn, w, u)
  {
    var d := Pdx(page);
    var dir' := dir[d := SetPage(dir[d], Ptx(page), Pte(ppn, w, u))];
    forall x | 0 <= x < PAGES && x != page
      ensures Translate(dir', x) == Translate(dir, x)
    {
      if Pdx(x) == d {
        assert Ptx(x) != Ptx(page);
      }
    }
  }

  lemma LargeStep(dir: seq<Pde>, page: nat, ppn: nat, w: bool, u: bool)
    requires Dir(dir) && page + ENTRIES <= PAGES && Ptx(page) == 0 && Ptx(ppn) == 0
    ensures var dir' := dir[Pdx(page) := Large(Pdx(ppn), w, u)];
      && Dir(dir') && SameBut(dir, dir', page, page + ENTRIES)
      && AllMapped(dir', page, page + ENTRIES, page, ppn, w, u)
  {
    var dir' := dir[Pdx(page) := Large(Pdx(ppn), w, u)];
    forall x | 0 <= x < PAGES
      ensures Pdx(x) == Pdx(page) <==> page <= x < page + ENTRIES
    {
    }
  }

  /** The walks for pages from up to end go through empty entries and tables. */
  predicate RestWalkable(dir: seq<Pde>, from: nat, end: nat)
    requires |dir| == ENTRIES
  {
    forall d :: Pdx(from) <= d < ENTRIES && d * ENTRIES < end ==> Walkable(dir[d])
  }

  lemma FirstEmpty(dir: seq<Pde>, from: nat, end: nat)
    requires |dir| == ENTRIES && from < end <= PAGES && RestWalkable(dir, from, end)
    ensures Pdx(from) < Pdx(end - 1) + 1 <= ENTRIES && Walkable(dir[Pdx(from)])
    ensures var hi := Pdx(end - 1) + 1;
      Empties(dir, Pdx(from), hi) == (if dir[Pdx(from)].Empty? then 1 else 0) + Empties(dir, Pdx(from) + 1, hi)
  {
  }

  /** Going on by one page or by a whole entry, after at most the first entry was filled. */
  lemma Advance(dir: seq<Pde>, dir': seq<Pde>, d: nat, from: nat, step: nat, end: nat)
    requires |dir| == |dir'| == ENTRIES && d == Pdx(from) && from + step <= end <= PAGES && RestWalkable(dir, from, end)
    requires step == 1 || (step == ENTRIES && Ptx(from) == 0)
    requires dir' == dir[d := dir'[d]] && (step == 1 ==> Walkable(dir'[d]))
    ensures RestWalkable(dir', from + step, end)
    ensures var hi := Pdx(end - 1) + 1;
      from + step < end ==>
        Empties(dir', Pdx(from + step), hi) ==
          Empties(dir, d + 1, hi) + if Pdx(from + step) == d && dir'[d].Empty? then 1 else 0
  {
    EmptiesLater(dir, d, dir'[d], d + 1, Pdx(end - 1) + 1);
    assert Pdx(from + step) == d || Pdx(from + step) == d + 1;
  }

  /** One past the last directory entry of the region. */
  function Last(vp: nat, size: nat): nat { if size > 0 then Pdx(vp + size - 1) + 1 else 0 }

  ghost predicate Enough(dir0: seq<Pde>, vp: nat, size: nat, avail: nat)
    requires |dir0| == ENTRIES && vp + size <= PAGES
  {
    size > 0 && Last(vp, size) <= ENTRIES && Empties(dir0, Pdx(vp), Last(vp, size)) <= avail
  }

  /** The directory has room for the rest, if it had for all. */
  ghost predicate Roomy(dir: seq<Pde>, vp: nat, size: nat, i: nat, enough: bool, left: nat)
    requires |dir| == ENTRIES && vp + size <= PAGES && i <= size
  {
    && RestWalkable(dir, vp + i, vp + size)
    && (enough && i < size ==> Last(vp, size) <= ENTRIES && Empties(dir, Pdx(vp + i), Last(vp, size)) <= left)
  }

  /** What the first i pages translate to. */
  ghost predicate Done(dir0: seq<Pde>, dir: seq<Pde>, vp: nat, i: nat, pp: nat, w: bool, u: bool, all: bool)
    requires Dir(dir0) && Dir(dir) && vp + i <= PAGES
  {
    && SameBut(dir0, dir, vp, vp + i) && Mapped(dir, vp, vp + i, vp, pp, w, u)
    && (all ==> AllMapped(dir, vp, vp + i, vp, pp, w, u))
  }

  /** How things stand after i pages. */
  ghost predicate So(dir0: seq<Pde>, dir: seq<Pde>, vp: nat, size: nat, i: nat, pp: nat, w: bool, u: bool,
                     avail: nat, left: nat)
    requires Dir(dir0) && Dir(dir) && vp + size <= PAGES && i <= size
  {
    && Roomy(dir, vp, size, i, Enough(dir0, vp, size, avail), left)
    && Done(dir0, dir, vp, i, pp, w, u, Enough(dir0, vp, size, avail) || left > 0)
  }

  lemma Start(dir: seq<Pde>, vp: nat, size: nat, pp: nat, w: bool, u: bool, avail: nat)
    requires Dir(dir) && vp + size <= PAGES && RestWalkable(dir, vp, vp + size)
    ensures So(dir, dir, vp, size, 0, pp, w, u, avail, avail)
  {
    Nothing(dir, vp, pp, w, u);
  }

  lemma Finished(dir0: seq<Pde>, dir: seq<Pde>, vp: nat, size: nat, pp: nat, w: bool, u: bool, avail: nat, left: nat)
    requires Dir(dir0) && Dir(dir) && vp + size <= PAGES && So(dir0, dir, vp, size, size, pp, w, u, avail, left)
    ensures SameBut(dir0, dir, vp, vp + size) && Mapped(dir, vp, vp + size, vp, pp, w, u)
    ensures Enough(dir0, vp, size, avail) ==> AllMapped(dir, vp, vp + size, vp, pp, w, u)
  {
  }

  lemma NextWalkable(dir0: seq<Pde>, dir: seq<Pde>, vp: nat, size: nat, i: nat, pp: nat, w: bool, u: bool,
                     avail: nat, left: nat)
    requires Dir(dir0) && Dir(dir) && vp + size <= PAGES && i < size
    requires So(dir0, dir, vp, size, i, pp, w, u, avail, left)
    ensures Walkable(dir[Pdx(vp + i)])
  {
  }

  lemma LargeGoesOn(dir0: seq<Pde>, dir: seq<Pde>, dir': seq<Pde>, vp: nat, size: nat, i: nat,
                    pp: nat, w: bool, u: bool, avail: nat, left: nat)
    requires Dir(dir0) && Dir(dir) && vp + size <= PAGES && i + ENTRIES <= size
    requires So(dir0, dir, vp, size, i, pp, w, u, avail, left)
    requires Ptx(pp + i) == 0 && Ptx(vp + i) == 0 && dir' == dir[Pdx(vp + i) := Large(Pdx(pp + i), w, u)]
    ensures Dir(dir') && So(dir0, dir', vp, size, i + ENTRIES, pp, w, u, avail, left)
  {
    LargeRoom(dir, dir', vp, size, i, Enough(dir0, vp, size, avail), left);
    LargeDone(dir0, dir, dir', vp, i, pp, w, u, Enough(dir0, vp, size, avail) || left > 0);
    hide Roomy, Done, Enough;
  }

  lemma LargeRoom(dir: seq<Pde>, dir': seq<Pde>, vp: nat, size: nat, i: nat, enough: bool, left: nat)
    requires |dir| == ENTRIES == |dir'| && vp + size <= PAGES && i + ENTRIES <= size
    requires Roomy(dir, vp, size, i, enough, left)
    requires Ptx(vp + i) == 0 && Pdx(vp + i) < ENTRIES
    requires dir' == dir[Pdx(vp + i) := dir'[Pdx(vp + i)]] && dir'[Pdx(vp + i)].Large?
    ensures Roomy(dir', vp, size, i + ENTRIES, enough, left)
  {
    FirstEmpty(dir, vp + i, vp + size);
    Advance(dir, dir', Pdx(vp + i), vp + i, ENTRIES, vp + size);
    hide Empties, RestWalkable;
  }

  lemma LargeDone(dir0: seq<Pde>, dir: seq<Pde>, dir': seq<Pde>, vp: nat, i: nat, pp: nat, w: bool, u: bool, all: bool)
    requires Dir(dir0) && Dir(dir) && vp + i + ENTRIES <= PAGES && Done(dir0, dir, vp, i, pp, w, u, all)
    requires Ptx(pp + i) == 0 && Ptx(vp + i) == 0 && dir' == dir[Pdx(vp + i) := Large(Pdx(pp + i), w, u)]
    ensures Dir(dir') && Done(dir0, dir', vp, i + ENTRIES, pp, w, u, all)
  {
    LargeStep(dir, vp + i, pp + i, w, u);
    Chunk(dir0, dir, dir', vp, vp + i, vp + i + ENTRIES, pp, w, u, dir'[Pdx(vp + i)], all);
    hide SameBut, Mapped, AllMapped, Translate;
  }

  lemma SmallGoesOn(dir0: seq<Pde>, dir: seq<Pde>, dir': seq<Pde>, vp: nat, size: nat, i: nat,
                    pp: nat, w: bool, u: bool, avail: nat, had: nat, left: nat, skipped: bool)
    requires Dir(dir0) && Dir(dir) && vp + size <= PAGES && i < size && So(dir0, dir, vp, size, i, pp, w, u, avail, had)
    requires Walkable(dir[Pdx(vp + i)]) && (skipped <==> dir[Pdx(vp + i)].Empty? && had == 0)
    requires skipped ==> dir' == dir && left == had
    requires !skipped ==> dir' == dir[Pdx(vp + i) := SetPage(dir[Pdx(vp + i)], Ptx(vp + i), Pte(pp + i, w, u))]
    requires !skipped ==> left == had - if dir[Pdx(vp + i)].Empty? then 1 else 0
    ensures Dir(dir') && So(dir0, dir', vp, size, i + 1, pp, w, u, avail, left)
  {
    var enough := Enough(dir0, vp, size, avail);
    SmallRoom(dir, dir', vp, size, i, enough, had, left);
    if skipped {
      NotSkippable(dir, vp, size, i, enough, had);
      SkipDone(dir0, dir, vp, i, pp, w, u);
    } else {
      SmallDone(dir0, dir, dir', vp, i, pp, w, u, enough || had > 0);
    }
    hide Roomy, Done, Enough, SetPage, Walkable;
  }

  lemma NotSkippable(dir: seq<Pde>, vp: nat, size: nat, i: nat, enough: bool, left: nat)
    requires |dir| == ENTRIES && vp + size <= PAGES && i < size && Roomy(dir, vp, size, i, enough, left)
    requires Pdx(vp + i) < ENTRIES && dir[Pdx(vp + i)].Empty? && left == 0
    ensures !enough
  {
    FirstEmpty(dir, vp + i, vp + size);
  }

  lemma SkipDone(dir0: seq<Pde>, dir: seq<Pde>, vp: nat, i: nat, pp: nat, w: bool, u: bool)
    requires Dir(dir0) && Dir(dir) && vp + i < PAGES && Done(dir0, dir, vp, i, pp, w, u, false)
    requires dir[Pdx(vp + i)].Empty?
    ensures Done(dir0, dir, vp, i + 1, pp, w, u, false)
  {
    Skipped(dir0, dir, vp, vp + i, pp, w, u);
    hide SameBut, Mapped, AllMapped, Translate;
  }

  lemma SmallDone(dir0: seq<Pde>, dir: seq<Pde>, dir': seq<Pde>, vp: nat, i: nat, pp: nat, w: bool, u: bool, all: bool)
    requires Dir(dir0) && Dir(dir) && vp + i < PAGES && Done(dir0, dir, vp, i, pp, w, u, all)
    requires Walkable(dir[Pdx(vp + i)])
    requires dir' == dir[Pdx(vp + i) := SetPage(dir[Pdx(vp + i)], Ptx(vp + i), Pte(pp + i, w, u))]
    requires dir[Pdx(vp + i)].Empty? ==> all
    ensures Dir(dir') && Done(dir0, dir', vp, i + 1, pp, w, u, all)
  {
    hide Translate;
    SmallStep(dir, vp + i, pp + i, w, u);
    Chunk(dir0, dir, dir', vp, vp + i, vp + i + 1, pp, w, u, dir'[Pdx(vp + i)], all);
    hide SameBut, Mapped, AllMapped, Translate;
  }

  /** Filling one entry takes one page and leaves one entry less to fill. */
  lemma SmallRoom(dir: seq<Pde>, dir': seq<Pde>, vp: nat, size: nat, i: nat, enough: bool, had: nat, left: nat)
    requires |dir| == ENTRIES == |dir'| && vp + size <= PAGES && i < size && Roomy(dir, vp, size, i, enough, had)
    requires dir' == dir[Pdx(vp + i) := dir'[Pdx(vp + i)]] && Walkable(dir'[Pdx(vp + i)])
    requires if dir'[Pdx(vp + i)].Empty? then dir' == dir && left == had
             else left == had - if dir[Pdx(vp + i)].Empty? then 1 else 0
    ensures Roomy(dir', vp, size, i + 1, enough, left)
  {
    FirstEmpty(dir, vp + i, vp + size);
    Advance(dir, dir', Pdx(vp + i), vp + i, 1, vp + size);
    hide Empties, RestWalkable;
  }

  /** pgdir_walk with create set, and the store through the entry it finds, if it finds one. */
  method MapSmall(pgdir: array<Pde>, page: nat, pte: Pte, avail: nat) returns (skipped: bool, left: nat)
    requires Dir(pgdir[..]) && page < PAGES && Walkable(pgdir[Pdx(page)])
    modifies pgdir
    ensures skipped <==> old(pgdir[Pdx(page)]).Empty? && avail == 0
    ensures skipped ==> pgdir[..] == old(pgdir[..]) && left == avail
    ensures !skipped ==> pgdir[..] == old(pgdir[..])[Pdx(page) := SetPage(old(pgdir[Pdx(page)]), Ptx(page), pte)]
    ensures !skipped ==> left == avail - if old(pgdir[Pdx(page)]).Empty? then 1 else 0
  {
    var d := Pdx(page);
    left := avail;
    if pgdir[d].Empty? {
      if left == 0 {
        return true, left;
      }
      left := left - 1;
      pgdir[d] := Table(true, true, Fresh());
    }
    pgdir[d] := Table(pgdir[d].w, pgdir[d].u, pgdir[d].ptes[Ptx(page) := Some(pte)]);
    skipped := false;
  }

  /** boot_map_region; pse says whether TP1_PSE is defined, avail how many pages page_alloc has left. */
  method BootMapRegion(pgdir: array<Pde>, vp: nat, size: nat, pp: nat, w: bool, u: bool, pse: bool, avail: nat)
    returns (left: nat)
    requires Dir(pgdir[..]) && vp + size <= PAGES && pp + size <= PAGES
    requires RestWalkable(pgdir[..], vp, vp + size)
    modifies pgdir
    ensures Dir(pgdir[..]) && left <= avail
    ensures SameBut(old(pgdir[..]), pgdir[..], vp, vp + size)
    ensures Mapped(pgdir[..], vp, vp + size, vp, pp, w, u)
    ensures Enough(old(pgdir[..]), vp, size, avail) ==>
              AllMapped(pgdir[..], vp, vp + size, vp, pp, w, u)
  {
    hide RestWalkable;
    left := avail;
    var i := 0;
    ghost var dir0 := pgdir[..];
    Start(dir0, vp, size, pp, w, u, avail);
    hide So, Walkable, RestWalkable, SetPage;
    while i < size
      invariant 0 <= i <= size && Dir(pgdir[..]) && left <= avail
      invariant So(dir0, pgdir[..], vp, size, i, pp, w, u, avail, left)
    {
      ghost var dir := pgdir[..];
      if pse && size - i >= ENTRIES && Ptx(pp + i) == 0 && Ptx(vp + i) == 0 {
        pgdir[Pdx(vp + i)] := Large(Pdx(pp + i), w, u);
        LargeGoesOn(dir0, dir, pgdir[..], vp, size, i, pp, w, u, avail, left);
        i := i + ENTRIES;
      } else {
        NextWalkable(dir0, dir, vp, size, i, pp, w, u, avail, left);
        ghost var had := left;
        var skipped;
        skipped, left := MapSmall(pgdir, vp + i, Pte(pp + i, w, u), left);
        SmallGoesOn(dir0, dir, pgdir[..], vp, size, i, pp, w, u, avail, had, left, skipped);
        i := i + 1;
      }
    }
    Finished(dir0, pgdir[..], vp, size, pp, w, u, avail, left);
  }

  /** The routine as built without and with TP1_PSE, each on the same directory and with the same number
      of free pages: if there are enough, both give every page of the address space the same translation. */
  method BothBuilds(dir: seq<Pde>, vp: nat, size: nat, pp: nat, w: bool, u: bool, avail: nat)
    returns (small: seq<Pde>, large: seq<Pde>)
    requires Dir(dir) && vp + size <= PAGES && pp + size <= PAGES && RestWalkable(dir, vp, vp + size)
    requires size == 0 || Enough(dir, vp, size, avail)
    ensures Dir(small) && Dir(large) && forall x :: 0 <= x < PAGES ==> Translate(small, x) == Translate(large, x)
    ensures forall x :: vp <= x < vp + size ==> Translate(small, x) == Some(Pte(pp + (x - vp), w, u))
  {
    var a := new Pde[ENTRIES](i requires 0 <= i < ENTRIES => dir[i]);
    var b := new Pde[ENTRIES](i requires 0 <= i < ENTRIES => dir[i]);
    assert a[..] == dir && b[..] == dir;
    var _ := BootMapRegion(a, vp, size, pp, w, u, false, avail);
    var _ := BootMapRegion(b, vp, size, pp, w, u, true, avail);
    small, large := a[..], b[..];
    forall x | 0 <= x < PAGES
      ensures Translate(small, x) == Translate(large, x)
    {
      if vp <= x < vp + size {
        assert Translate(small, x) == Some(Pte(pp + (x - vp), w, u));
      } else {
        assert Translate(small, x) == Translate(dir, x);
      }
    }
  }
}
